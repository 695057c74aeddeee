/** The way of a report from the table to a request: the table and the posting task together.
    A list is read and cleared before the request is started that is to carry it. */
module Delivery {
  import opened Common
  import opened AdvCache
  import opened AsyncComm
  import AdvRuns
  import AdvQueues
  import AsyncTheorems

  /** A started request or periodic batch, and the reports it was given. */
  datatype Request = Request(k: Queue, reports: seq<Report>)

  datatype World = World(table: Cache, post: State, sent: seq<Request>)

  /** A report is received; the MQTT task takes the head of list 3; the statistics are read; a
      signal that leaves the posting task as it is clears the table; the posting task or the
      server goes on. */
  datatype Event =
    | Received(adv: Report)
    | HeadPublished
    | CountersRead
    | Cleared
    | Posting(e: AsyncComm.Event)

  function ListOf(a: Action): Option<Queue> {
    match a
    case PostAdvs1 => Some(List1)
    case PostAdvs2 => Some(List2)
    case PostMqtt => Some(List3)
    case _ => None
  }

  /** Everything works that comes before the list is read. */
  predicate GetsToList(s: State, a: Action, env: Env) {
    && s.flags.relaying && s.flags.network && !MayNotSendYet(s, env) && env.allocOk
    && if a == PostMqtt then env.useMqtt && env.mqttConnected else s.locks.mutex == Free
  }

  /** The state in which the posting task turns to the next request, if it does in this step. */
  function Ready(s: State, env: Env): Option<State> {
    if !s.inProgress then Some(s)
    else
      var (t, over) := GoOn(s, env);
      if over then Some(t.(inProgress := false)) else None
  }

  /** The list that a step of the posting task reads and clears. */
  function Drained(s: State, env: Env): Option<Queue> {
    var t := Ready(s, env);
    if t.None? then None
    else
      var a := AsyncTheorems.Turn(t.value.needs);
      if GetsToList(t.value, a, env) then ListOf(a) else None
  }

  /** What a step of the posting task does to the table: the first time synchronisation and a
      new configuration clear it. */
  function PostingOnTable(s: State, e: AsyncComm.Event): Option<AdvRuns.Event> {
    if !e.Handled? || s.flags.stop then None
    else
      match e.sig
      case DoAsync(env) =>
        var k := Drained(s, env);
        if k.None? then None else Some(AdvRuns.DrainList(k.value))
      case TimeSynchronized => if s.flags.timeSynced then None else Some(AdvRuns.ClearTable)
      case CfgChanged(_, _, _, _) => Some(AdvRuns.ClearTable)
      case _ => None
  }

  function OnTable(s: State, e: Event): Option<AdvRuns.Event> {
    match e
    case Received(adv) => Some(AdvRuns.PutAdv(adv))
    case HeadPublished => Some(AdvRuns.PopList3)
    case CountersRead => Some(AdvRuns.ReadStatistics)
    case Cleared => Some(AdvRuns.ClearTable)
    case Posting(e) => PostingOnTable(s, e)
  }

  /** A periodic batch gets its reports from list 3. */
  ghost function Filled(w: World, e: AsyncComm.Event): AsyncComm.Event
    requires Wf(w.table)
  {
    if e.Handled? && e.sig.DoAsync? then Handled(DoAsync(e.sig.env.(reports := Drain(w.table, List3).1))) else e
  }

  ghost function AfterOn(c: Cache, e: Option<AdvRuns.Event>): (c': Cache)
    requires Wf(c)
    ensures Wf(c')
  {
    if e.None? then c
    else
      AdvRuns.ApplyWf(c, e.value);
      AdvRuns.Apply(c, e.value)
  }

  predicate HttpStarted(was: seq<Started>, now: seq<Started>, a: Action) {
    |now| > |was| && now[|now| - 1].action == a
  }

  /** Between two states of the posting task, the request was started that carries list k. */
  predicate StartedFor(s: State, s': State, k: Queue) {
    match k
    case List1 => HttpStarted(s.counter.started, s'.counter.started, PostAdvs1)
    case List2 => HttpStarted(s.counter.started, s'.counter.started, PostAdvs2)
    case List3 => |s'.mqtt.batches| > |s.mqtt.batches|
  }

  /** The requests so far, when the posting task has come from state s to state s'. */
  ghost function SentOn(w: World, e: Event, s': State): seq<Request>
    requires Wf(w.table)
  {
    var t := OnTable(w.post, e);
    if t.Some? && t.value.DrainList? && StartedFor(w.post, s', t.value.k) then
      w.sent + [Request(t.value.k, Drain(w.table, t.value.k).1)]
    else w.sent
  }

  ghost function Step(w: World, e: Event): (w': World)
    requires Wf(w.table)
    ensures Wf(w'.table)
  {
    var s' := if e.Posting? then AsyncComm.Apply(w.post, Filled(w, e.e)) else w.post;
    World(AfterOn(w.table, OnTable(w.post, e)), s', SentOn(w, e, s'))
  }

  /** The world after more events. */
  ghost function Later(w: World, more: seq<Event>): (w': World)
    requires Wf(w.table)
    ensures Wf(w'.table)
  {
    if more == [] then w else Step(Later(w, more[..|more| - 1]), more[|more| - 1])
  }

  ghost function Run(nonce: u32, events: seq<Event>): (w: World)
    ensures Wf(w.table)
  {
    Later(World(EMPTY, Init(nonce), []), events)
  }

  // ---------------------------------------------------------------- runs of the table and of the posting task

  /** What the table alone sees of a run. */
  ghost function TableEvents(nonce: u32, events: seq<Event>): seq<AdvRuns.Event> {
    if events == [] then []
    else
      var b := events[..|events| - 1];
      var t := OnTable(Run(nonce, b).post, events[|events| - 1]);
      TableEvents(nonce, b) + if t.None? then [] else [t.value]
  }

  lemma {:induction false} RunProjects(nonce: u32, events: seq<Event>)
    ensures Run(nonce, events).table == AdvRuns.Run(TableEvents(nonce, events))
  {
    if events != [] {
      var b := events[..|events| - 1];
      RunProjects(nonce, b);
      var t := OnTable(Run(nonce, b).post, events[|events| - 1]);
      var ts := TableEvents(nonce, events);
      if t.None? {
        assert ts == TableEvents(nonce, b);
      } else {
        assert AdvRuns.Before(ts) == TableEvents(nonce, b) && AdvRuns.Last(ts) == t.value;
      }
    }
  }

  lemma {:induction false} RunLocks(nonce: u32, events: seq<Event>)
    ensures AsyncTheorems.Locking(Run(nonce, events).post)
  {
    if events != [] {
      var b, e := events[..|events| - 1], events[|events| - 1];
      RunLocks(nonce, b);
      if e.Posting? {
        AsyncTheorems.ApplyLocks(Run(nonce, b).post, Filled(Run(nonce, b), e.e));
      }
    }
  }

  /** Received reports carry data. */
  ghost predicate CarryData(events: seq<Event>) {
    forall i :: 0 <= i < |events| && events[i].Received? ==> events[i].adv.data != []
  }

  lemma {:induction false} TableEventsCarryData(nonce: u32, events: seq<Event>)
    requires CarryData(events)
    ensures AdvRuns.PutsCarryData(TableEvents(nonce, events))
  {
    if events != [] {
      TableEventsCarryData(nonce, events[..|events| - 1]);
    }
  }

  // ---------------------------------------------------------------- requests and what they carry

  /** Everything works that comes between reading the list and starting the request. */
  predicate SurvivesStart(k: Queue, env: Env) {
    k == List3 || (env.cfgCopyOk && env.sendOk)
  }

  lemma NextStarts(s: State, env: Env, k: Queue)
    requires AsyncTheorems.Locking(s) && !s.inProgress
    ensures var a := AsyncTheorems.Turn(s.needs);
            StartedFor(s, StartNext(s, env), k) <==>
              GetsToList(s, a, env) && ListOf(a) == Some(k) && SurvivesStart(k, env)
    ensures k == List3 && StartedFor(s, StartNext(s, env), k) ==>
              StartNext(s, env).mqtt == BeginBatch(s.mqtt, env.reports)
  {
  }

  /** A step of the posting task starts the request that carries a list exactly when it reads the
      list and the start of the request works. */
  lemma StartsWhen(s: State, env: Env, k: Queue)
    requires AsyncTheorems.Locking(s)
    ensures var s' := DoAsyncComm(s, env);
            && (StartedFor(s, s', k) <==> Drained(s, env) == Some(k) && SurvivesStart(k, env))
            && (k == List3 && StartedFor(s, s', k) ==> LastBatch(s'.mqtt.batches).reports == env.reports)
  {
    if Ready(s, env).Some? {
      NextStarts(Ready(s, env).value, env, k);
    }
  }

  function Go(env: Env): Event {
    Posting(Handled(DoAsync(env)))
  }

  /** What is read does not decide what is read. */
  lemma DrainedIgnoresReports(s: State, env: Env, reports: seq<Report>)
    ensures Drained(s, env.(reports := reports)) == Drained(s, env)
  {
    assert Ready(s, env.(reports := reports)) == Ready(s, env);
  }

  lemma GoStarts(w: World, env: Env, k: Queue)
    requires Wf(w.table) && AsyncTheorems.Locking(w.post) && !w.post.flags.stop
    ensures var s' := Step(w, Go(env)).post;
            && (StartedFor(w.post, s', k) <==> Drained(w.post, env) == Some(k) && SurvivesStart(k, env))
            && (k == List3 && StartedFor(w.post, s', k) ==> LastBatch(s'.mqtt.batches).reports == Drain(w.table, k).1)
  {
    var env' := env.(reports := Drain(w.table, List3).1);
    StartsWhen(w.post, env', k);
    DrainedIgnoresReports(w.post, env, Drain(w.table, List3).1);
    assert Step(w, Go(env)).post == DoAsyncComm(w.post, env');
  }

  lemma GoOutcome(w: World, env: Env, k: Queue)
    requires Wf(w.table) && AsyncTheorems.Locking(w.post) && !w.post.flags.stop
    ensures var w' := Step(w, Go(env));
            && (Drained(w.post, env) == Some(k) ==>
                  w'.table == Drain(w.table, k).0
                  && w'.sent == if SurvivesStart(k, env) then w.sent + [Request(k, Drain(w.table, k).1)] else w.sent)
            && (Drained(w.post, env) == None ==> w'.table == w.table && w'.sent == w.sent)
  {
    GoStarts(w, env, k);
  }

  /** Reading a list gives a report of each sensor that waits in it. */
  lemma ReadMacs(c: Cache, k: Queue, m: Mac)
    requires Wf(c)
    ensures Resident(Drain(c, k).1, m) <==> m in c.Q(k)
  {
    var q, out := c.Q(k), Drain(c, k).1;
    assert QueueWf(c.lru, q) by { match k case List1 => case List2 => case List3 => }
    forall i | 0 <= i < |q| ensures out[i].mac == q[i] {
      assert q[i] in q;
    }
    if m in q {
      var i :| 0 <= i < |q| && q[i] == m;
      assert out[i].mac == m;
    }
  }

  /** MAIN RESULT. In every run, a request that carries a list is started exactly when the list
      is read and the start works, and it is given exactly the sensors that are in the table and
      were accepted since they last left the list, each once and with its latest accepted
      report; a periodic batch publishes just these reports. */
  lemma RequestCarries(nonce: u32, events: seq<Event>, env: Env, k: Queue)
    requires CarryData(events) && !Run(nonce, events).post.flags.stop
    ensures var w, ts := Run(nonce, events), TableEvents(nonce, events);
            var w', newest := Step(w, Go(env)), AdvRuns.Newest(AdvRuns.Log(ts));
            StartedFor(w.post, w'.post, k) <==> Drained(w.post, env) == Some(k) && SurvivesStart(k, env)
    ensures var w, ts := Run(nonce, events), TableEvents(nonce, events);
            var w', newest := Step(w, Go(env)), AdvRuns.Newest(AdvRuns.Log(ts));
            StartedFor(w.post, w'.post, k) ==>
              && |w'.sent| == |w.sent| + 1 && w'.sent[|w.sent|].k == k
              && var out := w'.sent[|w.sent|].reports;
              && DistinctMacs(out)
              && (forall m :: Resident(out, m) <==> Resident(newest, m) && AdvQueues.AcceptedSinceLeft(ts, k, m))
              && (forall i :: 0 <= i < |out| ==>
                    Resident(newest, out[i].mac) && AdvRuns.SameButCounter(out[i], Lookup(newest, out[i].mac)))
              && (k == List3 ==> LastBatch(w'.post.mqtt.batches).reports == out)
  {
    var w, ts := Run(nonce, events), TableEvents(nonce, events);
    RunLocks(nonce, events);
    GoStarts(w, env, k);
    GoOutcome(w, env, k);
    RunProjects(nonce, events);
    TableEventsCarryData(nonce, events);
    AdvQueues.DrainIsExact(ts, k);
  }

  /** When the posting task is free, it reads the list of the request whose turn it is exactly
      when relaying is on, the network and the time are there, memory is there, and the mutex
      is free, or MQTT is used and connected; whether the request can then be started does not
      matter. */
  lemma DrainedIff(s: State, env: Env)
    requires !s.inProgress
    ensures var time := s.flags.useTimestamps ==> env.timeSynced;
            var ready := s.flags.relaying && s.flags.network && time && env.allocOk;
            var n, free := s.needs, s.locks.mutex == Free;
            && (Drained(s, env) == Some(List1) <==> ready && free && n.advs1)
            && (Drained(s, env) == Some(List2) <==> ready && free && !n.advs1 && n.advs2)
            && (Drained(s, env) == Some(List3) <==>
                  ready && env.useMqtt && env.mqttConnected && !n.advs1 && !n.advs2 && !n.stats && n.mqtt)
  {
  }

  /** No report holds data, and no sensor waits. */
  ghost predicate Emptied(c: Cache) {
    c.q1 == c.q2 == c.q3 == [] && forall i :: 0 <= i < |c.lru| ==> c.lru[i].data == []
  }

  /** Which signals touch the table: a new configuration and the first time synchronisation empty
      it, and only a communication step reads a list. */
  lemma SignalsOnTable(w: World, sig: Signal)
    requires Wf(w.table) && !w.post.flags.stop
    ensures var w' := Step(w, Posting(Handled(sig)));
            && (sig.CfgChanged? || (sig.TimeSynchronized? && !w.post.flags.timeSynced) ==> Emptied(w'.table))
            && (!sig.CfgChanged? && !sig.DoAsync? && !(sig.TimeSynchronized? && !w.post.flags.timeSynced) ==>
                  w'.table == w.table)
    ensures Emptied(Step(w, Cleared).table)
  {
  }

  // ---------------------------------------------------------------- what is lost, and what is not sent twice

  /** A report of the sensor is accepted. */
  predicate AcceptedOf(w: World, e: Event, m: Mac) {
    e.Received? && e.adv.mac == m && Accepts(w.table, e.adv)
  }

  ghost predicate NoneAccepted(w: World, more: seq<Event>, m: Mac)
    requires Wf(w.table)
  {
    forall i :: 0 <= i < |more| ==> !AcceptedOf(Later(w, more[..i]), more[i], m)
  }

  lemma StepStaysOut(w: World, e: Event, k: Queue, m: Mac)
    requires Wf(w.table) && m !in w.table.Q(k) && !AcceptedOf(w, e, m)
    ensures m !in Step(w, e).table.Q(k)
  {
    if e.Received? {
      AdvQueues.PutQueue(w.table, e.adv, k, m);
    } else {
      var t := OnTable(w.post, e);
      if t.Some? {
        AdvQueues.OtherQueues(w.table, t.value, k, m);
      }
    }
  }

  /** A list that a sensor does not wait in does not give its report to a request. */
  lemma StepSends(w: World, e: Event, k: Queue, m: Mac)
    requires Wf(w.table) && m !in w.table.Q(k)
    ensures w.sent <= Step(w, e).sent
    ensures forall i :: |w.sent| <= i < |Step(w, e).sent| && Step(w, e).sent[i].k == k ==>
                          !Resident(Step(w, e).sent[i].reports, m)
  {
    ReadMacs(w.table, k, m);
  }

  /** None of the requests from position n on carries a report of the sensor from list k. */
  ghost predicate NotSentFrom(sent: seq<Request>, n: nat, k: Queue, m: Mac) {
    forall i :: n <= i < |sent| && sent[i].k == k ==> !Resident(sent[i].reports, m)
  }

  lemma {:induction false} NeverAgain(w: World, more: seq<Event>, k: Queue, m: Mac)
    requires Wf(w.table) && m !in w.table.Q(k) && NoneAccepted(w, more, m)
    ensures m !in Later(w, more).table.Q(k)
    ensures w.sent <= Later(w, more).sent && NotSentFrom(Later(w, more).sent, |w.sent|, k, m)
  {
    if more != [] {
      var b, e := more[..|more| - 1], more[|more| - 1];
      assert forall i :: 0 <= i < |b| ==> b[..i] == more[..i];
      NeverAgain(w, b, k, m);
      StepStaysOut(Later(w, b), e, k, m);
      StepSends(Later(w, b), e, k, m);
    }
  }

  /** Whether the requests that a step adds carry a waiting report. */
  lemma GoSends(w: World, env: Env, k: Queue, m: Mac)
    requires Wf(w.table) && AsyncTheorems.Locking(w.post) && !w.post.flags.stop && m in w.table.Q(k)
    ensures NotSentFrom(Step(w, Go(env)).sent, |w.sent|, k, m) <==>
              !(Drained(w.post, env) == Some(k) && SurvivesStart(k, env))
  {
    var w', d := Step(w, Go(env)), Drained(w.post, env);
    GoOutcome(w, env, if d.Some? then d.value else k);
    ReadMacs(w.table, k, m);
    if d == Some(k) && SurvivesStart(k, env) {
      assert w'.sent[|w.sent|] == Request(k, Drain(w.table, k).1);
    }
  }

  lemma GoQueues(w: World, env: Env, k: Queue)
    requires Wf(w.table) && AsyncTheorems.Locking(w.post) && !w.post.flags.stop
    ensures var w' := Step(w, Go(env));
            w'.table.lru == w.table.lru && w'.table.Q(k) == if Drained(w.post, env) == Some(k) then [] else w.table.Q(k)
  {
    var d := Drained(w.post, env);
    GoOutcome(w, env, if d.Some? then d.value else k);
  }

  lemma SameDataDiscarded(c: Cache, adv: Report)
    requires Resident(c.lru, adv.mac) && adv.data == Lookup(c.lru, adv.mac).data
    ensures !Accepts(c, adv)
  {
  }

  /** MAIN RESULT. The fate of a waiting report in a step of the posting task: it goes on waiting
      exactly when its list is not read, it is carried by the started request exactly when the
      list is read and the start works, and otherwise it is lost. Either way it has left the
      list: until another report of the sensor is accepted, no later request for the list
      carries the sensor, and hearing the same data again does not change that. */
  lemma FateOfWaiting(w: World, env: Env, more: seq<Event>, k: Queue, m: Mac)
    requires Wf(w.table) && AsyncTheorems.Locking(w.post) && !w.post.flags.stop && m in w.table.Q(k)
    ensures var w' := Step(w, Go(env));
            && (m in w'.table.Q(k) <==> Drained(w.post, env) != Some(k))
            && (!NotSentFrom(w'.sent, |w.sent|, k, m) <==> Drained(w.post, env) == Some(k) && SurvivesStart(k, env))
            && (Drained(w.post, env) == Some(k) && NoneAccepted(w', more, m) ==>
                  w'.sent <= Later(w', more).sent && NotSentFrom(Later(w', more).sent, |w'.sent|, k, m))
    ensures forall adv: Report ::
              adv.mac == m && Resident(w.table.lru, m) && adv.data == Lookup(w.table.lru, m).data ==>
                !Accepts(Step(w, Go(env)).table, adv)
  {
    GoQueues(w, env, k);
    GoSends(w, env, k, m);
    if Drained(w.post, env) == Some(k) && NoneAccepted(Step(w, Go(env)), more, m) {
      NeverAgain(Step(w, Go(env)), more, k, m);
    }
    forall adv: Report | adv.mac == m && Resident(w.table.lru, m) && adv.data == Lookup(w.table.lru, m).data
      ensures !Accepts(Step(w, Go(env)).table, adv) {
      SameDataDiscarded(Step(w, Go(env)).table, adv);
    }
  }
}
