/** Suspending and resuming relaying from any number of threads, interleaved with the posting
    task that learns of it through a signal. */
module Relaying {
  datatype Op = SuspendAll | ResumeAll | SuspendHttp | ResumeHttp

  /** How often relaying is suspended. */
  datatype Counts = Counts(http: nat, mqtt: nat)

  function Down(n: nat): nat {
    if n == 0 then 0 else n - 1
  }

  /** A resume of what is not suspended is ignored. */
  function Count(c: Counts, op: Op): Counts {
    match op
    case SuspendAll => Counts(c.http + 1, c.mqtt + 1)
    case ResumeAll => Counts(Down(c.http), Down(c.mqtt))
    case SuspendHttp => c.(http := c.http + 1)
    case ResumeHttp => c.(http := Down(c.http))
  }

  /** A thread inside a call: what it will notify about, and whether it waits afterwards. */
  datatype Pc =
    | Outside
    | Counted(http: bool, mqtt: bool, wait: bool)
    | HttpMarked(http: bool, mqtt: bool, wait: bool)
    | AllMarked(http: bool, mqtt: bool, wait: bool)
    | WaitsMqtt(http: bool)
    | WaitsHttp

  /** `seen` records that the posting task has read the counter since this thread changed it, `raced`
      that the thread set the command bit between a reading of the old counter and the
      clearing of the bit that belongs to that reading; `held` counts the suspensions of HTTP
      relaying that the thread has not taken back, alone or together with MQTT. */
  datatype Thread = Thread(pc: Pc, seen: bool, raced: bool, held: int)

  /** The posting task's handler of the signal: the signal is taken, then the counter is read, then
      the command bit is cleared. */
  datatype Handler = Waits | Taken | Read

  /** The main task's handler of the same notification, which starts or stops MQTT: whether its
      signal is pending, how far it is, and whether it has read that MQTT is not suspended. */
  datatype Main = Main(pending: bool, handler: Handler, relaying: bool)

  /** `requesting` says that the posting task has a request in progress; `heldAll` and `heldHttp`
      count the suspensions that have not been taken back by any thread. */
  datatype State = State(
    counts: Counts, httpCmd: bool, mqttCmd: bool, pending: bool, handler: Handler, relaying: bool, requesting: bool,
    threads: seq<Thread>, heldAll: int, heldHttp: int, main: Main)

  function Idle(n: nat): (threads: seq<Thread>)
    ensures |threads| == n && forall t :: 0 <= t < n ==> threads[t] == Thread(Outside, true, false, 0)
  {
    seq(n, _ => Thread(Outside, true, false, 0))
  }

  function Init(n: nat): State {
    State(Counts(0, 0), false, false, false, Waits, true, false, Idle(n), 0, 0, Main(false, Waits, true))
  }

  datatype Event =
    | Call(t: nat, op: Op, wait: bool)
    | MarkHttp(t: nat)
    | MarkMqtt(t: nat)
    | Notify(t: nat)
    | StopWaitingMqtt(t: nat, timeout: bool)
    | StopWaitingHttp(t: nat, timeout: bool)
    | TakeSignal
    | ReadCount
    | ClearHttpCmd
    | StartRequest
    | FinishRequest
    | MainTakesSignal
    | MainReadsCount
    | MainClearsCmd

  function Go(s: State, t: nat, pc: Pc): State
    requires t < |s.threads|
  {
    s.(threads := s.threads[t := s.threads[t].(pc := pc)])
  }

  function Held(op: Op): int {
    if op == SuspendAll || op == SuspendHttp then 1 else -1
  }

  /** The counters change under a mutex; only a change between zero and non-zero is notified. */
  function CallStep(s: State, t: nat, op: Op, wait: bool): State
    requires t < |s.threads|
  {
    var c := Count(s.counts, op);
    var http := (s.counts.http == 0) != (c.http == 0);
    var mqtt := (s.counts.mqtt == 0) != (c.mqtt == 0);
    var held := s.(counts := c,
      heldAll := s.heldAll + (if op == SuspendAll then 1 else if op == ResumeAll then -1 else 0),
      heldHttp := s.heldHttp + (if op == SuspendHttp then 1 else if op == ResumeHttp then -1 else 0));
    held.(threads := s.threads[t := Thread(
      if http || mqtt then Counted(http, mqtt, wait) else Outside, false, false, s.threads[t].held + Held(op))])
  }

  function AllSeen(threads: seq<Thread>): (r: seq<Thread>)
    ensures |r| == |threads| && forall i :: 0 <= i < |threads| ==> r[i] == threads[i].(seen := true)
  {
    seq(|threads|, i requires 0 <= i < |threads| => threads[i].(seen := true))
  }

  function ThreadStep(s: State, e: Event, t: nat): State
    requires t < |s.threads|
  {
    var th := s.threads[t];
    match e
    case Call(_, op, wait) => if th.pc.Outside? then CallStep(s, t, op, wait) else s
    case MarkHttp(_) =>
      if !th.pc.Counted? then s
      else
        s.(httpCmd := s.httpCmd || th.pc.http,
           threads := s.threads[t := th.(pc := HttpMarked(th.pc.http, th.pc.mqtt, th.pc.wait),
                                         raced := s.handler == Read && !th.seen)])
    case MarkMqtt(_) =>
      if !th.pc.HttpMarked? then s
      else Go(s.(mqttCmd := s.mqttCmd || th.pc.mqtt), t, AllMarked(th.pc.http, th.pc.mqtt, th.pc.wait))
    case Notify(_) =>
      if !th.pc.AllMarked? then s
      else
        Go(s.(pending := true, main := s.main.(pending := true)), t,
           if !th.pc.wait then Outside else if th.pc.mqtt then WaitsMqtt(th.pc.http) else WaitsHttp)
    case StopWaitingMqtt(_, timeout) =>
      if th.pc.WaitsMqtt? && (timeout || !s.mqttCmd) then Go(s, t, if th.pc.http then WaitsHttp else Outside) else s
    case StopWaitingHttp(_, timeout) =>
      if th.pc.WaitsHttp? && (timeout || !s.httpCmd) then Go(s, t, Outside) else s
    case _ => s
  }

  predicate OfThread(e: Event) {
    e.Call? || e.MarkHttp? || e.MarkMqtt? || e.Notify? || e.StopWaitingMqtt? || e.StopWaitingHttp?
  }

  /** While relaying is enabled the posting task starts requests; when it reads that relaying is
      suspended, it aborts what is in progress before it clears the command bit. */
  function Apply(s: State, e: Event): State {
    match e
    case TakeSignal => if s.pending && s.handler == Waits then s.(pending := false, handler := Taken) else s
    case ReadCount =>
      if s.handler == Taken then
        s.(relaying := s.counts.http == 0, requesting := s.requesting && s.counts.http == 0, handler := Read,
           threads := AllSeen(s.threads))
      else s
    case ClearHttpCmd => if s.handler == Read then s.(httpCmd := false, handler := Waits) else s
    case StartRequest => if s.handler == Waits && s.relaying then s.(requesting := true) else s
    case FinishRequest => s.(requesting := false)
    case MainTakesSignal =>
      if s.main.pending && s.main.handler == Waits
      then s.(main := s.main.(pending := false, handler := Taken)) else s
    case MainReadsCount =>
      if s.main.handler == Taken
      then s.(main := s.main.(relaying := s.counts.mqtt == 0, handler := Read)) else s
    case MainClearsCmd =>
      if s.main.handler == Read then s.(mqttCmd := false, main := s.main.(handler := Waits)) else s
    case _ => if e.t < |s.threads| then ThreadStep(s, e, e.t) else s
  }

  function Run(n: nat, events: seq<Event>): State {
    if events == [] then Init(n) else Apply(Run(n, events[..|events| - 1]), events[|events| - 1])
  }

  // ---------------------------------------------------------------- the flag follows the counter

  /** A thread has changed the HTTP counter from or to zero, and has yet to notify it. */
  predicate WillNotify(pc: Pc) {
    (pc.Counted? || pc.HttpMarked? || pc.AllMarked?) && pc.http
  }

  ghost predicate OnItsWay(s: State) {
    s.pending || s.handler == Taken || exists t :: 0 <= t < |s.threads| && WillNotify(s.threads[t].pc)
  }

  ghost predicate Agrees(s: State) {
    s.relaying == (s.counts.http == 0) || OnItsWay(s)
  }

  lemma CallAgrees(s: State, t: nat, op: Op, wait: bool)
    requires Agrees(s) && t < |s.threads| && s.threads[t].pc.Outside?
    ensures Agrees(CallStep(s, t, op, wait))
  {
    var s' := CallStep(s, t, op, wait);
    assert (s.counts.http == 0) != (s'.counts.http == 0) ==> WillNotify(s'.threads[t].pc);
    if OnItsWay(s) && !s.pending && s.handler != Taken {
      var u :| 0 <= u < |s.threads| && WillNotify(s.threads[u].pc);
      assert s'.threads[u] == s.threads[u];
    }
  }

  lemma ThreadAgrees(s: State, e: Event, t: nat)
    requires Agrees(s) && t < |s.threads|
    ensures Agrees(ThreadStep(s, e, t))
  {
    var s' := ThreadStep(s, e, t);
    if e.Call? {
      if s.threads[t].pc.Outside? {
        CallAgrees(s, t, e.op, e.wait);
      }
    } else {
      if OnItsWay(s) && !s.pending && s.handler != Taken {
        var u :| 0 <= u < |s.threads| && WillNotify(s.threads[u].pc);
        assert u != t ==> s'.threads[u] == s.threads[u];
      }
      assert WillNotify(s.threads[t].pc) && s' != s ==> s'.pending || WillNotify(s'.threads[t].pc);
    }
  }

  lemma ApplyAgrees(s: State, e: Event)
    requires Agrees(s)
    ensures Agrees(Apply(s, e))
  {
    if OfThread(e) {
      if e.t < |s.threads| { ThreadAgrees(s, e, e.t); }
    } else if OnItsWay(s) && !s.pending && s.handler != Taken {
      var u :| 0 <= u < |s.threads| && WillNotify(s.threads[u].pc);
      assert WillNotify(Apply(s, e).threads[u].pc);
    }
  }

  /** MAIN RESULT. For any number of threads: when no notification is on its way, relaying is
      enabled in the posting task exactly when it is not suspended. */
  lemma {:induction false} FlagFollowsCounter(n: nat, events: seq<Event>)
    ensures Agrees(Run(n, events))
  {
    if events != [] {
      FlagFollowsCounter(n, events[..|events| - 1]);
      ApplyAgrees(Run(n, events[..|events| - 1]), events[|events| - 1]);
    }
  }

  // ---------------------------------------------------------------- the same for MQTT

  predicate WillNotifyMqtt(pc: Pc) {
    (pc.Counted? || pc.HttpMarked? || pc.AllMarked?) && pc.mqtt
  }

  ghost predicate MqttOnItsWay(s: State) {
    s.main.pending || s.main.handler == Taken || exists t :: 0 <= t < |s.threads| && WillNotifyMqtt(s.threads[t].pc)
  }

  ghost predicate MqttAgrees(s: State) {
    s.main.relaying == (s.counts.mqtt == 0) || MqttOnItsWay(s)
  }

  lemma CallAgreesMqtt(s: State, t: nat, op: Op, wait: bool)
    requires MqttAgrees(s) && t < |s.threads| && s.threads[t].pc.Outside?
    ensures MqttAgrees(CallStep(s, t, op, wait))
  {
    var s' := CallStep(s, t, op, wait);
    assert (s.counts.mqtt == 0) != (s'.counts.mqtt == 0) ==> WillNotifyMqtt(s'.threads[t].pc);
    if MqttOnItsWay(s) && !s.main.pending && s.main.handler != Taken {
      var u :| 0 <= u < |s.threads| && WillNotifyMqtt(s.threads[u].pc);
      assert s'.threads[u] == s.threads[u];
    }
  }

  /** What a step inside a call leaves as it is, and that it hands the notification on. */
  lemma ThreadPasses(s: State, e: Event, t: nat)
    requires t < |s.threads| && !e.Call?
    ensures var s' := ThreadStep(s, e, t);
            && s'.counts == s.counts && s'.main == s.main.(pending := s'.main.pending)
            && (s.main.pending ==> s'.main.pending) && |s'.threads| == |s.threads|
            && (forall u :: 0 <= u < |s.threads| && u != t ==> s'.threads[u] == s.threads[u])
            && (WillNotifyMqtt(s.threads[t].pc) ==> s'.main.pending || WillNotifyMqtt(s'.threads[t].pc))
  {
  }

  lemma ThreadAgreesMqtt(s: State, e: Event, t: nat)
    requires MqttAgrees(s) && t < |s.threads|
    ensures MqttAgrees(ThreadStep(s, e, t))
  {
    if e.Call? {
      if s.threads[t].pc.Outside? {
        CallAgreesMqtt(s, t, e.op, e.wait);
      }
    } else {
      ThreadPasses(s, e, t);
      if MqttOnItsWay(s) && !s.main.pending && s.main.handler != Taken {
        var u :| 0 <= u < |s.threads| && WillNotifyMqtt(s.threads[u].pc);
        assert u != t ==> WillNotifyMqtt(ThreadStep(s, e, t).threads[u].pc);
      }
    }
  }

  lemma TasksKeepPcs(s: State, e: Event)
    requires !OfThread(e)
    ensures var s' := Apply(s, e);
            s'.counts == s.counts && |s'.threads| == |s.threads|
            && forall t :: 0 <= t < |s.threads| ==> s'.threads[t].pc == s.threads[t].pc
  {
  }

  lemma TasksAgreeMqtt(s: State, e: Event)
    requires MqttAgrees(s) && !OfThread(e)
    ensures MqttAgrees(Apply(s, e))
  {
    var s' := Apply(s, e);
    TasksKeepPcs(s, e);
    if MqttOnItsWay(s) && !s.main.pending && s.main.handler != Taken {
      var u :| 0 <= u < |s.threads| && WillNotifyMqtt(s.threads[u].pc);
      assert WillNotifyMqtt(s'.threads[u].pc);
    }
  }

  lemma ApplyAgreesMqtt(s: State, e: Event)
    requires MqttAgrees(s)
    ensures MqttAgrees(Apply(s, e))
  {
    if !OfThread(e) {
      TasksAgreeMqtt(s, e);
    } else if e.t < |s.threads| {
      ThreadAgreesMqtt(s, e, e.t);
    }
  }

  /** MAIN RESULT. The same for the main task: when no notification of MQTT is on its way, it has
      read that MQTT may run exactly when that is not suspended. */
  lemma {:induction false} MqttFollowsCounter(n: nat, events: seq<Event>)
    ensures MqttAgrees(Run(n, events))
  {
    if events != [] {
      MqttFollowsCounter(n, events[..|events| - 1]);
      ApplyAgreesMqtt(Run(n, events[..|events| - 1]), events[|events| - 1]);
    }
  }

  // ---------------------------------------------------------------- matched pairs

  /** A caller takes back only what was suspended in the same way before. */
  predicate TakesBack(s: State, e: Event) {
    e.Call? && e.t < |s.threads| && s.threads[e.t].pc.Outside? ==>
      (e.op == ResumeAll ==> s.heldAll > 0) && (e.op == ResumeHttp ==> s.heldHttp > 0)
  }

  ghost predicate Matched(n: nat, events: seq<Event>) {
    events != [] ==>
      Matched(n, events[..|events| - 1]) && TakesBack(Run(n, events[..|events| - 1]), events[|events| - 1])
  }

  ghost predicate Balanced(s: State) {
    s.heldAll >= 0 && s.heldHttp >= 0 && s.counts == Counts(s.heldAll + s.heldHttp, s.heldAll)
  }

  lemma ApplyBalanced(s: State, e: Event)
    requires Balanced(s) && TakesBack(s, e)
    ensures Balanced(Apply(s, e))
  {
  }

  /** MAIN RESULT. With matched calls the counters count what is held, and so relaying via
      MQTT is suspended only while relaying via HTTP is. */
  lemma {:induction false} MatchedCounts(n: nat, events: seq<Event>)
    requires Matched(n, events)
    ensures var s := Run(n, events);
            && s.heldAll >= 0 && s.heldHttp >= 0 && s.counts == Counts(s.heldAll + s.heldHttp, s.heldAll)
            && (s.counts.mqtt > 0 ==> s.counts.http > 0)
  {
    if events != [] {
      MatchedCounts(n, events[..|events| - 1]);
      ApplyBalanced(Run(n, events[..|events| - 1]), events[|events| - 1]);
    }
  }

  lemma RunSnoc(n: nat, events: seq<Event>, e: Event)
    ensures Run(n, events + [e]) == Apply(Run(n, events), e)
  {
    assert (events + [e])[..|events|] == events;
  }

  /** Without matching the implication fails: both are suspended, and HTTP alone is resumed. */
  lemma UnmatchedCounts()
    ensures Run(2, [Call(0, SuspendAll, false), Call(1, ResumeHttp, false)]).counts == Counts(0, 1)
  {
    RunSnoc(2, [], Call(0, SuspendAll, false));
    RunSnoc(2, [Call(0, SuspendAll, false)], Call(1, ResumeHttp, false));
    assert [] + [Call(0, SuspendAll, false)] == [Call(0, SuspendAll, false)];
    assert [Call(0, SuspendAll, false)] + [Call(1, ResumeHttp, false)]
        == [Call(0, SuspendAll, false), Call(1, ResumeHttp, false)];
  }

  // ---------------------------------------------------------------- waiting

  /** The thread has set the command bit for HTTP and has not stopped waiting for it. */
  predicate ExpectsClear(pc: Pc) {
    ((pc.HttpMarked? || pc.AllMarked? || pc.WaitsMqtt?) && pc.http) || pc.WaitsHttp?
  }

  /** As long as the posting task has not read the new counter, the bit stays set, unless the thread
      raced with the handler. */
  ghost predicate BitStays(s: State) {
    forall t :: 0 <= t < |s.threads| && ExpectsClear(s.threads[t].pc) && !s.threads[t].seen && !s.threads[t].raced
      ==> s.httpCmd && s.handler != Read
  }

  /** A thread that notifies has something to notify. */
  ghost predicate HasReason(s: State) {
    forall t :: 0 <= t < |s.threads| ==>
      var pc := s.threads[t].pc;
      pc.Counted? || pc.HttpMarked? || pc.AllMarked? ==> pc.http || pc.mqtt
  }

  lemma ApplyBitStays(s: State, e: Event)
    requires BitStays(s) && HasReason(s)
    ensures BitStays(Apply(s, e)) && HasReason(Apply(s, e))
  {
  }

  lemma {:induction false} RunBitStays(n: nat, events: seq<Event>)
    ensures BitStays(Run(n, events)) && HasReason(Run(n, events))
  {
    if events != [] {
      RunBitStays(n, events[..|events| - 1]);
      ApplyBitStays(Run(n, events[..|events| - 1]), events[|events| - 1]);
    }
  }

  /** MAIN RESULT. When a caller that waits finds its command handled, the posting task has read the
      counter after the caller changed it, provided that the caller did not set the command
      bit while the handler was between an older reading and the clearing of the bit. */
  lemma HandledMeansSeen(n: nat, events: seq<Event>, t: nat)
    requires var s := Run(n, events); t < |s.threads| && s.threads[t].pc.WaitsHttp? && !s.httpCmd
    ensures var th := Run(n, events).threads[t]; th.seen || th.raced
  {
    RunBitStays(n, events);
  }

  // ---------------------------------------------------------------- exclusion

  /** A thread takes back only what it has suspended itself. */
  predicate TakesBackOwn(s: State, e: Event) {
    e.Call? && e.t < |s.threads| && s.threads[e.t].pc.Outside? && Held(e.op) < 0 ==> s.threads[e.t].held > 0
  }

  ghost predicate OwnMatched(n: nat, events: seq<Event>) {
    events != [] ==>
      OwnMatched(n, events[..|events| - 1]) && TakesBackOwn(Run(n, events[..|events| - 1]), events[|events| - 1])
  }

  function SumHeld(threads: seq<Thread>): int {
    if threads == [] then 0 else SumHeld(threads[..|threads| - 1]) + threads[|threads| - 1].held
  }

  lemma {:induction false} SumHeldUpdate(threads: seq<Thread>, t: nat, th: Thread)
    requires t < |threads|
    ensures SumHeld(threads[t := th]) == SumHeld(threads) - threads[t].held + th.held
  {
    var last := |threads| - 1;
    if t == last {
      assert threads[t := th][..last] == threads[..last];
    } else {
      assert threads[t := th][..last] == threads[..last][t := th];
      SumHeldUpdate(threads[..last], t, th);
    }
  }

  lemma {:induction false} SumHeldSame(threads: seq<Thread>, threads': seq<Thread>)
    requires |threads| == |threads'| && forall t :: 0 <= t < |threads| ==> threads[t].held == threads'[t].held
    ensures SumHeld(threads) == SumHeld(threads')
  {
    if threads != [] {
      SumHeldSame(threads[..|threads| - 1], threads'[..|threads| - 1]);
    }
  }

  lemma {:induction false} SumHeldIdle(n: nat)
    ensures SumHeld(Idle(n)) == 0
  {
    if n > 0 {
      assert Idle(n)[..n - 1] == Idle(n - 1);
      SumHeldIdle(n - 1);
    }
  }

  ghost predicate NoneNegative(threads: seq<Thread>) {
    forall t :: 0 <= t < |threads| ==> threads[t].held >= 0
  }

  lemma {:induction false} SumHeldAtLeast(threads: seq<Thread>, t: nat)
    requires NoneNegative(threads) && t < |threads|
    ensures SumHeld(threads) >= threads[t].held
    decreases |threads|
  {
    var rest := threads[..|threads| - 1];
    assert threads[|threads| - 1].held >= 0;
    if t < |rest| {
      SumHeldAtLeast(rest, t);
    } else {
      SumNotNegative(rest);
    }
  }

  lemma {:induction false} SumNotNegative(threads: seq<Thread>)
    requires NoneNegative(threads)
    ensures SumHeld(threads) >= 0
  {
    if threads != [] {
      SumNotNegative(threads[..|threads| - 1]);
    }
  }

  /** The counter is the sum of what the threads hold. */
  ghost predicate Accounted(s: State) {
    NoneNegative(s.threads) && s.counts.http == SumHeld(s.threads)
  }

  /** A thread that holds a suspension which the posting task has seen has the HTTP client to itself. */
  ghost predicate Quiet(s: State) {
    && (s.requesting ==> s.relaying)
    && forall t :: 0 <= t < |s.threads| && s.threads[t].held > 0 && s.threads[t].seen ==> !s.relaying
  }

  lemma CallAccounted(s: State, t: nat, op: Op, wait: bool)
    requires t < |s.threads| && Accounted(s) && (Held(op) < 0 ==> s.threads[t].held > 0)
    ensures Accounted(CallStep(s, t, op, wait))
  {
    var th := CallStep(s, t, op, wait).threads[t];
    SumHeldUpdate(s.threads, t, th);
    SumHeldAtLeast(s.threads, t);
  }

  lemma ThreadKeepsHeld(s: State, e: Event, t: nat)
    requires t < |s.threads| && (e.Call? ==> !s.threads[t].pc.Outside?)
    ensures var s' := ThreadStep(s, e, t);
            s'.counts == s.counts && |s'.threads| == |s.threads|
            && forall u :: 0 <= u < |s.threads| ==> s'.threads[u].held == s.threads[u].held
  {
  }

  lemma ApplyAccounted(s: State, e: Event)
    requires Accounted(s) && TakesBackOwn(s, e)
    ensures Accounted(Apply(s, e))
  {
    if e.Call? && e.t < |s.threads| && s.threads[e.t].pc.Outside? {
      CallAccounted(s, e.t, e.op, e.wait);
    } else {
      if OfThread(e) && e.t < |s.threads| {
        ThreadKeepsHeld(s, e, e.t);
      }
      SumHeldSame(s.threads, Apply(s, e).threads);
    }
  }

  lemma ApplyQuiet(s: State, e: Event)
    requires Accounted(s) && Quiet(s)
    ensures Quiet(Apply(s, e))
  {
    if e == ReadCount && s.handler == Taken && s.counts.http == 0 {
      forall t | 0 <= t < |s.threads| ensures s.threads[t].held <= 0 {
        SumHeldAtLeast(s.threads, t);
      }
    }
  }

  lemma {:induction false} RunQuiet(n: nat, events: seq<Event>)
    requires OwnMatched(n, events)
    ensures Accounted(Run(n, events)) && Quiet(Run(n, events))
  {
    if events == [] {
      SumHeldIdle(n);
    } else {
      RunQuiet(n, events[..|events| - 1]);
      ApplyAccounted(Run(n, events[..|events| - 1]), events[|events| - 1]);
      ApplyQuiet(Run(n, events[..|events| - 1]), events[|events| - 1]);
    }
  }

  /** A caller has set the bit, and it was cleared for an older reading of the counter. */
  predicate Outraced(s: State, t: nat) {
    t < |s.threads| && s.threads[t].pc == HttpMarked(true, false, true) && !s.httpCmd
    && s.relaying && s.counts.http == 1 && s.handler == Waits
  }

  lemma RaceIsLost(s: State, t: nat)
    requires t < |s.threads| && s.threads[t].pc.Outside? && s.handler == Read && s.relaying && s.counts.http == 0
    ensures Outraced(Apply(Apply(Apply(s, Call(t, SuspendHttp, true)), MarkHttp(t)), ClearHttpCmd), t)
  {
    var s1 := Apply(s, Call(t, SuspendHttp, true));
    assert s1.threads[t].pc == Counted(true, false, true) && !s1.threads[t].seen;
  }

  lemma OutracedReturns(s: State, t: nat)
    requires Outraced(s, t)
    ensures var s' := Apply(Apply(Apply(s, MarkMqtt(t)), Notify(t)), StopWaitingHttp(t, false));
            |s'.threads| == |s.threads| && s'.threads[t].pc == Outside
            && s'.counts.http == 1 && s'.relaying && s'.handler == Waits
  {
    var s1 := Apply(s, MarkMqtt(t));
    assert s1.threads[t].pc == AllMarked(true, false, true) && !s1.httpCmd;
  }

  /** The proviso is needed: whenever the posting task has read that relaying is enabled and has yet
      to clear the bit, a caller that suspends HTTP relaying and waits can be told that this
      was handled while the posting task goes on relaying. */
  lemma RacedWaitEndsEarly(s: State, t: nat)
    requires t < |s.threads| && s.threads[t].pc.Outside? && s.handler == Read && s.relaying && s.counts.http == 0
    ensures var s1 := Apply(Apply(s, Call(t, SuspendHttp, true)), MarkHttp(t));
            var s2 := Apply(Apply(s1, ClearHttpCmd), MarkMqtt(t));
            var s3 := Apply(Apply(s2, Notify(t)), StopWaitingHttp(t, false));
            s3.threads[t].pc == Outside && s3.counts.http == 1 && s3.relaying
  {
    RaceIsLost(s, t);
    OutracedReturns(Apply(Apply(Apply(s, Call(t, SuspendHttp, true)), MarkHttp(t)), ClearHttpCmd), t);
  }

  lemma RunStep(n: nat, events: seq<Event>, i: nat)
    requires i < |events|
    ensures Run(n, events[..i + 1]) == Apply(Run(n, events[..i]), events[i])
    ensures OwnMatched(n, events[..i]) && TakesBackOwn(Run(n, events[..i]), events[i]) ==>
              OwnMatched(n, events[..i + 1])
  {
    assert events[..i + 1][..i] == events[..i];
  }

  /** The states of the runs in which every thread takes back only its own suspensions. */
  ghost predicate Reachable(n: nat, s: State) {
    exists events :: OwnMatched(n, events) && Run(n, events) == s
  }

  lemma InitReachable(n: nat)
    ensures Reachable(n, Init(n))
  {
    assert OwnMatched(n, []) && Run(n, []) == Init(n);
  }

  lemma StepReachable(n: nat, s: State, e: Event) returns (s': State)
    requires Reachable(n, s) && TakesBackOwn(s, e)
    ensures Reachable(n, s') && s' == Apply(s, e)
  {
    var events :| OwnMatched(n, events) && Run(n, events) == s;
    RunSnoc(n, events, e);
    OwnMatchedSnoc(n, events, e);
    s' := Apply(s, e);
  }

  lemma OwnStep(n: nat, s: State, e: Event) returns (s': State)
    requires Reachable(n, s) && !e.Call?
    ensures Reachable(n, s') && s' == Apply(s, e)
  {
    s' := StepReachable(n, s, e);
  }

  lemma RaceCalls() returns (s: State)
    ensures Reachable(2, s)
    ensures s == Init(2).(counts := Counts(1, 0), httpCmd := true, heldHttp := 1,
                          threads := [Thread(Outside, true, false, 0),
                                      Thread(HttpMarked(true, false, false), false, false, 1)])
  {
    InitReachable(2);
    s := StepReachable(2, Init(2), Call(1, SuspendHttp, false));
    assert s.threads == [Thread(Outside, true, false, 0), Thread(Counted(true, false, false), false, false, 1)];
    s := OwnStep(2, s, MarkHttp(1));
  }

  /** Thread 1 suspends relaying, and the signal is sent. */
  lemma RaceSuspends() returns (s: State)
    ensures Reachable(2, s)
    ensures s == Init(2).(counts := Counts(1, 0), httpCmd := true, pending := true, heldHttp := 1,
                          main := Main(true, Waits, true),
                          threads := [Thread(Outside, true, false, 0), Thread(Outside, false, false, 1)])
  {
    s := RaceCalls();
    s := OwnStep(2, s, MarkMqtt(1));
    s := OwnStep(2, s, Notify(1));
  }

  /** Thread 1 resumes relaying again before the posting task reads the counter. */
  lemma RaceBegins() returns (s: State)
    ensures Reachable(2, s)
    ensures |s.threads| == 2 && s.threads[0] == Thread(Outside, true, false, 0) && s.handler == Read && s.relaying
            && s.counts == Counts(0, 0)
  {
    s := RaceSuspends();
    s := StepReachable(2, s, Call(1, ResumeHttp, false));
    s := OwnStep(2, s, TakeSignal);
    s := OwnStep(2, s, ReadCount);
  }

  lemma ThreeSteps(n: nat, s: State, a: Event, b: Event, c: Event)
    requires Reachable(n, s) && TakesBackOwn(s, a) && !b.Call? && !c.Call?
    ensures Reachable(n, Apply(Apply(Apply(s, a), b), c))
  {
    var s1 := StepReachable(n, s, a);
    var s2 := OwnStep(n, s1, b);
    var s3 := OwnStep(n, s2, c);
  }

  /** Thread 0 suspends it, and sets the bit before the posting task clears it. */
  lemma RaceGoesOn(s: State) returns (s': State)
    requires Reachable(2, s)
    requires 0 < |s.threads| && s.threads[0].pc.Outside? && s.handler == Read && s.relaying && s.counts.http == 0
    ensures Reachable(2, s') && Outraced(s', 0)
  {
    RaceIsLost(s, 0);
    ThreeSteps(2, s, Call(0, SuspendHttp, true), MarkHttp(0), ClearHttpCmd);
    s' := Apply(Apply(Apply(s, Call(0, SuspendHttp, true)), MarkHttp(0)), ClearHttpCmd);
  }

  lemma RaceEnds(s: State) returns (s': State)
    requires Reachable(2, s) && Outraced(s, 0)
    ensures Reachable(2, s')
    ensures 0 < |s'.threads| && s'.threads[0].pc == Outside && s'.counts.http == 1 && s'.relaying && s'.handler == Waits
  {
    OutracedReturns(s, 0);
    ThreeSteps(2, s, MarkMqtt(0), Notify(0), StopWaitingHttp(0, false));
    s' := Apply(Apply(Apply(s, MarkMqtt(0)), Notify(0)), StopWaitingHttp(0, false));
  }

  lemma RaceRequests(s: State) returns (s': State)
    requires Reachable(2, s) && s.relaying && s.handler == Waits
    ensures Reachable(2, s') && s' == s.(requesting := true)
  {
    s' := OwnStep(2, s, StartRequest);
  }

  /** The race happens: in a run in which both threads take back only what they hold, thread 0
      has waited for its suspension to be handled, and then the posting task starts a request. */
  lemma RaceHappens() returns (s: State)
    ensures Reachable(2, s) && 0 < |s.threads| && s.threads[0].pc == Outside && s.counts.http == 1 && s.requesting
  {
    s := RaceBegins();
    s := RaceGoesOn(s);
    s := RaceEnds(s);
    s := RaceRequests(s);
  }

  lemma {:induction false} OwnMatchedBefore(n: nat, events: seq<Event>, more: seq<Event>)
    requires OwnMatched(n, events + more)
    ensures OwnMatched(n, events)
  {
    if more == [] {
      assert events + more == events;
    } else {
      assert (events + more)[..|events + more| - 1] == events + more[..|more| - 1];
      OwnMatchedBefore(n, events, more[..|more| - 1]);
    }
  }

  lemma OwnMatchedSnoc(n: nat, events: seq<Event>, e: Event)
    requires OwnMatched(n, events) && TakesBackOwn(Run(n, events), e)
    ensures OwnMatched(n, events + [e])
  {
    assert (events + [e])[..|events|] == events;
  }

  predicate CallOf(e: Event, t: nat) {
    e.Call? && e.t == t
  }

  /** The thread neither suspends nor resumes. */
  ghost predicate Silent(t: nat, events: seq<Event>) {
    forall e :: e in events ==> !CallOf(e, t)
  }

  lemma ThreadKeepsSeen(s: State, e: Event, u: nat, t: nat)
    requires t < |s.threads| && u < |s.threads| && s.threads[t].seen && (e.Call? ==> u != t)
    ensures var s' := ThreadStep(s, e, u);
            |s'.threads| == |s.threads| && s'.threads[t].held == s.threads[t].held && s'.threads[t].seen
  {
  }

  lemma ApplyKeepsSeen(s: State, e: Event, t: nat)
    requires t < |s.threads| && s.threads[t].seen && !CallOf(e, t)
    ensures var s' := Apply(s, e);
            t < |s'.threads| && s'.threads[t].held == s.threads[t].held && s'.threads[t].seen
  {
    if OfThread(e) && e.t < |s.threads| {
      ThreadKeepsSeen(s, e, e.t, t);
    }
  }

  lemma {:induction false} KeepsTheClient(n: nat, events: seq<Event>, more: seq<Event>, t: nat)
    requires OwnMatched(n, events + more) && Silent(t, more)
    requires t < |Run(n, events).threads| && Run(n, events).threads[t].held > 0 && Run(n, events).threads[t].seen
    ensures var s := Run(n, events + more);
            t < |s.threads| && s.threads[t].held == Run(n, events).threads[t].held && s.threads[t].seen
  {
    if more == [] {
      assert events + more == events;
    } else {
      var rest, e := more[..|more| - 1], more[|more| - 1];
      assert e in more && !CallOf(e, t);
      assert events + more == (events + rest) + [e];
      OwnMatchedBefore(n, events + rest, [e]);
      KeepsTheClient(n, events, rest, t);
      RunSnoc(n, events + rest, e);
      ApplyKeepsSeen(Run(n, events + rest), e, t);
    }
  }

  /** MAIN RESULT. When every thread takes back only its own suspensions: a caller that has
      suspended HTTP relaying, has waited until this was handled and did not race with the
      handler has the HTTP client to itself, and keeps it until it calls again, whatever
      happens in between: the posting task has seen the suspension and has neither a request
      in progress nor starts one. */
  lemma SuspenderHasTheClient(n: nat, events: seq<Event>, more: seq<Event>, t: nat)
    requires OwnMatched(n, events + more) && Silent(t, more)
    requires t < |Run(n, events).threads| && Run(n, events).threads[t].held > 0
    ensures var s := Run(n, events); var th := s.threads[t]; var later := Run(n, events + more);
            && (th.pc.WaitsHttp? && !s.httpCmd ==> th.seen || th.raced)
            && (th.seen ==> t < |later.threads| && later.threads[t].held == th.held && later.threads[t].seen
                            && !later.relaying && !later.requesting)
  {
    RunBitStays(n, events);
    if Run(n, events).threads[t].seen {
      KeepsTheClient(n, events, more, t);
      RunQuiet(n, events + more);
    }
  }

  // ---------------------------------------------------------------- waits that end early

  /** A caller finds its command handled, and the posting task has not read the counter since. */
  predicate Misled(s: State, t: nat) {
    t < |s.threads| && s.threads[t].pc.WaitsHttp? && !s.httpCmd && !s.threads[t].seen
  }

  ghost predicate CanBeMisled(n: nat, events: seq<Event>, t: nat) {
    exists more :: Silent(t, more) && Misled(Run(n, events + more), t)
  }

  /** The thread has been seen, or has set the command bit in good time. */
  predicate Unraced(s: State, t: nat) {
    t < |s.threads| && (s.threads[t].seen || (!s.threads[t].raced && !s.threads[t].pc.Counted?))
  }

  lemma ThreadKeepsUnraced(s: State, e: Event, u: nat, t: nat)
    requires Unraced(s, t) && u < |s.threads| && (e.Call? ==> u != t)
    ensures Unraced(ThreadStep(s, e, u), t)
  {
  }

  lemma ApplyKeepsUnraced(s: State, e: Event, t: nat)
    requires Unraced(s, t) && !CallOf(e, t)
    ensures Unraced(Apply(s, e), t)
  {
    if OfThread(e) && e.t < |s.threads| {
      ThreadKeepsUnraced(s, e, e.t, t);
    }
  }

  lemma {:induction false} StaysUnraced(n: nat, events: seq<Event>, more: seq<Event>, t: nat)
    requires Silent(t, more) && Unraced(Run(n, events), t)
    ensures Unraced(Run(n, events + more), t)
  {
    if more == [] {
      assert events + more == events;
    } else {
      var rest, e := more[..|more| - 1], more[|more| - 1];
      assert e in more && !CallOf(e, t);
      assert events + more == (events + rest) + [e];
      StaysUnraced(n, events, rest, t);
      RunSnoc(n, events + rest, e);
      ApplyKeepsUnraced(Run(n, events + rest), e, t);
    }
  }

  /** The states that a run can go on to without a call of the thread. */
  ghost predicate Follows(n: nat, events: seq<Event>, t: nat, s: State) {
    exists more :: Silent(t, more) && Run(n, events + more) == s
  }

  lemma FollowsItself(n: nat, events: seq<Event>, t: nat)
    ensures Follows(n, events, t, Run(n, events))
  {
    assert events + [] == events;
    assert Silent(t, []);
  }

  lemma FollowsNext(n: nat, events: seq<Event>, t: nat, s: State, e: Event)
    requires Follows(n, events, t, s) && !CallOf(e, t)
    ensures Follows(n, events, t, Apply(s, e))
  {
    var more :| Silent(t, more) && Run(n, events + more) == s;
    RunSnoc(n, events + more, e);
    assert (events + more) + [e] == events + (more + [e]);
    assert Silent(t, more + [e]);
  }

  /** A caller that has set the bit, whereupon it is cleared for an older reading. */
  predicate LosesBit(s: State, t: nat) {
    t < |s.threads| && s.threads[t].pc.HttpMarked? && s.threads[t].pc.http && s.threads[t].pc.wait
    && !s.threads[t].seen && s.handler == Read
  }

  lemma LosingBitMisleads(s: State, t: nat)
    requires LosesBit(s, t)
    ensures var s' := Apply(Apply(Apply(Apply(s, ClearHttpCmd), MarkMqtt(t)), Notify(t)), StopWaitingMqtt(t, true));
            Misled(s', t)
  {
    var s1 := Apply(Apply(s, ClearHttpCmd), MarkMqtt(t));
    assert s1.threads[t].pc == AllMarked(true, s.threads[t].pc.mqtt, true) && !s1.httpCmd && !s1.threads[t].seen;
  }

  lemma LosesBitCanBeMisled(n: nat, events: seq<Event>, t: nat)
    requires LosesBit(Run(n, events), t)
    ensures CanBeMisled(n, events, t)
  {
    var s := Run(n, events);
    FollowsItself(n, events, t);
    FollowsNext(n, events, t, s, ClearHttpCmd);
    var s1 := Apply(s, ClearHttpCmd);
    FollowsNext(n, events, t, s1, MarkMqtt(t));
    var s2 := Apply(s1, MarkMqtt(t));
    FollowsNext(n, events, t, s2, Notify(t));
    FollowsNext(n, events, t, Apply(s2, Notify(t)), StopWaitingMqtt(t, true));
    LosingBitMisleads(s, t);
    MisledFollows(n, events, t, Apply(Apply(s2, Notify(t)), StopWaitingMqtt(t, true)));
  }

  lemma MisledFollows(n: nat, events: seq<Event>, t: nat, s: State)
    requires Follows(n, events, t, s) && Misled(s, t)
    ensures CanBeMisled(n, events, t)
  {
  }

  /** MAIN RESULT. When a caller that waits sets the command bit, it can be told that its command
      was handled before the posting task has seen it exactly when the handler is, at that
      moment, between a reading of the counter that came before the caller's change and the
      clearing of the bit. */
  lemma MisledIff(n: nat, events: seq<Event>, t: nat)
    requires var s := Run(n, events);
             t < |s.threads| && s.threads[t].pc.Counted? && s.threads[t].pc.http && s.threads[t].pc.wait
    ensures var s := Run(n, events);
            CanBeMisled(n, events + [MarkHttp(t)], t) <==> s.handler == Read && !s.threads[t].seen
  {
    var s, marked := Run(n, events), events + [MarkHttp(t)];
    RunSnoc(n, events, MarkHttp(t));
    if s.handler == Read && !s.threads[t].seen {
      LosesBitCanBeMisled(n, marked, t);
    } else if CanBeMisled(n, marked, t) {
      var more :| Silent(t, more) && Misled(Run(n, marked + more), t);
      StaysUnraced(n, marked, more, t);
      RunBitStays(n, marked + more);
    }
  }

  // ---------------------------------------------------------------- what a caller waits for

  /** The thread gives up waiting. */
  predicate GivesUp(e: Event, t: nat) {
    (e.StopWaitingMqtt? || e.StopWaitingHttp?) && e.t == t && e.timeout
  }

  ghost predicate Patient(t: nat, events: seq<Event>) {
    forall e :: e in events ==> !CallOf(e, t) && !GivesUp(e, t)
  }

  /** The thread waits for a bit, and finds it cleared. */
  predicate FindsMqttHandled(s: State, t: nat) {
    t < |s.threads| && s.threads[t].pc.WaitsMqtt? && !s.mqttCmd
  }

  predicate FindsHttpHandled(s: State, t: nat) {
    t < |s.threads| && s.threads[t].pc.WaitsHttp? && !s.httpCmd
  }

  ghost predicate MqttWasHandled(n: nat, events: seq<Event>, more: seq<Event>, t: nat) {
    exists i :: 0 <= i <= |more| && FindsMqttHandled(Run(n, events + more[..i]), t)
  }

  ghost predicate HttpWasHandled(n: nat, events: seq<Event>, more: seq<Event>, t: nat) {
    exists i :: 0 <= i <= |more| && FindsHttpHandled(Run(n, events + more[..i]), t)
  }

  /** How a thread goes on within a call. */
  predicate GoesOn(s: State, t: nat, pc': Pc)
    requires t < |s.threads|
  {
    var pc := s.threads[t].pc;
    || pc' == pc
    || (pc.Counted? && pc' == HttpMarked(pc.http, pc.mqtt, pc.wait))
    || (pc.HttpMarked? && pc' == AllMarked(pc.http, pc.mqtt, pc.wait))
    || (pc.AllMarked? && pc' == if !pc.wait then Outside else if pc.mqtt then WaitsMqtt(pc.http) else WaitsHttp)
    || (FindsMqttHandled(s, t) && pc' == if pc.http then WaitsHttp else Outside)
    || (FindsHttpHandled(s, t) && pc' == Outside)
  }

  lemma OwnPc(s: State, e: Event, t: nat)
    requires t < |s.threads| && !e.Call? && !GivesUp(e, t) && (OfThread(e) ==> e.t == t)
    ensures |ThreadStep(s, e, t).threads| == |s.threads| && GoesOn(s, t, ThreadStep(s, e, t).threads[t].pc)
  {
    match e
    case MarkHttp(_) =>
    case MarkMqtt(_) =>
    case Notify(_) =>
    case StopWaitingMqtt(_, _) =>
    case StopWaitingHttp(_, _) =>
    case _ =>
  }

  lemma OthersPc(s: State, e: Event, u: nat, t: nat)
    requires t < |s.threads| && u < |s.threads| && u != t
    ensures |ThreadStep(s, e, u).threads| == |s.threads| && ThreadStep(s, e, u).threads[t] == s.threads[t]
  {
  }

  lemma PcStep(s: State, e: Event, t: nat)
    requires t < |s.threads| && !CallOf(e, t) && !GivesUp(e, t)
    ensures t < |Apply(s, e).threads| && GoesOn(s, t, Apply(s, e).threads[t].pc)
  {
    if OfThread(e) && e.t < |s.threads| {
      if e.t == t {
        OwnPc(s, e, t);
      } else {
        OthersPc(s, e, e.t, t);
      }
    }
  }

  /** What lies behind a thread that has begun to wait with something to notify. */
  ghost predicate HasWaited(n: nat, events: seq<Event>, more: seq<Event>, t: nat, http: bool, mqtt: bool) {
    var s := Run(n, events + more);
    t < |s.threads| &&
    match s.threads[t].pc
    case Counted(h, m, w) => h == http && m == mqtt && w
    case HttpMarked(h, m, w) => h == http && m == mqtt && w
    case AllMarked(h, m, w) => h == http && m == mqtt && w
    case WaitsMqtt(h) => h == http && mqtt
    case WaitsHttp => http && (mqtt ==> MqttWasHandled(n, events, more, t))
    case Outside => (mqtt ==> MqttWasHandled(n, events, more, t)) && (http ==> HttpWasHandled(n, events, more, t))
  }

  lemma HandledBefore(n: nat, events: seq<Event>, more: seq<Event>, e: Event, t: nat)
    ensures MqttWasHandled(n, events, more, t) || FindsMqttHandled(Run(n, events + more), t) ==>
              MqttWasHandled(n, events, more + [e], t)
    ensures HttpWasHandled(n, events, more, t) || FindsHttpHandled(Run(n, events + more), t) ==>
              HttpWasHandled(n, events, more + [e], t)
  {
    assert more[..|more|] == more && (more + [e])[..|more|] == more;
    assert forall i :: 0 <= i <= |more| ==> (more + [e])[..i] == more[..i];
  }

  lemma WaitStep(n: nat, events: seq<Event>, more: seq<Event>, e: Event, t: nat, http: bool, mqtt: bool)
    requires HasWaited(n, events, more, t, http, mqtt) && (http || mqtt) && !CallOf(e, t) && !GivesUp(e, t)
    ensures HasWaited(n, events, more + [e], t, http, mqtt)
  {
    var s := Run(n, events + more);
    assert events + (more + [e]) == (events + more) + [e];
    RunSnoc(n, events + more, e);
    PcStep(s, e, t);
    HandledBefore(n, events, more, e, t);
  }

  lemma {:induction false} WaitsThrough(
    n: nat, events: seq<Event>, more: seq<Event>, t: nat, http: bool, mqtt: bool)
    requires t < |Run(n, events).threads| && Run(n, events).threads[t].pc == Counted(http, mqtt, true)
    requires (http || mqtt) && Patient(t, more)
    ensures HasWaited(n, events, more, t, http, mqtt)
  {
    if more == [] {
      assert events + more == events;
    } else {
      var rest, e := more[..|more| - 1], more[|more| - 1];
      assert e in more && more == rest + [e];
      WaitsThrough(n, events, rest, t, http, mqtt);
      WaitStep(n, events, rest, e, t, http, mqtt);
    }
  }

  /** MAIN RESULT. A caller that waits and does not give up returns only after it has found what
      it notified to be handled: MQTT first, when that was suspended or resumed, and then HTTP,
      when that was. */
  lemma ReturnsWhenHandled(n: nat, events: seq<Event>, more: seq<Event>, t: nat)
    requires t < |Run(n, events).threads| && Patient(t, more)
    requires Run(n, events).threads[t].pc.Counted? && Run(n, events).threads[t].pc.wait
    ensures var pc, s := Run(n, events).threads[t].pc, Run(n, events + more);
            && t < |s.threads|
            && (s.threads[t].pc.Outside? ==>
                  (pc.mqtt ==> MqttWasHandled(n, events, more, t)) && (pc.http ==> HttpWasHandled(n, events, more, t)))
            && (s.threads[t].pc.WaitsHttp? && pc.mqtt ==> MqttWasHandled(n, events, more, t))
  {
    RunBitStays(n, events);
    var pc := Run(n, events).threads[t].pc;
    WaitsThrough(n, events, more, t, pc.http, pc.mqtt);
  }

  // ---------------------------------------------------------------- callers that have nothing to notify

  /** The posting task has a request in progress, or may start one before it reads the counter. */
  predicate Exposed(s: State) {
    s.requesting || (s.relaying && s.handler != Taken)
  }

  lemma ApplyNotExposed(s: State, e: Event, u: nat)
    requires Accounted(s) && u < |s.threads| && s.threads[u].held > 0 && !Exposed(s) && !CallOf(e, u)
    ensures var s' := Apply(s, e); u < |s'.threads| && s'.threads[u].held > 0 && !Exposed(s')
  {
    SumHeldAtLeast(s.threads, u);
  }

  lemma {:induction false} StaysNotExposed(n: nat, events: seq<Event>, more: seq<Event>, u: nat)
    requires OwnMatched(n, events + more) && Silent(u, more)
    requires u < |Run(n, events).threads| && Run(n, events).threads[u].held > 0 && !Exposed(Run(n, events))
    ensures var s := Run(n, events + more); u < |s.threads| && s.threads[u].held > 0 && !Exposed(s)
  {
    if more == [] {
      assert events + more == events;
    } else {
      var rest, e := more[..|more| - 1], more[|more| - 1];
      assert e in more && !CallOf(e, u);
      assert events + more == (events + rest) + [e];
      OwnMatchedBefore(n, events + rest, [e]);
      StaysNotExposed(n, events, rest, u);
      RunSnoc(n, events + rest, e);
      RunQuiet(n, events + rest);
      ApplyNotExposed(Run(n, events + rest), e, u);
    }
  }

  lemma StartsRequest(n: nat, events: seq<Event>)
    requires OwnMatched(n, events) && Run(n, events).relaying && Run(n, events).handler == Waits
    ensures OwnMatched(n, events + [StartRequest]) && Run(n, events + [StartRequest]).requesting
  {
    RunSnoc(n, events, StartRequest);
    OwnMatchedSnoc(n, events, StartRequest);
  }

  lemma EndsHandling(n: nat, events: seq<Event>)
    requires OwnMatched(n, events) && Run(n, events).handler == Read
    ensures OwnMatched(n, events + [ClearHttpCmd])
    ensures Run(n, events + [ClearHttpCmd]) == Run(n, events).(httpCmd := false, handler := Waits)
  {
    RunSnoc(n, events, ClearHttpCmd);
    OwnMatchedSnoc(n, events, ClearHttpCmd);
  }

  /** At most two steps of the posting task lead to a request. */
  lemma ReachesRequest(n: nat, events: seq<Event>, u: nat)
    requires OwnMatched(n, events) && Exposed(Run(n, events))
    ensures CanMeetRequest(n, events, u)
  {
    if Run(n, events).requesting {
      assert events + [] == events;
      assert Silent(u, []);
    } else if Run(n, events).handler == Waits {
      StartsRequest(n, events);
      assert Silent(u, [StartRequest]);
    } else {
      EndsHandling(n, events);
      StartsRequest(n, events + [ClearHttpCmd]);
      assert (events + [ClearHttpCmd]) + [StartRequest] == events + [ClearHttpCmd, StartRequest];
      assert Silent(u, [ClearHttpCmd, StartRequest]);
    }
  }

  /** Whether the posting task can be found with a request in progress although the thread has
      suspended HTTP relaying, and has not called again. */
  ghost predicate CanMeetRequest(n: nat, events: seq<Event>, u: nat) {
    exists more :: OwnMatched(n, events + more) && Silent(u, more) && Run(n, events + more).requesting
  }

  lemma MeetsRequestIff(n: nat, events: seq<Event>, u: nat)
    requires OwnMatched(n, events) && u < |Run(n, events).threads| && Run(n, events).threads[u].held > 0
    ensures CanMeetRequest(n, events, u) <==> Exposed(Run(n, events))
  {
    if Exposed(Run(n, events)) {
      ReachesRequest(n, events, u);
    } else if CanMeetRequest(n, events, u) {
      var more :| OwnMatched(n, events + more) && Silent(u, more) && Run(n, events + more).requesting;
      StaysNotExposed(n, events, more, u);
    }
  }

  /** MAIN RESULT. A caller that suspends HTTP relaying while another one has it suspended has
      nothing to notify, and so returns at once, whether it wants to wait or not. That it can
      meet a request of the posting task afterwards is possible exactly when the posting task
      has one in progress or has yet to look at the counter; when no notification is on its
      way, it has the HTTP client to itself. */
  lemma SecondSuspenderDoesNotWait(n: nat, events: seq<Event>, u: nat, wait: bool)
    requires OwnMatched(n, events) && u < |Run(n, events).threads|
    requires Run(n, events).threads[u].pc.Outside? && Run(n, events).counts.http > 0
    ensures var s := Run(n, events);
            var s' := Run(n, events + [Call(u, SuspendHttp, wait)]);
            && s'.threads[u].pc.Outside? && s'.threads[u].held > 0
            && (CanMeetRequest(n, events + [Call(u, SuspendHttp, wait)], u) <==> Exposed(s))
            && (!OnItsWay(s) ==> !Exposed(s))
  {
    var s, c := Run(n, events), Call(u, SuspendHttp, wait);
    RunQuiet(n, events);
    FlagFollowsCounter(n, events);
    RunSnoc(n, events, c);
    OwnMatchedSnoc(n, events, c);
    assert s.threads[u].held >= 0;
    MeetsRequestIff(n, events + [c], u);
  }

  /** It happens: thread 1 has suspended relaying, has not waited, and meets the request that
      was in progress before. */
  lemma SecondSuspenderMeetsRequest()
    ensures var events := [StartRequest, Call(0, SuspendHttp, true), Call(1, SuspendHttp, true)];
            var s := Run(2, events);
            && OwnMatched(2, events)
            && |s.threads| == 2 && s.threads[1].pc == Outside && s.threads[1].held == 1 && s.requesting
  {
    var e := [StartRequest, Call(0, SuspendHttp, true), Call(1, SuspendHttp, true)];
    RunStep(2, e, 0);
    RunStep(2, e, 1);
    RunStep(2, e, 2);
    assert e[..3] == e;
  }
}
