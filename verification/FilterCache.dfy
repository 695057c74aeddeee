/** The scan filter that the receiver of advertisements shares with the posting task: the
    receiver holds its lock until the report is in the table, and the posting task clears the table
    after it has changed the filter. */
module FilterCache {
  import opened Common
  import opened AdvCache
  import opened AdvRuns
  import opened AdvQueues

  const ADV_DATA_MAX_LEN: nat := 48

  /** The command of a message from the radio chip. */
  datatype Command = AdvReport | AdvReport2 | OtherCommand

  /** A filter without sensors lets everything pass. */
  datatype Filter = Filter(allowListed: bool, macs: seq<Mac>)

  predicate Passes(f: Filter, mac: Mac) {
    f.macs == [] || (f.allowListed <==> mac in f.macs)
  }

  // ---------------------------------------------------------------- receiving

  datatype Message = Message(cmd: Command, mac: Mac, radio: Radio, data: seq<bv8>)

  /** Only reports with data that fits are parsed; they start without counted samples. */
  function Parse(msg: Option<Message>, timestamp: u32): (r: Option<Report>)
    ensures r.Some? <==>
              msg.Some? && (msg.value.cmd == AdvReport || msg.value.cmd == AdvReport2) && 1 <= |msg.value.data| <= 48
    ensures r.Some? ==>
              && r.value.mac == msg.value.mac && r.value.data == msg.value.data && r.value.radio == msg.value.radio
              && r.value.timestamp == timestamp && r.value.counter == 0
  {
    if msg.None? || (msg.value.cmd != AdvReport && msg.value.cmd != AdvReport2) then None
    else if |msg.value.data| > ADV_DATA_MAX_LEN || |msg.value.data| == 0 then None
    else Some(Report(timestamp, 0, msg.value.mac, msg.value.radio, msg.value.data))
  }

  /** What the receiver finds when it has locked the filter: whether time is used and known, the
      time, and the count of received advertisements. */
  datatype Clock = Clock(useNtp: bool, synced: bool, now: u32, count: u32)

  /** Reports bear the time, or their count when no time is used. */
  function Stamp(c: Clock): u32 {
    if c.useNtp then if c.synced then c.now else 0 else c.count
  }

  /** The receiver between the steps of one message: without the lock, with it, and after
      the message has passed the filter. */
  datatype Receiver =
    | Away
    | Locked(msg: Option<Message>, clock: Clock)
    | Passed(report: Report, clock: Clock)
    | Finished

  /** A handler of the posting task that changes the configuration: waiting for the lock, inside it,
      and after it, before the table is cleared. */
  datatype Handler = Outside | Wants(f: Filter) | Inside(f: Filter) | Changing(f: Filter) | Changed | Leaving

  datatype Owner = Nobody | ReceiverOwns | TaskOwns

  datatype State = State(filter: Filter, owner: Owner, receiver: Receiver, handler: Handler, table: Cache)

  function Init(): State {
    State(Filter(false, []), Nobody, Away, Outside, EMPTY)
  }

  datatype Event =
    | Receive(ready: bool, msg: Option<Message>, clock: Clock)
    | CheckFilter
    | PutReport
    | UnlockReceiver
    | BeginChange(f: Filter)
    | LockFilter
    | DropFilter
    | SetFilter
    | UnlockFilter
    | ClearAfterChange
    | ClearOnly
    | ReadTable(e: AdvRuns.Event)

  ghost function ReceiverStep(s: State, e: Event): State {
    match e
    case Receive(ready, msg, clock) =>
      if s.receiver.Away? && ready && s.owner == Nobody
      then s.(owner := ReceiverOwns, receiver := Locked(msg, clock)) else s
    case CheckFilter =>
      if !s.receiver.Locked? then s
      else
        var report := Parse(s.receiver.msg, Stamp(s.receiver.clock));
        if report.Some? && Passes(s.filter, report.value.mac)
        then s.(receiver := Passed(report.value, s.receiver.clock)) else s.(receiver := Finished)
    case PutReport =>
      if !s.receiver.Passed? then s
      else if s.receiver.clock.useNtp && !s.receiver.clock.synced then s.(receiver := Finished)
      else s.(receiver := Finished, table := AdvRuns.Apply(s.table, PutAdv(s.receiver.report)))
    case UnlockReceiver => if s.receiver.Finished? then s.(owner := Nobody, receiver := Away) else s
    case _ => s
  }

  ghost function TaskStep(s: State, e: Event): State {
    match e
    case BeginChange(f) => if s.handler.Outside? then s.(handler := Wants(f)) else s
    case LockFilter =>
      if s.handler.Wants? && s.owner == Nobody then s.(owner := TaskOwns, handler := Inside(s.handler.f)) else s
    case DropFilter =>
      if s.handler.Inside? then s.(filter := s.filter.(macs := []), handler := Changing(s.handler.f)) else s
    case SetFilter => if s.handler.Changing? then s.(filter := s.handler.f, handler := Changed) else s
    case UnlockFilter => if s.handler.Changed? then s.(owner := Nobody, handler := Leaving) else s
    case ClearAfterChange =>
      if s.handler.Leaving? then s.(handler := Outside, table := AdvRuns.Apply(s.table, ClearTable)) else s
    case ClearOnly => if s.handler.Outside? then s.(table := AdvRuns.Apply(s.table, ClearTable)) else s
    case _ => s
  }

  ghost function Step(s: State, e: Event): State {
    match e
    case ReadTable(read) => if read.PutAdv? then s else s.(table := AdvRuns.Apply(s.table, read))
    case _ => TaskStep(ReceiverStep(s, e), e)
  }

  ghost function RunOf(events: seq<Event>): State {
    if events == [] then Init() else Step(RunOf(events[..|events| - 1]), events[|events| - 1])
  }

  // ---------------------------------------------------------------- the table and the filter

  ghost predicate UsedPass(c: Cache, f: Filter) {
    forall i :: 0 <= i < |c.lru| && IsUsed(c.lru[i]) ==> Passes(f, c.lru[i].mac)
  }

  ghost predicate QueuePasses(q: seq<Mac>, f: Filter) {
    forall m :: m in q ==> Passes(f, m)
  }

  ghost predicate AllPass(c: Cache, f: Filter) {
    UsedPass(c, f) && forall k: Queue :: QueuePasses(c.Q(k), f)
  }

  /** A used report after a step was put now, or had the same sensor and was used before. */
  lemma UsedAfterPut(c: Cache, adv: Report, f: Filter)
    requires UsedPass(c, f) && Passes(f, adv.mac)
    ensures UsedPass(Put(c, adv), f)
  {
    var rs := Put(c, adv).lru;
    forall i | 0 <= i < |rs| && IsUsed(rs[i]) ensures Passes(f, rs[i].mac) {
      if rs[i].mac != adv.mac {
        assert rs[i] in c.lru;
      }
    }
  }

  lemma QueuesAfterPut(c: Cache, adv: Report, f: Filter, k: Queue)
    requires Wf(c) && QueuePasses(c.Q(k), f) && Passes(f, adv.mac)
    ensures QueuePasses(Put(c, adv).Q(k), f)
  {
    forall m | m in Put(c, adv).Q(k) ensures Passes(f, m) {
      PutQueue(c, adv, k, m);
    }
  }

  lemma PutPasses(c: Cache, adv: Report, f: Filter)
    requires Wf(c) && AllPass(c, f) && Passes(f, adv.mac)
    ensures AllPass(Put(c, adv), f)
  {
    UsedAfterPut(c, adv, f);
    forall k: Queue ensures QueuePasses(Put(c, adv).Q(k), f) {
      QueuesAfterPut(c, adv, f, k);
    }
  }

  lemma ReadPasses(c: Cache, e: AdvRuns.Event, f: Filter)
    requires Wf(c) && AllPass(c, f) && !e.PutAdv?
    ensures AllPass(AdvRuns.Apply(c, e), f)
  {
    forall k: Queue ensures QueuePasses(AdvRuns.Apply(c, e).Q(k), f) {
      assert QueuePasses(c.Q(k), f);
    }
  }

  lemma ClearPasses(c: Cache, f: Filter)
    requires Wf(c)
    ensures AllPass(AdvRuns.Apply(c, ClearTable), f)
  {
  }

  // ---------------------------------------------------------------- every interleaving

  ghost predicate LockWf(s: State) {
    && (s.owner == ReceiverOwns <==> !s.receiver.Away?)
    && (s.owner == TaskOwns <==> s.handler.Inside? || s.handler.Changing? || s.handler.Changed?)
  }

  ghost predicate Inv(s: State) {
    && LockWf(s) && Wf(s.table)
    && (s.receiver.Passed? ==> Passes(s.filter, s.receiver.report.mac))
    && (s.handler.Outside? || s.handler.Wants? || s.handler.Inside? ==> AllPass(s.table, s.filter))
  }

  lemma ReceiverKeeps(s: State, e: Event)
    requires Inv(s)
    ensures Inv(ReceiverStep(s, e))
  {
    if e.PutReport? && s.receiver.Passed? {
      ApplyWf(s.table, PutAdv(s.receiver.report));
      if s.handler.Outside? || s.handler.Wants? {
        PutPasses(s.table, s.receiver.report, s.filter);
      }
    }
  }

  lemma TaskKeeps(s: State, e: Event)
    requires Inv(s)
    ensures Inv(TaskStep(s, e))
  {
    ApplyWf(s.table, ClearTable);
    ClearPasses(s.table, s.filter);
  }

  lemma StepKeeps(s: State, e: Event)
    requires Inv(s)
    ensures Inv(Step(s, e))
  {
    if e.ReadTable? {
      ApplyWf(s.table, e.e);
      if !e.e.PutAdv? && AllPass(s.table, s.filter) {
        ReadPasses(s.table, e.e, s.filter);
      }
    } else {
      ReceiverKeeps(s, e);
      TaskKeeps(ReceiverStep(s, e), e);
    }
  }

  lemma {:induction false} RunKeeps(events: seq<Event>)
    ensures Inv(RunOf(events))
  {
    if events != [] {
      RunKeeps(events[..|events| - 1]);
      StepKeeps(RunOf(events[..|events| - 1]), events[|events| - 1]);
    }
  }

  /** MAIN RESULT. In every interleaving of the receiver with the handlers: while the posting task is
      outside a handler that changes the configuration, and a list of sensors is in force, every
      sensor whose report the table would hand out, from its history or from a queue, is in the
      list when it is an allow list, and is not in it when it is a deny list. */
  lemma TableObeysFilter(events: seq<Event>)
    requires RunOf(events).handler.Outside?
    ensures var s := RunOf(events);
            s.filter.macs != [] ==>
              && (forall i :: 0 <= i < |s.table.lru| && s.table.lru[i].data != [] ==>
                    if s.filter.allowListed then s.table.lru[i].mac in s.filter.macs
                    else s.table.lru[i].mac !in s.filter.macs)
              && (forall k: Queue, m :: m in s.table.Q(k) ==>
                    if s.filter.allowListed then m in s.filter.macs else m !in s.filter.macs)
  {
    RunKeeps(events);
    var s := RunOf(events);
    forall i | 0 <= i < |s.table.lru| && s.table.lru[i].data != [] ensures Passes(s.filter, s.table.lru[i].mac) {
      assert IsUsed(s.table.lru[i]);
    }
    forall k: Queue, m | m in s.table.Q(k) ensures Passes(s.filter, m) {
      assert QueuePasses(s.table.Q(k), s.filter);
    }
  }

  // ---------------------------------------------------------------- what is put

  /** The receiver neither checks the filter nor puts its report. */
  ghost predicate ReceiverWaits(events: seq<Event>) {
    forall i :: 0 <= i < |events| ==> events[i] != CheckFilter && events[i] != PutReport
  }

  lemma RunOfSnoc(events: seq<Event>, e: Event)
    ensures RunOf(events + [e]) == Step(RunOf(events), e)
  {
    assert (events + [e])[..|events|] == events;
  }

  lemma {:induction false} ReceiverKept(events: seq<Event>, between: seq<Event>)
    requires ReceiverWaits(between) && (RunOf(events).receiver.Passed? || RunOf(events).receiver.Locked?)
    ensures RunOf(events + between).receiver == RunOf(events).receiver
    ensures RunOf(events + between).filter == RunOf(events).filter
  {
    if between == [] {
      assert events + between == events;
    } else {
      var b, e := between[..|between| - 1], between[|between| - 1];
      assert events + between == (events + b) + [e];
      ReceiverKept(events, b);
      RunKeeps(events + b);
      RunOfSnoc(events + b, e);
    }
  }

  lemma CheckedReport(s: State)
    requires s.receiver.Locked?
    ensures var s', msg, clock := Step(s, CheckFilter), s.receiver.msg, s.receiver.clock;
            if && msg.Some? && (msg.value.cmd == AdvReport || msg.value.cmd == AdvReport2)
               && 1 <= |msg.value.data| <= 48
               && (s.filter.macs != [] ==>
                     if s.filter.allowListed then msg.value.mac in s.filter.macs else msg.value.mac !in s.filter.macs)
            then s'.receiver == Passed(Report(Stamp(clock), 0, msg.value.mac, msg.value.radio, msg.value.data), clock)
            else s'.receiver == Finished
  {
  }

  /** MAIN RESULT. Whatever the other tasks do between its steps: the receiver puts a message into
      the table exactly when it is a report with 1 to 48 bytes of data, its sensor is in the
      allow list in force or not in the deny list in force, and time is known if it is used;
      it puts the message's sensor, radio parameters and data, the time or the count, and no
      counted sample. */
  lemma PutIff(events: seq<Event>, msg: Option<Message>, clock: Clock, waiting: seq<Event>, between: seq<Event>)
    requires RunOf(events).receiver == Locked(msg, clock) && ReceiverWaits(waiting) && ReceiverWaits(between)
    ensures var f := RunOf(events).filter;
            var table := RunOf(events + waiting + [CheckFilter] + between).table;
            Wf(table) && RunOf(events + waiting + [CheckFilter] + between + [PutReport]).table
              == if && msg.Some? && (msg.value.cmd == AdvReport || msg.value.cmd == AdvReport2)
                    && 1 <= |msg.value.data| <= 48
                    && (f.macs != [] ==> if f.allowListed then msg.value.mac in f.macs else msg.value.mac !in f.macs)
                    && (clock.useNtp ==> clock.synced)
                 then Put(table, Report(if clock.useNtp then clock.now else clock.count, 0,
                                        msg.value.mac, msg.value.radio, msg.value.data))
                 else table
  {
    var before := events + waiting;
    ReceiverKept(events, waiting);
    CheckedReport(RunOf(before));
    RunOfSnoc(before, CheckFilter);
    var checked := before + [CheckFilter];
    RunKeeps(checked + between);
    RunOfSnoc(checked + between, PutReport);
    if RunOf(checked).receiver.Passed? {
      ReceiverKept(checked, between);
    } else {
      NothingPassed(checked, between);
    }
  }

  /** Without a check nothing passes the filter. */
  lemma {:induction false} NothingPassed(events: seq<Event>, between: seq<Event>)
    requires ReceiverWaits(between) && !RunOf(events).receiver.Passed?
    ensures !RunOf(events + between).receiver.Passed?
  {
    if between == [] {
      assert events + between == events;
    } else {
      var b, e := between[..|between| - 1], between[|between| - 1];
      assert events + between == (events + b) + [e];
      NothingPassed(events, b);
      RunOfSnoc(events + b, e);
    }
  }
}
