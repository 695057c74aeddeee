/** What every run of the posting task keeps. */
module AsyncTheorems {
  import opened Common
  import opened AsyncComm

  ghost predicate HttpInProgress(s: State) {
    s.inProgress && s.action != PostMqtt
  }

  ghost predicate MqttInProgress(s: State) {
    s.inProgress && s.action == PostMqtt
  }

  // ---------------------------------------------------------------- semaphore and mutex

  /** The semaphore is taken and the mutex is held exactly while a request is in progress. */
  ghost predicate LocksWf(l: Locks, http: bool) {
    && (l.semaTaken <==> http) && (l.mutex == PostTask <==> http)
    && l.locked == l.unlocked + (if http then 1 else 0)
  }

  ghost predicate Locking(s: State) {
    && LocksWf(s.locks, HttpInProgress(s)) && !s.asserted
    && (s.inProgress ==> s.action != NoAction)
    && (MqttInProgress(s) ==> s.mqtt.buffer.Some?)
  }

  lemma RequestLocks(s: State, a: Action, env: Env)
    requires Locking(s) && !s.inProgress && ViaHttp(a) && s.locks.mutex == Free
    ensures Locking(Request(s, a, env))
  {
  }

  lemma StartNextLocks(s: State, env: Env)
    requires Locking(s) && !s.inProgress
    ensures Locking(StartNext(s, env))
  {
    if s.locks.mutex == Free {
      RequestLocks(s, PostAdvs1, env);
      RequestLocks(s, PostAdvs2, env);
      RequestLocks(s, PostStats, env);
    }
  }

  lemma DoAsyncLocks(s: State, env: Env)
    requires Locking(s)
    ensures Locking(DoAsyncComm(s, env))
  {
    if !s.inProgress {
      StartNextLocks(s, env);
    } else {
      var (t, over) := GoOn(s, env);
      if over {
        StartNextLocks(t.(inProgress := false), env);
      }
    }
  }

  lemma ApplyLocks(s: State, e: Event)
    requires Locking(s)
    ensures Locking(Apply(s, e))
  {
    if e.Handled? && e.sig.DoAsync? {
      DoAsyncLocks(s, e.sig.env);
    }
  }

  // ---------------------------------------------------------------- nonces

  /** The nonces of the advertisement batches, in order. */
  function Nonces(started: seq<Started>): seq<u32> {
    if started == [] then []
    else
      var last := started[|started| - 1];
      Nonces(started[..|started| - 1]) + if last.action == PostStats then [] else [last.nonce]
  }

  ghost predicate CountsUp(nonces: seq<u32>, first: u32, next: u32) {
    && (forall i :: 0 <= i < |nonces| ==> nonces[i] == (first + i) % TWO_TO_32)
    && next == (first + |nonces|) % TWO_TO_32
  }

  lemma CountsUpSnoc(nonces: seq<u32>, first: u32, next: u32)
    requires CountsUp(nonces, first, next)
    ensures CountsUp(nonces + [next], first, AddU32(next, 1))
  {
  }

  ghost predicate Consecutive(c: Counter, first: u32) {
    CountsUp(Nonces(c.started), first, c.nonce)
  }

  lemma NoncesSnoc(started: seq<Started>, a: Action, nonce: u32)
    ensures Nonces(started + [Started(a, nonce)]) == if a == PostStats then Nonces(started)
      else Nonces(started) + [nonce]
  {
    assert (started + [Started(a, nonce)])[..|started|] == started;
  }

  lemma CountStartConsecutive(c: Counter, a: Action, first: u32)
    requires Consecutive(c, first)
    ensures Consecutive(CountStart(c, a), first)
  {
    NoncesSnoc(c.started, a, c.nonce);
    CountsUpSnoc(Nonces(c.started), first, c.nonce);
  }

  lemma StartNextCounts(s: State, env: Env, first: u32)
    requires Consecutive(s.counter, first)
    ensures Consecutive(StartNext(s, env).counter, first)
  {
    CountStartConsecutive(s.counter, PostAdvs1, first);
    CountStartConsecutive(s.counter, PostAdvs2, first);
    CountStartConsecutive(s.counter, PostStats, first);
  }

  lemma DoAsyncCounts(s: State, env: Env, first: u32)
    requires Consecutive(s.counter, first)
    ensures Consecutive(DoAsyncComm(s, env).counter, first)
  {
    if !s.inProgress {
      StartNextCounts(s, env, first);
    } else {
      var (t, over) := GoOn(s, env);
      assert t.counter == s.counter;
      if over {
        StartNextCounts(t.(inProgress := false), env, first);
      }
    }
  }

  lemma OthersCountNothing(s: State, e: Event)
    requires !(e.Handled? && e.sig.DoAsync?)
    ensures Apply(s, e).counter == s.counter
  {
  }

  lemma ApplyCounts(s: State, e: Event, first: u32)
    requires Consecutive(s.counter, first)
    ensures Consecutive(Apply(s, e).counter, first)
  {
    if e.Handled? && e.sig.DoAsync? {
      DoAsyncCounts(s, e.sig.env, first);
    } else {
      OthersCountNothing(s, e);
    }
  }

  // ---------------------------------------------------------------- batches

  /** What a batch must publish: all its reports; an empty one publishes the zeroed entry. */
  ghost function Wanted(reports: seq<Adv>): seq<Adv> {
    if reports == [] then [AdvCache.ZERO_REPORT] else reports
  }

  ghost predicate BatchWf(b: Batch) {
    && b.frees <= 1 && b.published <= Wanted(b.reports)
    && (b.frees == 1 ==> !b.interrupted && (!b.failed <==> b.published == Wanted(b.reports)))
    && (b.frees == 0 ==> !b.failed && |b.published| < |Wanted(b.reports)|)
  }

  ghost predicate Over(b: Batch) {
    b.frees == 1 || b.interrupted
  }

  /** Every batch but the one under way is over; that one is the last, and the index counts
      its published entries. */
  ghost predicate BatchesWf(m: Mqtt, active: bool) {
    && (forall i :: 0 <= i < |m.batches| ==>
          BatchWf(m.batches[i]) && (Over(m.batches[i]) <==> !(active && i == |m.batches| - 1)))
    && (active ==> m.batches != [] && m.buffer == Some(LastBatch(m.batches).reports)
                   && m.idx == |LastBatch(m.batches).published|)
  }

  function Interruptions(bs: seq<Batch>): nat {
    if bs == [] then 0
    else Interruptions(bs[..|bs| - 1]) + if bs[|bs| - 1].interrupted then 1 else 0
  }

  lemma InterruptionsSnoc(bs: seq<Batch>, b: Batch)
    ensures Interruptions(bs + [b]) == Interruptions(bs) + if b.interrupted then 1 else 0
  {
    assert (bs + [b])[..|bs|] == bs;
  }

  lemma NewBatchWf(reports: seq<Adv>)
    ensures BatchWf(NewBatch(reports)) && !Over(NewBatch(reports))
  {
    assert |Wanted(reports)| > 0;
    assert NewBatch(reports).published <= Wanted(reports);
  }

  lemma BatchBegins(m: Mqtt, reports: seq<Adv>)
    requires BatchesWf(m, false)
    ensures BatchesWf(BeginBatch(m, reports), true)
    ensures Interruptions(BeginBatch(m, reports).batches) == Interruptions(m.batches)
  {
    NewBatchWf(reports);
    InterruptionsSnoc(m.batches, NewBatch(reports));
    assert LastBatch(m.batches + [NewBatch(reports)]) == NewBatch(reports);
  }

  /** The batch under way is replaced by its next state. */
  lemma BatchGoesOn(m: Mqtt, b: Batch, m': Mqtt)
    requires BatchesWf(m, true) && BatchWf(b) && b.reports == LastBatch(m.batches).reports
    requires m'.batches == WithLast(m.batches, b)
    requires !Over(b) ==> m'.buffer == Some(b.reports) && m'.idx == |b.published|
    ensures BatchesWf(m', !Over(b))
    ensures Interruptions(m'.batches) == Interruptions(m.batches) + if b.interrupted then 1 else 0
  {
    InterruptionsSnoc(m.batches[..|m.batches| - 1], b);
    assert !Over(LastBatch(m.batches));
  }

  lemma EntryExtends(b: Batch)
    requires BatchWf(b) && !Over(b)
    ensures b.published + [Entry(b.reports, |b.published|)] <= Wanted(b.reports)
  {
  }

  lemma PublishNextWf(m: Mqtt, ok: bool)
    requires BatchesWf(m, true)
    ensures var (m', over) := PublishNext(m, ok);
            BatchesWf(m', !over) && Interruptions(m'.batches) == Interruptions(m.batches)
  {
    var b := LastBatch(m.batches);
    assert BatchWf(b) && !Over(b);
    EntryExtends(b);
    var b' := b.(published := b.published + [Entry(m.buffer.value, m.idx)]);
    var m' := PublishNext(m, ok).0;
    if !ok {
      BatchGoesOn(m, b.(frees := 1, failed := true), m');
    } else if m.idx + 1 >= |m.buffer.value| {
      BatchGoesOn(m, b'.(frees := 1), m');
    } else {
      BatchGoesOn(m, b', m');
    }
  }

  lemma InterruptWf(m: Mqtt)
    requires BatchesWf(m, true)
    ensures BatchesWf(Interrupt(m), false)
    ensures Interruptions(Interrupt(m).batches) == Interruptions(m.batches) + 1
  {
    assert BatchWf(LastBatch(m.batches)) && !Over(LastBatch(m.batches));
    BatchGoesOn(m, LastBatch(m.batches).(interrupted := true), Interrupt(m));
  }

  /** The mutex was unlocked without being held once for every interrupted batch. */
  ghost predicate Publishing(s: State) {
    BatchesWf(s.mqtt, MqttInProgress(s)) && s.locks.foreignUnlocks == Interruptions(s.mqtt.batches)
  }

  lemma SendHttpPublishesNothing(s: State, a: Action, env: Env)
    requires Locking(s) && !s.inProgress && ViaHttp(a)
    ensures SendHttp(s, a, env).mqtt == s.mqtt && !MqttInProgress(SendHttp(s, a, env))
    ensures SendHttp(s, a, env).locks.foreignUnlocks == s.locks.foreignUnlocks
  {
  }

  lemma StartNextPublishes(s: State, env: Env)
    requires Publishing(s) && Locking(s) && !s.inProgress
    ensures Publishing(StartNext(s, env))
  {
    BatchBegins(s.mqtt, env.reports);
    SendHttpPublishesNothing(s, PostAdvs1, env);
    SendHttpPublishesNothing(s, PostAdvs2, env);
    SendHttpPublishesNothing(s, PostStats, env);
  }

  lemma DoAsyncPublishes(s: State, env: Env)
    requires Publishing(s) && Locking(s)
    ensures Publishing(DoAsyncComm(s, env))
  {
    if !s.inProgress {
      StartNextPublishes(s, env);
    } else {
      if s.action == PostMqtt {
        PublishNextWf(s.mqtt, env.publishOk);
      }
      var (t, over) := GoOn(s, env);
      if over {
        StartNextPublishes(t.(inProgress := false), env);
      }
    }
  }

  lemma ApplyPublishes(s: State, e: Event)
    requires Publishing(s) && Locking(s)
    ensures Publishing(Apply(s, e))
  {
    if e.Handled? {
      match e.sig
      case DoAsync(env) => DoAsyncPublishes(s, env);
      case RelayingModeChanged(enabled, foreign) =>
        if MqttInProgress(s) { InterruptWf(s.mqtt); }
      case _ =>
    }
  }

  // ---------------------------------------------------------------- all runs

  lemma {:induction false} RunInv(nonce: u32, events: seq<Event>)
    ensures Locking(Run(nonce, events)) && Publishing(Run(nonce, events))
      && Consecutive(Run(nonce, events).counter, nonce)
  {
    if events != [] {
      var b, e := Run(nonce, events[..|events| - 1]), events[|events| - 1];
      RunInv(nonce, events[..|events| - 1]);
      ApplyLocks(b, e);
      ApplyPublishes(b, e);
      ApplyCounts(b, e, nonce);
    }
  }

  /** MAIN RESULT. The semaphore of the HTTP client is available exactly when no request is
      in progress; none of the assertions about it, or about the batch buffer, ever fails. */
  lemma SemaphoreGuardsRequests(nonce: u32, events: seq<Event>)
    ensures var s := Run(nonce, events);
            && (s.locks.semaTaken <==> s.inProgress && s.action != PostMqtt)
            && !s.asserted && !Exit(s).locks.semaTaken
  {
    RunInv(nonce, events);
  }

  /** How often relaying was switched off while a batch was being published. */
  ghost function SwitchedOffInBatch(nonce: u32, events: seq<Event>): nat {
    if events == [] then 0
    else
      var before, e := events[..|events| - 1], events[|events| - 1];
      SwitchedOffInBatch(nonce, before) + if SwitchesOffBatch(Run(nonce, before), e) then 1 else 0
  }

  lemma DoAsyncForeign(s: State, env: Env)
    requires Locking(s)
    ensures DoAsyncComm(s, env).locks.foreignUnlocks == s.locks.foreignUnlocks
  {
    if s.inProgress {
      DoAsyncLocks(s, env);
      var t := GoOn(s, env).0.(inProgress := false);
      StartNextForeign(t, env);
    } else {
      StartNextForeign(s, env);
    }
  }

  lemma StartNextForeign(s: State, env: Env)
    ensures StartNext(s, env).locks.foreignUnlocks == s.locks.foreignUnlocks
  {
  }

  predicate SwitchesOffBatch(s: State, e: Event) {
    !s.flags.stop && e.Handled? && e.sig.RelayingModeChanged? && !e.sig.enabled && s.inProgress && s.action == PostMqtt
  }

  lemma ApplyForeign(s: State, e: Event)
    requires Locking(s)
    ensures Apply(s, e).locks.foreignUnlocks == s.locks.foreignUnlocks + if SwitchesOffBatch(s, e) then 1 else 0
  {
    if e.Handled? && e.sig.DoAsync? {
      DoAsyncForeign(s, e.sig.env);
    }
  }

  /** MAIN RESULT. The posting task holds the mutex exactly while a request is in progress, and has
      unlocked it once for each time it locked it before, whether the request failed to start,
      was completed or was aborted. The mutex is unlocked by the posting task without being held as
      often as relaying is switched off during a batch, and so never in the other runs. At
      the end of the posting task the mutex stays locked if a request is in progress. */
  lemma {:induction false} MutexHeldDuringRequests(nonce: u32, events: seq<Event>)
    ensures var s := Run(nonce, events);
            && (s.locks.mutex == PostTask <==> s.inProgress && s.action != PostMqtt)
            && s.locks.locked == s.locks.unlocked + (if s.inProgress && s.action != PostMqtt then 1 else 0)
            && s.locks.foreignUnlocks == SwitchedOffInBatch(nonce, events)
            && (Exit(s).locks.mutex == PostTask <==> s.inProgress && s.action != PostMqtt)
  {
    RunInv(nonce, events);
    if events != [] {
      var before, e := events[..|events| - 1], events[|events| - 1];
      MutexHeldDuringRequests(nonce, before);
      RunInv(nonce, before);
      ApplyForeign(Run(nonce, before), e);
    }
  }

  /** MAIN RESULT. The advertisement requests that were started carry consecutive nonces,
      modulo 2^32, beginning with the first one. */
  lemma NoncesAreConsecutive(nonce: u32, events: seq<Event>, i: nat)
    requires i < |Nonces(Run(nonce, events).counter.started)|
    ensures Nonces(Run(nonce, events).counter.started)[i] == (nonce + i) % TWO_TO_32
  {
    RunInv(nonce, events);
  }

  /** MAIN RESULT. A batch publishes its entries in order, each once. When it ended without
      being interrupted, its buffer was freed exactly once, after all entries or, if a
      publication failed, after some first ones; the reports are what was published exactly
      when there were any. The buffer of an interrupted batch is never freed. */
  lemma BatchOutcome(nonce: u32, events: seq<Event>, i: nat)
    requires i < |Run(nonce, events).mqtt.batches|
    ensures var s := Run(nonce, events);
            var b := s.mqtt.batches[i];
            && b.published <= Wanted(b.reports)
            && b.frees == (if b.interrupted || (MqttInProgress(s) && i == |s.mqtt.batches| - 1) then 0 else 1)
            && (b.frees == 1 && !b.failed ==> (b.published == b.reports <==> b.reports != []))
            && (b.failed ==> b.frees == 1 && |b.published| < |Wanted(b.reports)|)
  {
    RunInv(nonce, events);
    assert BatchWf(Run(nonce, events).mqtt.batches[i]);
  }

  /** Each step of a batch that does not end it leaves one entry fewer to publish. */
  lemma BatchProgress(s: State, env: Env)
    requires Publishing(s) && Locking(s) && MqttInProgress(s)
    ensures var t := DoAsyncComm(s, env);
            || |t.mqtt.batches| > |s.mqtt.batches| || Over(LastBatch(t.mqtt.batches))
            || (t.mqtt.buffer == s.mqtt.buffer && t.mqtt.idx == s.mqtt.idx + 1 < |s.mqtt.buffer.value|
                && LastBatch(t.mqtt.batches).published
                   == LastBatch(s.mqtt.batches).published + [s.mqtt.buffer.value[s.mqtt.idx]])
  {
    var b := LastBatch(s.mqtt.batches);
    assert BatchWf(b) && !Over(b);
    PublishNextWf(s.mqtt, env.publishOk);
    var (t, over) := GoOn(s, env);
    if over {
      assert Over(LastBatch(t.mqtt.batches));
      StartNextBatches(t.(inProgress := false), env);
    }
  }

  lemma StartNextBatches(s: State, env: Env)
    ensures |StartNext(s, env).mqtt.batches| > |s.mqtt.batches| || StartNext(s, env).mqtt.batches == s.mqtt.batches
  {
  }

  function Favourable(reports: seq<Adv>): Env {
    Env(true, true, true, true, true, true, true, reports, true, true, false)
  }

  /** Nothing but MQTT is asked for, and the network is there. */
  predicate MqttIsDue(s: State) {
    && !s.flags.stop && s.flags.relaying && s.flags.network && !s.inProgress
    && s.needs == Needs(false, false, false, true) && s.mqtt == Mqtt(None, 0, [])
  }

  predicate EmptyBatchRuns(s: State) {
    && !s.flags.stop && s.inProgress && s.action == PostMqtt
    && s.needs == Needs(false, false, false, false) && s.mqtt == Mqtt(Some([]), 0, [NewBatch([])])
  }

  lemma EmptyBatchBegins(s: State)
    requires MqttIsDue(s)
    ensures EmptyBatchRuns(Apply(s, Handled(DoAsync(Favourable([])))))
  {
    assert [] + [NewBatch([])] == [NewBatch([])];
  }

  lemma EmptyBatchEnds(s: State)
    requires EmptyBatchRuns(s)
    ensures Apply(s, Handled(DoAsync(Favourable([])))).mqtt.batches
      == [Batch([], [AdvCache.ZERO_REPORT], 1, false, false)]
  {
    PublishEmpty();
  }

  lemma MqttBecomesDue(nonce: u32)
    ensures MqttIsDue(Run(nonce, [Handled(NetworkConnected), Handled(RetransmitMqtt(true))]))
  {
    var up, need := Handled(NetworkConnected), Handled(RetransmitMqtt(true));
    assert [] + [up] == [up] && [up] + [need] == [up, need];
    RunSnoc(nonce, [], up);
    RunSnoc(nonce, [up], need);
  }

  /** A periodic batch without reports publishes the zeroed first entry of its buffer. */
  lemma EmptyBatchPublishesZero(nonce: u32)
    ensures var e := [Handled(NetworkConnected), Handled(RetransmitMqtt(true)),
                      Handled(DoAsync(Favourable([]))), Handled(DoAsync(Favourable([])))];
            var s := Run(nonce, e);
            s.mqtt.batches == [Batch([], [AdvCache.ZERO_REPORT], 1, false, false)]
  {
    var due, go := [Handled(NetworkConnected), Handled(RetransmitMqtt(true))], Handled(DoAsync(Favourable([])));
    MqttBecomesDue(nonce);
    EmptyBatchBegins(Run(nonce, due));
    RunSnoc(nonce, due, go);
    EmptyBatchEnds(Run(nonce, due + [go]));
    RunSnoc(nonce, due + [go], go);
    assert (due + [go]) + [go] == [Handled(NetworkConnected), Handled(RetransmitMqtt(true)), go, go];
  }

  lemma PublishEmpty()
    ensures PublishNext(Mqtt(Some([]), 0, [NewBatch([])]), true)
      == (Mqtt(None, 0, [Batch([], [AdvCache.ZERO_REPORT], 1, false, false)]), true)
  {
    var done := Batch([], [AdvCache.ZERO_REPORT], 1, false, false);
    assert [NewBatch([])][..0] + [done] == [done];
    assert NewBatch([]).published + [AdvCache.ZERO_REPORT] == [AdvCache.ZERO_REPORT];
  }

  lemma RunSnoc(nonce: u32, events: seq<Event>, e: Event)
    ensures Run(nonce, events + [e]) == Apply(Run(nonce, events), e)
  {
    assert (events + [e])[..|events|] == events;
  }

  // ---------------------------------------------------------------- what is started

  /** The request whose turn it is. */
  function Turn(n: Needs): Action {
    if n.advs1 then PostAdvs1 else if n.advs2 then PostAdvs2 else if n.stats then PostStats
    else if n.mqtt then PostMqtt else NoAction
  }

  /** What the world must provide for a request to start. */
  predicate Provided(s: State, a: Action, env: Env) {
    && s.flags.network && (s.flags.useTimestamps ==> env.timeSynced)
    && match a
       case PostMqtt => env.useMqtt && env.mqttConnected && env.allocOk
       case PostStats => env.useStats && s.locks.mutex == Free && env.cfgCopyOk && env.sendOk
       case _ => s.locks.mutex == Free && env.allocOk && env.cfgCopyOk && env.sendOk
  }

  /** A request is started exactly when relaying is enabled, it is its turn and
      everything it takes is there; then it is no longer asked for. Only one request starts
      in a step, and one that is not started keeps its turn unless it is switched off or, for
      MQTT, not connected. */
  lemma StartedIff(s: State, env: Env)
    requires Locking(s) && !s.inProgress
    ensures var t, a := StartNext(s, env), Turn(s.needs);
            && (t.inProgress <==> s.flags.relaying && a != NoAction && Provided(s, a, env))
            && (t.inProgress ==> t.action == a && t.needs == NeedNot(s.needs, a))
            && (t.needs != s.needs && !t.inProgress ==>
                  t.needs == NeedNot(s.needs, a)
                  && ((a == PostStats && !env.useStats)
                      || (a == PostMqtt && !(env.useMqtt && s.flags.network && env.mqttConnected))))
  {
  }
}
