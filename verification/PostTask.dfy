/** The posting task as the firmware runs it: flags, semaphore, mutex and batch buffer are
    updated in place by the signal handlers. */
module PostTask {
  import opened Common
  import opened AsyncComm
  import opened AsyncTheorems

  /** The asynchronous HTTP client, guarded by a binary semaphore. */
  class HttpClient {
    var semaTaken: bool

    constructor ()
      ensures !semaTaken
    {
      semaTaken := false;
    }

    method WaitImmediate() returns (ok: bool)
      modifies this
      ensures ok == !old(semaTaken) && semaTaken
    {
      ok := !semaTaken;
      semaTaken := true;
    }

    method Signal()
      modifies this
      ensures !semaTaken
    {
      semaTaken := false;
    }

    /** Posts a request; the source asserts that no other one is in progress. */
    method Post(sendOk: bool) returns (ok: bool)
      requires !semaTaken
      modifies this
      ensures ok == sendOk && semaTaken == sendOk
    {
      var available := WaitImmediate();
      assert available;
      if !sendOk {
        Signal();
        return false;
      }
      ok := true;
    }

    /** Polls the request; when it is over, its data is freed and the semaphore is signalled. */
    method Poll(done: bool) returns (over: bool)
      modifies this
      ensures over == done && semaTaken == (old(semaTaken) && !done)
    {
      if !done { return false; }
      Signal();
      over := true;
    }

    method AbortAny()
      modifies this
      ensures !semaTaken
    {
      var available := WaitImmediate();
      Signal();
    }
  }

  /** The mutex shared with the handling of incoming connections. */
  class ServerMutex {
    var holder: Holder
    ghost var locked: nat
    ghost var unlocked: nat
    ghost var foreignUnlocks: nat

    constructor ()
      ensures holder == Free && locked == unlocked == foreignUnlocks == 0
    {
      holder, locked, unlocked, foreignUnlocks := Free, 0, 0, 0;
    }

    ghost function View(semaTaken: bool): Locks
      reads this
    {
      Locks(semaTaken, holder, locked, unlocked, foreignUnlocks)
    }

    method TryLock(ghost sema: bool) returns (ok: bool)
      modifies this
      ensures ok == (old(holder) == Free)
      ensures View(sema) == if ok then Lock(old(View(sema))) else old(View(sema))
    {
      ok := holder == Free;
      if ok {
        holder, locked := PostTask, locked + 1;
      }
    }

    method Release(foreign: bool, ghost sema: bool)
      modifies this
      ensures View(sema) == Unlock(old(View(sema)), foreign)
    {
      if holder == PostTask {
        holder, unlocked := Free, unlocked + 1;
      } else {
        holder, foreignUnlocks := if foreign then Free else holder, foreignUnlocks + 1;
      }
    }
  }

  class Task {
    const http: HttpClient
    const mutex: ServerMutex
    var timeSynced: bool
    var network: bool
    var inProgress: bool
    var needAdvs1: bool
    var needAdvs2: bool
    var needStats: bool
    var needMqtt: bool
    var relaying: bool
    var useTimestamps: bool
    var stop: bool
    var nonce: u32
    var action: Action
    var reportsMqtt: Option<seq<Adv>>
    var reportsIdx: nat
    ghost var batches: seq<Batch>
    ghost var started: seq<Started>

    constructor (nonce: u32)
      ensures View() == Init(nonce) && fresh(http) && fresh(mutex)
    {
      http := new HttpClient();
      mutex := new ServerMutex();
      timeSynced, network, inProgress, relaying, useTimestamps, stop := false, false, false, true, false, false;
      needAdvs1, needAdvs2, needStats, needMqtt := false, false, false, false;
      this.nonce, action, reportsMqtt, reportsIdx := nonce, NoAction, None, 0;
      batches, started := [], [];
    }

    ghost function View(): State
      reads this, http, mutex
    {
      State(Flags(timeSynced, network, relaying, useTimestamps, stop), Needs(needAdvs1, needAdvs2, needStats, needMqtt),
            inProgress, action, mutex.View(http.semaTaken), Mqtt(reportsMqtt, reportsIdx, batches),
            Counter(nonce, started), false)
    }

    ghost predicate Valid()
      reads this, http, mutex
    {
      Locking(View()) && Publishing(View())
    }

    /** Sends advertisements, to Ruuvi or to the custom target. */
    method Retransmit(env: Env) returns (ok: bool)
      requires !http.semaTaken
      modifies http
      ensures ok == (env.allocOk && env.cfgCopyOk && env.sendOk) && http.semaTaken == ok
    {
      if !env.allocOk || !env.cfgCopyOk { return false; }
      ok := http.Post(env.sendOk);
    }

    method SendAdvs(a: Action, env: Env)
      requires a == PostAdvs1 || a == PostAdvs2
      requires Locking(View()) && !inProgress
      modifies `action, `started, `nonce, `inProgress, `needAdvs1, `needAdvs2, http, mutex
      ensures View() == SendHttp(old(View()), a, env)
    {
      if !network || (useTimestamps && !env.timeSynced) { return; }
      ghost var was := View();
      var locked := mutex.TryLock(http.semaTaken);
      if !locked { return; }
      RequestAdvs(a, env, was);
    }

    /** The request itself, under the mutex. */
    method RequestAdvs(a: Action, env: Env, ghost was: State)
      requires a == PostAdvs1 || a == PostAdvs2
      requires !http.semaTaken && View() == was.(locks := Lock(was.locks))
      modifies `action, `started, `nonce, `inProgress, `needAdvs1, `needAdvs2, http, mutex
      ensures View() == Request(was, a, env)
    {
      action := a;
      var ok := Retransmit(env);
      if !ok {
        action := NoAction;
        mutex.Release(env.foreign, http.semaTaken);
        assert View() == was.(action := NoAction, locks := Unlock(Lock(was.locks), env.foreign));
        return;
      }
      MarkSent(a);
      assert View().needs == NeedNot(was.needs, a) && View().locks == Lock(was.locks).(semaTaken := true);
    }

    /** The request is under way, and it is no longer asked for. */
    method MarkSent(a: Action)
      requires a == PostAdvs1 || a == PostAdvs2
      modifies `started, `nonce, `inProgress, `needAdvs1, `needAdvs2
      ensures inProgress && Counter(nonce, started) == CountStart(old(Counter(nonce, started)), a)
      ensures needAdvs1 == (old(needAdvs1) && a != PostAdvs1) && needAdvs2 == (old(needAdvs2) && a != PostAdvs2)
    {
      started := started + [Started(a, nonce)];
      nonce := AddU32(nonce, 1);
      inProgress := true;
      if a == PostAdvs1 {
        needAdvs1 := false;
      } else {
        needAdvs2 := false;
      }
    }

    method SendStatistics(env: Env)
      requires Locking(View()) && !inProgress
      modifies this, http, mutex
      ensures View() == SendHttp(old(View()), PostStats, env)
    {
      if !env.useStats {
        needStats := false;
        return;
      }
      if !network || (useTimestamps && !env.timeSynced) { return; }
      ghost var was := View();
      var locked := mutex.TryLock(http.semaTaken);
      if !locked { return; }
      RequestStatistics(env, was);
    }

    method RequestStatistics(env: Env, ghost was: State)
      requires !http.semaTaken && View() == was.(locks := Lock(was.locks))
      modifies `action, `started, `inProgress, `needStats, http, mutex
      ensures View() == Request(was, PostStats, env)
    {
      action := PostStats;
      var ok := false;
      if env.cfgCopyOk {
        ok := http.Post(env.sendOk);
      }
      if !ok {
        action := NoAction;
        mutex.Release(env.foreign, http.semaTaken);
        return;
      }
      started := started + [Started(PostStats, nonce)];
      needStats := false;
      inProgress := true;
    }

    method StartPeriodicMqtt(env: Env)
      modifies `action, `needMqtt, `reportsMqtt, `reportsIdx, `batches, `inProgress
      ensures View() == SendMqtt(old(View()), env)
    {
      if !env.useMqtt || !network || !env.mqttConnected {
        needMqtt := false;
        return;
      }
      if useTimestamps && !env.timeSynced { return; }
      action := PostMqtt;
      if !env.allocOk {
        action := NoAction;
        return;
      }
      MarkBatch(env.reports);
    }

    method MarkBatch(reports: seq<Adv>)
      modifies `reportsMqtt, `reportsIdx, `batches, `needMqtt, `inProgress
      ensures Mqtt(reportsMqtt, reportsIdx, batches) == BeginBatch(old(Mqtt(reportsMqtt, reportsIdx, batches)), reports)
      ensures !needMqtt && inProgress
    {
      reportsMqtt, reportsIdx := Some(reports), 0;
      batches := batches + [NewBatch(reports)];
      needMqtt := false;
      inProgress := true;
    }

    /** Publishes the next entry; the buffer is freed after the last one or a failure. */
    method PublishMqtt(env: Env) returns (over: bool)
      requires reportsMqtt.Some?
      modifies `reportsMqtt, `reportsIdx, `batches
      ensures (View(), over) == StepMqtt(old(View()), env)
    {
      ghost var b := LastBatch(batches);
      var report := Entry(reportsMqtt.value, reportsIdx);
      if !env.publishOk {
        reportsMqtt, reportsIdx := None, 0;
        batches := WithLast(batches, b.(failed := true, frees := b.frees + 1));
        return true;
      }
      ghost var b' := b.(published := b.published + [report]);
      reportsIdx := reportsIdx + 1;
      if reportsIdx >= |reportsMqtt.value| {
        reportsMqtt, reportsIdx := None, 0;
        batches := WithLast(batches, b'.(frees := b.frees + 1));
        return true;
      }
      batches := WithLast(batches, b');
      over := false;
    }

    method PollRequest(env: Env) returns (over: bool)
      requires Locking(View()) && inProgress && action != PostMqtt
      modifies this, http, mutex
      ensures (View(), over) == PollHttp(old(View()), env)
    {
      over := http.Poll(env.pollDone);
      if !over { return; }
      match action {
        case PostAdvs1 =>
          needAdvs1 := false;
          action := NoAction;
        case PostAdvs2 =>
          needAdvs2 := false;
          action := NoAction;
        case PostStats =>
          needStats := false;
          action := NoAction;
        case _ =>
          assert false;
      }
      mutex.Release(env.foreign, http.semaTaken);
    }

    method Continue(env: Env) returns (over: bool)
      requires Locking(View()) && inProgress
      modifies this, http, mutex
      ensures (View(), over) == GoOn(old(View()), env)
    {
      if action != PostMqtt {
        over := PollRequest(env);
      } else {
        over := PublishMqtt(env);
      }
    }

    method SendNext(env: Env)
      requires Locking(View()) && !inProgress
      modifies this, http, mutex
      ensures View() == StartNext(old(View()), env)
    {
      if !relaying { return; }
      if needAdvs1 {
        SendAdvs(PostAdvs1, env);
      } else if needAdvs2 {
        SendAdvs(PostAdvs2, env);
      } else if needStats {
        SendStatistics(env);
      } else if needMqtt {
        StartPeriodicMqtt(env);
      }
    }

    method DoAsync(env: Env)
      requires Locking(View())
      modifies this, http, mutex
      ensures View() == DoAsyncComm(old(View()), env)
    {
      if inProgress {
        var over := Continue(env);
        if !over { return; }
        inProgress := false;
      }
      SendNext(env);
    }

    method OnRelayingModeChanged(enabled: bool, foreign: bool)
      modifies this, http, mutex
      ensures View() == ChangeRelaying(old(View()), enabled, foreign)
    {
      relaying := enabled;
      if !relaying && inProgress {
        http.AbortAny();
        inProgress := false;
        if action == PostMqtt {
          batches := WithLast(batches, LastBatch(batches).(interrupted := true));
        }
        mutex.Release(foreign, http.semaTaken);
      }
    }

    /** One signal; the result tells the posting task to stop. */
    method HandleSignal(sig: Signal) returns (stopped: bool)
      requires Valid() && !stop
      modifies this, http, mutex
      ensures Valid() && View() == Handle(old(View()), sig) && stopped == stop
    {
      ApplyLocks(View(), Handled(sig));
      ApplyPublishes(View(), Handled(sig));
      stopped := Dispatch(sig);
    }

    method Dispatch(sig: Signal) returns (stopped: bool)
      requires Locking(View())
      modifies this, http, mutex
      ensures View() == Handle(old(View()), sig) && stopped == stop
    {
      match sig {
        case DoAsync(env) => DoAsync(env);
        case RelayingModeChanged(enabled, foreign) => OnRelayingModeChanged(enabled, foreign);
        case Retransmit(use) => OnRetransmit(PostAdvs1, use);
        case Retransmit2(use) => OnRetransmit(PostAdvs2, use);
        case RetransmitMqtt(use) => OnRetransmit(PostMqtt, use);
        case SendStatistics(use) => OnRetransmit(PostStats, use);
        case _ => OnFlags(sig);
      }
      stopped := stop;
    }

    method OnRetransmit(a: Action, use: bool)
      modifies this
      ensures View() == Remember(old(View()), a, use)
    {
      if !relaying || !use { return; }
      match a {
        case PostAdvs1 => needAdvs1 := true;
        case PostAdvs2 => needAdvs2 := true;
        case PostStats => needStats := true;
        case PostMqtt => needMqtt := true;
        case NoAction =>
      }
    }

    method OnFlags(sig: Signal)
      modifies `stop, `network, `timeSynced, `useTimestamps, `needAdvs1, `needAdvs2, `needStats
      ensures View() == SetFlags(old(View()), sig)
    {
      ghost var v := View();
      match sig {
        case Stop => stop := true;
        case NetworkDisconnected | NetworkConnected => network := sig.NetworkConnected?;
        case TimeSynchronized => timeSynced := true;
        case CfgChanged(useTs, useRuuvi, useHttp, useStats) => OnCfgChange(useTs, useRuuvi, useHttp, useStats);
        case _ =>
      }
      assert View() == v.(flags := View().flags, needs := View().needs);
    }

    /** Every target that is used is due at once. */
    method OnCfgChange(useTs: bool, useRuuvi: bool, useHttp: bool, useStats: bool)
      modifies `useTimestamps, `needAdvs1, `needAdvs2, `needStats
      ensures useTimestamps == useTs && needAdvs1 == useRuuvi && needAdvs2 == useHttp && needStats == useStats
    {
      useTimestamps, needAdvs1, needAdvs2, needStats := useTs, useRuuvi, useHttp, useStats;
    }
  }
}
