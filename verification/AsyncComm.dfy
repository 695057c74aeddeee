/** The posting task: what each signal does to its state. */
module AsyncComm {
  import opened Common
  import AdvCache

  datatype Action = NoAction | PostAdvs1 | PostAdvs2 | PostStats | PostMqtt

  predicate ViaHttp(a: Action) {
    a == PostAdvs1 || a == PostAdvs2 || a == PostStats
  }

  datatype Flags = Flags(timeSynced: bool, network: bool, relaying: bool, useTimestamps: bool, stop: bool)

  datatype Needs = Needs(advs1: bool, advs2: bool, stats: bool, mqtt: bool)

  // ---------------------------------------------------------------- semaphore and mutex

  /** Who holds the mutex that the posting task shares with the handling of incoming connections. */
  datatype Holder = Free | PostTask | Server

  /** The semaphore of the HTTP client, and the mutex with a count of what was done to it. */
  datatype Locks = Locks(semaTaken: bool, mutex: Holder, locked: nat, unlocked: nat, foreignUnlocks: nat)

  function Lock(l: Locks): Locks {
    l.(mutex := PostTask, locked := l.locked + 1)
  }

  /** `foreign` says whether unlocking a mutex that another task holds sets it free. */
  function Unlock(l: Locks, foreign: bool): Locks {
    if l.mutex == PostTask then l.(mutex := Free, unlocked := l.unlocked + 1)
    else l.(mutex := if foreign then Free else l.mutex, foreignUnlocks := l.foreignUnlocks + 1)
  }

  // ---------------------------------------------------------------- periodic batches

  type Adv = AdvCache.Report

  /** A periodic batch: the entries published so far, how often its buffer was freed, and how
      it ended. */
  datatype Batch = Batch(reports: seq<Adv>, published: seq<Adv>, frees: nat, failed: bool, interrupted: bool)

  function NewBatch(reports: seq<Adv>): Batch {
    Batch(reports, [], 0, false, false)
  }

  /** The buffer in use, the index of its next entry, and all batches so far. */
  datatype Mqtt = Mqtt(buffer: Option<seq<Adv>>, idx: nat, batches: seq<Batch>)

  function LastBatch(bs: seq<Batch>): Batch {
    if bs == [] then NewBatch([]) else bs[|bs| - 1]
  }

  function WithLast(bs: seq<Batch>, b: Batch): seq<Batch> {
    if bs == [] then bs else bs[..|bs| - 1] + [b]
  }

  /** The entry of the report table; behind the reports the table is zeroed. */
  function Entry(reports: seq<Adv>, i: nat): Adv {
    if i < |reports| then reports[i] else AdvCache.ZERO_REPORT
  }

  function BeginBatch(m: Mqtt, reports: seq<Adv>): Mqtt {
    Mqtt(Some(reports), 0, m.batches + [NewBatch(reports)])
  }

  /** The buffer of the batch under way is freed. */
  function FreeBatch(m: Mqtt, b: Batch): Mqtt {
    Mqtt(None, 0, WithLast(m.batches, b.(frees := b.frees + 1)))
  }

  /** One entry of the batch is published; the second result says that the batch is over. */
  function PublishNext(m: Mqtt, ok: bool): (Mqtt, bool)
    requires m.buffer.Some?
  {
    var b := LastBatch(m.batches);
    var b' := b.(published := b.published + [Entry(m.buffer.value, m.idx)]);
    if !ok then (FreeBatch(m, b.(failed := true)), true)
    else if m.idx + 1 >= |m.buffer.value| then (FreeBatch(m, b'), true)
    else (Mqtt(m.buffer, m.idx + 1, WithLast(m.batches, b')), false)
  }

  /** Relaying is switched off while a batch is under way: its buffer is not freed. */
  function Interrupt(m: Mqtt): Mqtt {
    m.(batches := WithLast(m.batches, LastBatch(m.batches).(interrupted := true)))
  }

  // ---------------------------------------------------------------- the state of the posting task

  datatype Started = Started(action: Action, nonce: u32)

  /** The next nonce, and the requests started so far. */
  datatype Counter = Counter(nonce: u32, started: seq<Started>)

  /** Only advertisements use up a nonce. */
  function CountStart(c: Counter, a: Action): Counter {
    Counter(if a == PostStats then c.nonce else AddU32(c.nonce, 1), c.started + [Started(a, c.nonce)])
  }

  datatype State = State(
    flags: Flags, needs: Needs, inProgress: bool, action: Action,
    locks: Locks, mqtt: Mqtt, counter: Counter, asserted: bool)

  function Init(nonce: u32): State {
    State(Flags(false, false, true, false, false), Needs(false, false, false, false), false, NoAction,
          Locks(false, Free, 0, 0, 0), Mqtt(None, 0, []), Counter(nonce, []), false)
  }

  /** What the world answers during one step. */
  datatype Env = Env(
    timeSynced: bool, useStats: bool, useMqtt: bool, mqttConnected: bool,
    allocOk: bool, cfgCopyOk: bool, sendOk: bool, reports: seq<Adv>,
    pollDone: bool, publishOk: bool, foreign: bool)

  function NeedNot(n: Needs, a: Action): Needs {
    match a
    case PostAdvs1 => n.(advs1 := false)
    case PostAdvs2 => n.(advs2 := false)
    case PostStats => n.(stats := false)
    case PostMqtt => n.(mqtt := false)
    case NoAction => n
  }

  predicate MayNotSendYet(s: State, env: Env) {
    s.flags.useTimestamps && !env.timeSynced
  }

  /** Everything the posting task does itself before the HTTP client takes the semaphore works. */
  predicate Reached(a: Action, env: Env) {
    (a == PostStats || env.allocOk) && env.cfgCopyOk
  }

  /** Sending a request under the mutex. The semaphore must be available when the HTTP client
      takes it; a request that cannot be sent gives back the semaphore and the mutex. */
  function Request(s: State, a: Action, env: Env): State {
    var l := Lock(s.locks);
    if Reached(a, env) && l.semaTaken then s.(action := a, locks := l, asserted := true)
    else if Reached(a, env) && env.sendOk then
      s.(action := a, locks := l.(semaTaken := true), inProgress := true, needs := NeedNot(s.needs, a),
         counter := CountStart(s.counter, a))
    else s.(action := NoAction, locks := Unlock(l, env.foreign))
  }

  function SendHttp(s: State, a: Action, env: Env): State {
    if a == PostStats && !env.useStats then s.(needs := NeedNot(s.needs, a))
    else if !s.flags.network || MayNotSendYet(s, env) || s.locks.mutex != Free then s
    else Request(s, a, env)
  }

  function SendMqtt(s: State, env: Env): State {
    if !env.useMqtt || !s.flags.network || !env.mqttConnected then s.(needs := NeedNot(s.needs, PostMqtt))
    else if MayNotSendYet(s, env) then s
    else if !env.allocOk then s.(action := NoAction)
    else
      s.(action := PostMqtt, mqtt := BeginBatch(s.mqtt, env.reports), needs := NeedNot(s.needs, PostMqtt),
        inProgress := true)
  }

  /** The request in progress is polled; the second result says that it is over. */
  function PollHttp(s: State, env: Env): (State, bool) {
    if !env.pollDone then (s, false)
    else
      (s.(needs := NeedNot(s.needs, s.action), action := NoAction,
          locks := Unlock(s.locks.(semaTaken := false), env.foreign)), true)
  }

  function StepMqtt(s: State, env: Env): (State, bool) {
    if s.mqtt.buffer.None? then (s.(asserted := true), false)
    else
      var (m, over) := PublishNext(s.mqtt, env.publishOk);
      (s.(mqtt := m), over)
  }

  function GoOn(s: State, env: Env): (State, bool) {
    if s.action != PostMqtt then PollHttp(s, env) else StepMqtt(s, env)
  }

  /** At most one new request is started, in a fixed order of precedence. */
  function StartNext(s: State, env: Env): State {
    if !s.flags.relaying then s
    else if s.needs.advs1 then SendHttp(s, PostAdvs1, env)
    else if s.needs.advs2 then SendHttp(s, PostAdvs2, env)
    else if s.needs.stats then SendHttp(s, PostStats, env)
    else if s.needs.mqtt then SendMqtt(s, env)
    else s
  }

  function DoAsyncComm(s: State, env: Env): State {
    if !s.inProgress then StartNext(s, env)
    else
      var (t, over) := GoOn(s, env);
      if over then StartNext(t.(inProgress := false), env) else t
  }

  // ---------------------------------------------------------------- signals

  datatype Signal =
    | Stop
    | NetworkDisconnected
    | NetworkConnected
    | TimeSynchronized
    | Retransmit(useRuuvi: bool)
    | Retransmit2(useHttp: bool)
    | RetransmitMqtt(useMqtt: bool)
    | SendStatistics(useStats: bool)
    | DoAsync(env: Env)
    | RelayingModeChanged(enabled: bool, foreign: bool)
    | CfgChanged(useTimestamps: bool, useRuuvi: bool, useHttp: bool, useStats: bool)
    | OtherSignal

  /** When relaying is switched off, what is in progress is aborted: the semaphore becomes
      available, whether or not it was taken, and the mutex is unlocked. */
  function ChangeRelaying(s: State, enabled: bool, foreign: bool): State {
    var t := s.(flags := s.flags.(relaying := enabled));
    if enabled || !s.inProgress then t
    else
      t.(inProgress := false, locks := Unlock(s.locks.(semaTaken := false), foreign),
         mqtt := if s.action == PostMqtt then Interrupt(s.mqtt) else s.mqtt)
  }

  /** The signals that only change flags. */
  function SetFlags(s: State, sig: Signal): State {
    match sig
    case Stop => s.(flags := s.flags.(stop := true))
    case NetworkDisconnected => s.(flags := s.flags.(network := false))
    case NetworkConnected => s.(flags := s.flags.(network := true))
    case TimeSynchronized => s.(flags := s.flags.(timeSynced := true))
    case CfgChanged(useTimestamps, useRuuvi, useHttp, useStats) =>
      s.(flags := s.flags.(useTimestamps := useTimestamps), needs := Needs(useRuuvi, useHttp, useStats, s.needs.mqtt))
    case _ => s
  }

  function AddNeed(n: Needs, a: Action): Needs {
    match a
    case PostAdvs1 => n.(advs1 := true)
    case PostAdvs2 => n.(advs2 := true)
    case PostStats => n.(stats := true)
    case PostMqtt => n.(mqtt := true)
    case NoAction => n
  }

  /** The timers ask for a transmission, which is remembered while relaying is enabled. */
  function Remember(s: State, a: Action, use: bool): State {
    if s.flags.relaying && use then s.(needs := AddNeed(s.needs, a)) else s
  }

  function Handle(s: State, sig: Signal): State {
    match sig
    case Retransmit(use) => Remember(s, PostAdvs1, use)
    case Retransmit2(use) => Remember(s, PostAdvs2, use)
    case RetransmitMqtt(use) => Remember(s, PostMqtt, use)
    case SendStatistics(use) => Remember(s, PostStats, use)
    case DoAsync(env) => DoAsyncComm(s, env)
    case RelayingModeChanged(enabled, foreign) => ChangeRelaying(s, enabled, foreign)
    case _ => SetFlags(s, sig)
  }

  /** A step of a run: the posting task handles a signal, or the server takes or returns the mutex. */
  datatype Event = Handled(sig: Signal) | ServerLocks | ServerUnlocks

  function Apply(s: State, e: Event): State {
    match e
    case Handled(sig) => if s.flags.stop then s else Handle(s, sig)
    case ServerLocks => if s.locks.mutex == Free then s.(locks := s.locks.(mutex := Server)) else s
    case ServerUnlocks => if s.locks.mutex == Server then s.(locks := s.locks.(mutex := Free)) else s
  }

  function Run(nonce: u32, events: seq<Event>): State {
    if events == [] then Init(nonce) else Apply(Run(nonce, events[..|events| - 1]), events[|events| - 1])
  }

  /** The end of the posting task: what is in progress is aborted, but the mutex is not unlocked. */
  function Exit(s: State): State {
    s.(locks := s.locks.(semaTaken := false))
  }
}
