/** What the signals mean: the flags of the posting task as the history of the signals gives
    them, and what asks for a transmission. */
module AsyncSignals {
  import opened Common
  import opened AsyncComm
  import opened AsyncTheorems

  predicate TurnsRelaying(e: Event, on: bool) {
    e.Handled? && e.sig.RelayingModeChanged? && e.sig.enabled == on
  }

  /** The network was connected and not disconnected since. */
  ghost predicate NetworkIsUp(events: seq<Event>) {
    exists i :: 0 <= i < |events| && events[i] == Handled(NetworkConnected)
                && forall j :: i < j < |events| ==> events[j] != Handled(NetworkDisconnected)
  }

  /** Whenever relaying was turned off it was turned on again. */
  ghost predicate RelayingIsOn(events: seq<Event>) {
    forall i :: 0 <= i < |events| && TurnsRelaying(events[i], false) ==>
                  exists j :: i < j < |events| && TurnsRelaying(events[j], true)
  }

  lemma NetworkSnoc(events: seq<Event>, e: Event)
    ensures NetworkIsUp(events + [e]) <==>
              e == Handled(NetworkConnected) || (e != Handled(NetworkDisconnected) && NetworkIsUp(events))
  {
    var all := events + [e];
    assert all[|events|] == e;
    assert forall i :: 0 <= i < |events| ==> all[i] == events[i];
    if i :| 0 <= i < |events| && events[i] == Handled(NetworkConnected)
            && forall j :: i < j < |events| ==> events[j] != Handled(NetworkDisconnected) {
      assert all[i] == Handled(NetworkConnected);
    }
  }

  lemma RelayingSnoc(events: seq<Event>, e: Event)
    ensures RelayingIsOn(events + [e]) <==> TurnsRelaying(e, true) || (!TurnsRelaying(e, false) && RelayingIsOn(events))
  {
    var all := events + [e];
    assert all[|events|] == e;
    assert forall i :: 0 <= i < |events| ==> all[i] == events[i];
    if !TurnsRelaying(e, true) {
      if !TurnsRelaying(e, false) && RelayingIsOn(events) {
        forall i | 0 <= i < |all| && TurnsRelaying(all[i], false)
          ensures exists j :: i < j < |all| && TurnsRelaying(all[j], true) {
          var j :| i < j < |events| && TurnsRelaying(events[j], true);
          assert TurnsRelaying(all[j], true);
        }
      }
      if RelayingIsOn(all) {
        forall i | 0 <= i < |events| && TurnsRelaying(events[i], false)
          ensures exists j :: i < j < |events| && TurnsRelaying(events[j], true) {
          assert TurnsRelaying(all[i], false);
          var j :| i < j < |all| && TurnsRelaying(all[j], true);
          assert TurnsRelaying(events[j], true);
        }
      }
    }
  }

  /** What a step does to the flags. */
  lemma StepConnection(s: State, e: Event)
    requires !s.flags.stop
    ensures var f, f' := s.flags, Apply(s, e).flags;
            && f'.network == (e == Handled(NetworkConnected) || (e != Handled(NetworkDisconnected) && f.network))
            && f'.timeSynced == (e == Handled(TimeSynchronized) || f.timeSynced)
            && f'.stop == (e == Handled(Stop))
  {
    if e.Handled? {
      SignalConnection(s, e.sig);
    }
  }

  lemma SignalConnection(s: State, sig: Signal)
    requires !s.flags.stop
    ensures var f, f' := s.flags, Handle(s, sig).flags;
            && f'.network == (sig.NetworkConnected? || (!sig.NetworkDisconnected? && f.network))
            && f'.timeSynced == (sig.TimeSynchronized? || f.timeSynced)
            && f'.stop == sig.Stop?
  {
    if sig.DoAsync? {
      AsyncKeepsFlags(s, sig.env);
    }
  }

  lemma StepModes(s: State, e: Event)
    requires !s.flags.stop
    ensures var f, f' := s.flags, Apply(s, e).flags;
            && f'.relaying == (TurnsRelaying(e, true) || (!TurnsRelaying(e, false) && f.relaying))
            && f'.useTimestamps == if e.Handled? && e.sig.CfgChanged? then e.sig.useTimestamps else f.useTimestamps
  {
    if e.Handled? && e.sig.DoAsync? {
      AsyncKeepsFlags(s, e.sig.env);
    }
  }

  lemma StartKeepsFlags(s: State, env: Env)
    ensures StartNext(s, env).flags == s.flags
  {
  }

  lemma AsyncKeepsFlags(s: State, env: Env)
    ensures DoAsyncComm(s, env).flags == s.flags
  {
    if s.inProgress {
      StartKeepsFlags(GoOn(s, env).0.(inProgress := false), env);
    } else {
      StartKeepsFlags(s, env);
    }
  }

  /** MAIN RESULT. In every run that is not stopped: the network flag says whether the network
      was connected and not disconnected since, the relaying flag whether the last change of the
      mode, if any, was to on, and the time flag whether time was ever synchronised. */
  lemma {:induction false} FlagsFollowSignals(nonce: u32, events: seq<Event>)
    requires Handled(Stop) !in events
    ensures var f := Run(nonce, events).flags;
            && !f.stop && (f.network <==> NetworkIsUp(events)) && (f.relaying <==> RelayingIsOn(events))
            && (f.timeSynced <==> Handled(TimeSynchronized) in events)
  {
    if events != [] {
      var b, e := events[..|events| - 1], events[|events| - 1];
      assert events == b + [e];
      FlagsFollowSignals(nonce, b);
      StepConnection(Run(nonce, b), e);
      StepModes(Run(nonce, b), e);
      NetworkSnoc(b, e);
      RelayingSnoc(b, e);
    }
  }

  lemma StepIdles(s: State, e: Event)
    requires !s.flags.relaying ==> !s.inProgress
    ensures !Apply(s, e).flags.relaying ==> !Apply(s, e).inProgress
  {
    if e.Handled? && e.sig.DoAsync? {
      AsyncKeepsFlags(s, e.sig.env);
    }
  }

  /** MAIN RESULT. In every run no request is in progress while relaying is off. */
  lemma {:induction false} IdleWhileOff(nonce: u32, events: seq<Event>)
    ensures !Run(nonce, events).flags.relaying ==> !Run(nonce, events).inProgress
  {
    if events != [] {
      IdleWhileOff(nonce, events[..|events| - 1]);
      StepIdles(Run(nonce, events[..|events| - 1]), events[|events| - 1]);
    }
  }

  // ---------------------------------------------------------------- what is asked for

  lemma TimerSteps(s: State, use: bool)
    requires !s.flags.stop
    ensures var n, on := s.needs, s.flags.relaying && use;
            && Apply(s, Handled(Retransmit(use))) == s.(needs := n.(advs1 := n.advs1 || on))
            && Apply(s, Handled(Retransmit2(use))) == s.(needs := n.(advs2 := n.advs2 || on))
            && Apply(s, Handled(SendStatistics(use))) == s.(needs := n.(stats := n.stats || on))
            && Apply(s, Handled(RetransmitMqtt(use))) == s.(needs := n.(mqtt := n.mqtt || on))
  {
  }

  /** In every run that is not stopped, each timer asks for its own transmission,
      while relaying is enabled and the target is used, and does nothing else. */
  lemma TimersAsk(nonce: u32, events: seq<Event>, use: bool)
    requires !Run(nonce, events).flags.stop
    ensures var s := Run(nonce, events); var n, on := s.needs, s.flags.relaying && use;
            && Run(nonce, events + [Handled(Retransmit(use))]) == s.(needs := n.(advs1 := n.advs1 || on))
            && Run(nonce, events + [Handled(Retransmit2(use))]) == s.(needs := n.(advs2 := n.advs2 || on))
            && Run(nonce, events + [Handled(SendStatistics(use))]) == s.(needs := n.(stats := n.stats || on))
            && Run(nonce, events + [Handled(RetransmitMqtt(use))]) == s.(needs := n.(mqtt := n.mqtt || on))
  {
    TimerSteps(Run(nonce, events), use);
    RunSnoc(nonce, events, Handled(Retransmit(use)));
    RunSnoc(nonce, events, Handled(Retransmit2(use)));
    RunSnoc(nonce, events, Handled(SendStatistics(use)));
    RunSnoc(nonce, events, Handled(RetransmitMqtt(use)));
  }

  /** A new configuration asks for every HTTP transmission that it uses, and for no other. */
  lemma ConfigurationAsks(nonce: u32, events: seq<Event>, useTimestamps: bool, ruuvi: bool, http: bool, stats: bool)
    requires !Run(nonce, events).flags.stop
    ensures var s := Run(nonce, events);
            Run(nonce, events + [Handled(CfgChanged(useTimestamps, ruuvi, http, stats))])
              == s.(flags := s.flags.(useTimestamps := useTimestamps), needs := Needs(ruuvi, http, stats, s.needs.mqtt))
  {
    RunSnoc(nonce, events, Handled(CfgChanged(useTimestamps, ruuvi, http, stats)));
  }

  predicate IsAsked(n: Needs, a: Action) {
    match a
    case PostAdvs1 => n.advs1
    case PostAdvs2 => n.advs2
    case PostStats => n.stats
    case PostMqtt => n.mqtt
    case NoAction => false
  }

  /** The request that was started between two states, if one was. */
  predicate Begun(s: State, s': State, a: Action) {
    if a == PostMqtt then |s'.mqtt.batches| > |s.mqtt.batches|
    else |s'.counter.started| > |s.counter.started| && s'.counter.started[|s'.counter.started| - 1].action == a
  }

  /** The target is not used any more, or MQTT is not there. */
  predicate Withdrawn(s: State, sig: Signal, a: Action) {
    match sig
    case CfgChanged(_, ruuvi, http, stats) =>
      (a == PostAdvs1 && !ruuvi) || (a == PostAdvs2 && !http) || (a == PostStats && !stats)
    case DoAsync(env) =>
      (a == PostStats && !env.useStats)
      || (a == PostMqtt && !(env.useMqtt && s.flags.network && env.mqttConnected))
    case _ => false
  }

  lemma StartKeepsAsked(s: State, env: Env, a: Action)
    requires Locking(s) && !s.inProgress && IsAsked(s.needs, a)
    ensures IsAsked(StartNext(s, env).needs, a) || Begun(s, StartNext(s, env), a) || Withdrawn(s, DoAsync(env), a)
  {
  }

  lemma GoOnKeepsAsked(s: State, env: Env, a: Action)
    requires Locking(s) && s.inProgress && IsAsked(s.needs, a)
    ensures IsAsked(GoOn(s, env).0.needs, a) || (s.action == a && env.pollDone)
  {
  }

  lemma AsyncKeepsAsked(s: State, env: Env, a: Action)
    requires Locking(s) && IsAsked(s.needs, a)
    ensures var s' := DoAsyncComm(s, env);
            || IsAsked(s'.needs, a) || Begun(s, s', a) || Withdrawn(s, DoAsync(env), a)
            || (s.inProgress && s.action == a && env.pollDone)
  {
    if !s.inProgress {
      StartKeepsAsked(s, env, a);
    } else {
      GoOnKeepsAsked(s, env, a);
      var (t, over) := GoOn(s, env);
      if over && IsAsked(t.needs, a) {
        StartKeepsAsked(t.(inProgress := false), env, a);
        GoOnBeginsNothing(s, env);
      }
    }
  }

  lemma GoOnBeginsNothing(s: State, env: Env)
    requires Locking(s) && s.inProgress
    ensures var t := GoOn(s, env).0;
            t.counter == s.counter && |t.mqtt.batches| == |s.mqtt.batches| && t.flags == s.flags
    ensures GoOn(s, env).1 ==> Locking(GoOn(s, env).0.(inProgress := false))
  {
  }

  lemma OthersKeepAsked(s: State, e: Event, a: Action)
    requires IsAsked(s.needs, a) && !(e.Handled? && e.sig.DoAsync?)
    ensures IsAsked(Apply(s, e).needs, a) || (e.Handled? && Withdrawn(s, e.sig, a))
  {
    if e.Handled? {
      SignalKeepsAsked(s, e.sig, a);
    }
  }

  lemma SignalKeepsAsked(s: State, sig: Signal, a: Action)
    requires IsAsked(s.needs, a) && !sig.DoAsync?
    ensures IsAsked(Handle(s, sig).needs, a) || Withdrawn(s, sig, a)
  {
    if sig.RelayingModeChanged? {
      assert Handle(s, sig).needs == s.needs;
    }
  }

  /** MAIN RESULT. What was asked for is dropped only when the request is started or withdrawn,
      or when a request of the same kind ends: what is asked for while such a request is in
      progress is forgotten with it. */
  lemma AskedUntil(s: State, e: Event, a: Action)
    requires Locking(s) && IsAsked(s.needs, a) && !IsAsked(Apply(s, e).needs, a)
    ensures && e.Handled?
            && (Begun(s, Apply(s, e), a) || Withdrawn(s, e.sig, a)
                || (e.sig.DoAsync? && s.inProgress && s.action == a && e.sig.env.pollDone))
  {
    if e.Handled? && e.sig.DoAsync? {
      AsyncKeepsAsked(s, e.sig.env, a);
    } else {
      OthersKeepAsked(s, e, a);
    }
  }

  /** What is started is not asked for any more, and neither is what ends. */
  lemma StartedIsForgotten(s: State, env: Env, a: Action)
    requires Locking(s) && (a == PostAdvs1 || a == PostAdvs2 || a == PostStats || a == PostMqtt)
    ensures Begun(s, DoAsyncComm(s, env), a) ==> !IsAsked(DoAsyncComm(s, env).needs, a)
    ensures s.inProgress && s.action == a && a != PostMqtt && env.pollDone ==> !IsAsked(DoAsyncComm(s, env).needs, a)
  {
    if !s.inProgress {
      BegunIsForgotten(s, env, a);
    } else {
      var (t, over) := GoOn(s, env);
      GoOnBeginsNothing(s, env);
      if over {
        BegunIsForgotten(t.(inProgress := false), env, a);
      }
    }
  }

  lemma BegunIsForgotten(s: State, env: Env, a: Action)
    requires Locking(s) && !s.inProgress
    ensures Begun(s, StartNext(s, env), a) || !IsAsked(s.needs, a) ==> !IsAsked(StartNext(s, env).needs, a)
  {
  }
}
