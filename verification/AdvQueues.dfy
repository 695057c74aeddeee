/** The retransmission queues over whole runs: nothing is lost, nothing is sent twice. */
module AdvQueues {
  import opened AdvCache
  import opened AdvRuns
  import opened AdvTheorems

  lemma LookupAt(rs: seq<Report>, i: nat)
    requires DistinctMacs(rs) && i < |rs|
    ensures Resident(rs, rs[i].mac) && Lookup(rs, rs[i].mac) == rs[i]
  {
    FindUnique(rs, i);
  }

  /** A put leaves the reports of the other sensors it keeps as they are. */
  lemma PutKeeps(c: Cache, adv: Report, m: Mac)
    requires Wf(c) && m != adv.mac && Resident(c.lru, m) && !Evicts(c, adv, m)
    ensures Resident(Put(c, adv).lru, m) && Lookup(Put(c, adv).lru, m) == Lookup(c.lru, m)
  {
    PutWf(c, adv);
    var rs, rs' := c.lru, Put(c, adv).lru;
    var i, j := Find(rs, adv.mac), Find(rs, m);
    var l := if i == |rs| then j + 1 else if MustDiscard(adv, rs[i]) || j > i then j else j + 1;
    assert rs'[l] == rs[j];
    LookupAt(rs', l);
  }

  lemma InheritMembers(q: seq<Mac>, from: Mac, to: Mac, m: Mac)
    requires to !in q && from != to
    ensures m in Inherit(q, from, to) <==> m == to || (m in q && m != from)
  {
    var q' := Inherit(q, from, to);
    if from in q {
      var i :| 0 <= i < |q| && q[i] == from;
      assert q'[i] == to;
      if m in q && m != from {
        var j :| 0 <= j < |q| && q[j] == m;
        assert q'[j] == m;
      }
      if m in q' && m != to {
        var j :| 0 <= j < |q'| && q'[j] == m;
        assert q[j] == m;
      }
    }
  }

  /** Which sensors wait in a queue after a put. */
  lemma PutQueue(c: Cache, adv: Report, k: Queue, m: Mac)
    requires Wf(c)
    ensures m in Put(c, adv).Q(k) <==>
              (m == adv.mac && Accepts(c, adv)) || (m in c.Q(k) && !Evicts(c, adv, m))
  {
    var q, i, n := c.Q(k), Find(c.lru, adv.mac), |c.lru|;
    assert QueueWf(c.lru, q) by { match k case List1 => case List2 => case List3 => }
    if i < n {
      assert Put(c, adv).Q(k) == if MustDiscard(adv, c.lru[i]) then q else Enqueue(q, adv.mac);
    } else if n < MAX_ADVS {
      assert Put(c, adv).Q(k) == q + [adv.mac];
    } else {
      var evicted := c.lru[n - 1].mac;
      assert Put(c, adv).Q(k) == Inherit(q, evicted, adv.mac);
      assert adv.mac !in q;
      InheritMembers(q, evicted, adv.mac, m);
    }
  }

  /** A sensor was accepted after its last departure from the queue. */
  ghost predicate AcceptedSinceLeft(events: seq<Event>, k: Queue, m: Mac) {
    events != [] &&
    var b := Before(events);
    match Last(events)
    case PutAdv(adv) => (adv.mac == m && LogAccepts(Log(b), adv)) || AcceptedSinceLeft(b, k, m)
    case DrainList(j) => j != k && AcceptedSinceLeft(b, k, m)
    case PopList3 => AcceptedSinceLeft(b, k, m) && !(k == List3 && PopReturns(Run(b), m))
    case ClearTable => false
    case ReadStatistics => AcceptedSinceLeft(b, k, m)
  }

  ghost predicate PopReturns(c: Cache, m: Mac) {
    Wf(c) && PopHead(c).1.Some? && PopHead(c).1.value.mac == m
  }

  /** Waiting sensors hold data. */
  ghost predicate QueueUsed(c: Cache, k: Queue) {
    forall m :: m in c.Q(k) ==> Resident(c.lru, m) && IsUsed(Lookup(c.lru, m))
  }

  lemma PopQueue(c: Cache, m: Mac)
    requires Wf(c)
    ensures m in PopHead(c).0.q3 <==> m in c.q3 && !PopReturns(c, m)
  {
    if c.q3 != [] {
      var q := c.q3;
      assert Lookup(c.lru, q[0]).mac == q[0];
      if m in q[1..] {
        var i :| 0 <= i < |q[1..]| && q[1..][i] == m;
        assert q[i + 1] == m && q[0] != q[i + 1];
      }
      if m in q && m != q[0] {
        var i :| 0 <= i < |q| && q[i] == m;
        assert q[1..][i - 1] == m;
      }
    }
  }

  lemma DrainQueues(c: Cache, j: Queue, k: Queue, m: Mac)
    requires Wf(c)
    ensures m in Drain(c, j).0.Q(k) <==> m in c.Q(k) && j != k
  {
    match j case List1 => case List2 => case List3 =>
  }

  lemma PopQueues(c: Cache, k: Queue, m: Mac)
    requires Wf(c)
    ensures m in PopHead(c).0.Q(k) <==> m in c.Q(k) && !(k == List3 && PopReturns(c, m))
  {
    if k == List3 {
      PopQueue(c, m);
    }
  }

  lemma OtherQueues(c: Cache, e: Event, k: Queue, m: Mac)
    requires Wf(c) && !e.PutAdv?
    ensures m in Apply(c, e).Q(k) <==>
              m in c.Q(k) && !e.ClearTable? && e != DrainList(k) && !(e.PopList3? && k == List3 && PopReturns(c, m))
  {
    match e
    case DrainList(j) => DrainQueues(c, j, k, m);
    case PopList3 => PopQueues(c, k, m);
    case ClearTable => assert Clear(c).Q(k) == [];
    case ReadStatistics => assert Statistics(c).0.Q(k) == c.Q(k);
  }

  lemma OtherReports(c: Cache, e: Event, m: Mac)
    requires Wf(c) && !e.PutAdv?
    ensures Resident(Apply(c, e).lru, m) <==> Resident(c.lru, m)
    ensures Resident(c.lru, m) && !e.ClearTable? ==>
              SameButCounter(Lookup(Apply(c, e).lru, m), Lookup(c.lru, m))
  {
    SameMacsFind(c.lru, Apply(c, e).lru, m);
  }

  lemma QueueUsedStep(c: Cache, e: Event, k: Queue)
    requires Wf(c) && QueueUsed(c, k) && (e.PutAdv? ==> e.adv.data != [])
    ensures QueueUsed(Apply(c, e), k)
  {
    ApplyWf(c, e);
    var c' := Apply(c, e);
    forall m | m in c'.Q(k) ensures Resident(c'.lru, m) && IsUsed(Lookup(c'.lru, m)) {
      if e.PutAdv? {
        PutQueue(c, e.adv, k, m);
        if m == e.adv.mac && Accepts(c, e.adv) {
          LookupAt(c'.lru, 0);
        } else if m == e.adv.mac {
          LookupAt(c'.lru, Find(c.lru, m));
        } else {
          PutKeeps(c, e.adv, m);
        }
      } else {
        OtherQueues(c, e, k, m);
        OtherReports(c, e, m);
      }
    }
  }

  lemma {:induction false} RunQueueUsed(events: seq<Event>, k: Queue)
    requires PutsCarryData(events)
    ensures QueueUsed(Run(events), k)
  {
    if events != [] {
      RunQueueUsed(Before(events), k);
      RunWf(Before(events));
      QueueUsedStep(Run(Before(events)), Last(events), k);
    }
  }

  /** MAIN RESULT. A sensor waits in a queue exactly when it is in the table and was
      accepted after its last departure from that queue. */
  lemma {:induction false} WaitingIffAccepted(events: seq<Event>, k: Queue, m: Mac)
    requires PutsCarryData(events)
    ensures m in Run(events).Q(k) <==> Resident(Run(events).lru, m) && AcceptedSinceLeft(events, k, m)
  {
    if events != [] {
      var b, e := Before(events), Last(events);
      WaitingIffAccepted(b, k, m);
      RunWf(b);
      if e.PutAdv? {
        PutDecision(b, e.adv);
        PutQueue(Run(b), e.adv, k, m);
        PutResidents(Run(b), e.adv, m);
        if m == e.adv.mac && !Accepts(Run(b), e.adv) {
          assert Run(b).lru[Find(Run(b).lru, m)].mac == m;
        }
      } else {
        OtherQueues(Run(b), e, k, m);
        OtherReports(Run(b), e, m);
      }
    }
  }

  /** The stored report of a sensor that holds data is its latest accepted one. */
  lemma StoredIsLatest(events: seq<Event>, m: Mac)
    requires PutsCarryData(events)
    ensures Resident(Newest(Log(events)), m) <==>
              Resident(Run(events).lru, m) && IsUsed(Lookup(Run(events).lru, m))
    ensures Resident(Newest(Log(events)), m) ==>
              SameButCounter(Lookup(Run(events).lru, m), Lookup(Newest(Log(events)), m))
  {
    UsedReportsAreNewest(events);
    RunWf(events);
    LatestDistinct(Log(events));
    var rs, newest := Run(events).lru, Newest(Log(events));
    if Resident(rs, m) && IsUsed(Lookup(rs, m)) {
      var i := Find(rs, m);
      assert SameButCounter(Used(rs)[i], newest[i]);
      LookupAt(newest, i);
    }
    if Resident(newest, m) {
      var i := Find(newest, m);
      assert SameButCounter(Used(rs)[i], newest[i]);
      LookupAt(rs, i);
    }
  }

  /** MAIN RESULT. A drain returns each sensor that is in the table and was accepted since
      it last left the queue, once, with its latest accepted report; it empties that queue
      and changes nothing else. */
  lemma DrainIsExact(events: seq<Event>, k: Queue)
    requires PutsCarryData(events)
    ensures Wf(Run(events))
    ensures var (c', out) := Drain(Run(events), k);
            && DistinctMacs(out)
            && (forall m :: Resident(out, m) <==>
                            Resident(Newest(Log(events)), m) && AcceptedSinceLeft(events, k, m))
            && (forall i :: 0 <= i < |out| ==>
                            Resident(Newest(Log(events)), out[i].mac)
                            && SameButCounter(out[i], Lookup(Newest(Log(events)), out[i].mac)))
            && c'.Q(k) == [] && c'.lru == Run(events).lru
            && (forall j: Queue :: j != k ==> c'.Q(j) == Run(events).Q(j))
  {
    RunWf(events);
    RunQueueUsed(events, k);
    var c := Run(events);
    var (c', out) := Drain(c, k);
    assert QueueWf(c.lru, c.Q(k));
    forall i | 0 <= i < |out|
      ensures out[i].mac == c.Q(k)[i]
      ensures Resident(Newest(Log(events)), out[i].mac)
      ensures SameButCounter(out[i], Lookup(Newest(Log(events)), out[i].mac)) {
      assert c.Q(k)[i] in c.Q(k);
      StoredIsLatest(events, c.Q(k)[i]);
    }
    forall m ensures Resident(out, m) <==> Resident(Newest(Log(events)), m) && AcceptedSinceLeft(events, k, m) {
      WaitingIffAccepted(events, k, m);
      StoredIsLatest(events, m);
      if m in c.Q(k) {
        var i :| 0 <= i < |c.Q(k)| && c.Q(k)[i] == m;
        assert out[i].mac == m;
      }
      if Resident(out, m) {
        assert c.Q(k)[Find(out, m)] in c.Q(k);
      }
    }
  }

  /** The reports obtained by popping list 3 until it is empty. */
  ghost function PopAll(c: Cache): seq<Report>
    requires Wf(c)
    decreases |c.q3|
  {
    if c.q3 == [] then [] else [PopHead(c).1.value] + PopAll(PopHead(c).0)
  }

  lemma LookupAllHead(rs: seq<Report>, q: seq<Mac>)
    requires q != [] && forall m :: m in q ==> Resident(rs, m)
    ensures LookupAll(rs, q) == [Lookup(rs, q[0])] + LookupAll(rs, q[1..])
  {
  }

  lemma PopHeadWf(c: Cache)
    requires Wf(c)
    ensures Wf(PopHead(c).0)
  {
  }

  /** Popping list 3 until it is empty gives what one drain gives. */
  lemma {:induction false} PopAllIsDrain(c: Cache)
    requires Wf(c)
    ensures PopAll(c) == Drain(c, List3).1
    decreases |c.q3|
  {
    if c.q3 != [] {
      PopHeadWf(c);
      PopAllIsDrain(PopHead(c).0);
      LookupAllHead(c.lru, c.q3);
    }
  }
}
