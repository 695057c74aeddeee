/** Main results about runs of the advertisement table. */
module AdvTheorems {
  import opened Common
  import opened AdvCache
  import opened AdvRuns

  // ---------------------------------------------------------------- the used reports

  /** The reports that hold data come first. */
  ghost predicate UsedFirst(rs: seq<Report>) {
    forall i :: 0 <= i < |rs| ==> (IsUsed(rs[i]) <==> i < |Used(rs)|)
  }

  lemma {:induction false} UsedIs(rs: seq<Report>, n: nat)
    requires n <= |rs|
    requires forall i :: 0 <= i < |rs| ==> (IsUsed(rs[i]) <==> i < n)
    ensures UsedFirst(rs) && Used(rs) == rs[..n]
  {
    if n > 0 {
      UsedIs(rs[1..], n - 1);
    }
  }

  lemma {:induction false} DropMacSame(rs: seq<Report>, ss: seq<Report>, mac: Mac)
    requires AllSameButCounter(rs, ss)
    ensures AllSameButCounter(DropMac(rs, mac), DropMac(ss, mac))
  {
    if rs != [] {
      assert SameButCounter(rs[0], ss[0]);
      DropMacSame(rs[1..], ss[1..], mac);
    }
  }

  lemma TruncatedSame(adv: Report, rs: seq<Report>, ss: seq<Report>)
    requires AllSameButCounter(rs, ss)
    ensures AllSameButCounter(Truncated([adv] + DropMac(rs, adv.mac)), Truncated([adv] + DropMac(ss, adv.mac)))
  {
    DropMacSame(rs, ss, adv.mac);
  }

  lemma WithoutUsed(rs: seq<Report>, i: nat, j: nat)
    requires UsedFirst(rs) && i < |rs| && j < |rs| - 1
    ensures IsUsed(Without(rs, i)[j]) <==> j < if i < |Used(rs)| then |Used(rs)| - 1 else |Used(rs)|
  {
    assert Without(rs, i)[j] == rs[if j < i then j else j + 1];
  }

  lemma WithoutDrop(rs: seq<Report>, u: nat, i: nat)
    requires DistinctMacs(rs) && u <= |rs| && i < |rs|
    ensures Without(rs, i)[..if i < u then u - 1 else u] == DropMac(rs[..u], rs[i].mac)
  {
    if i < u {
      DropMacWithout(rs[..u], i);
    } else {
      DropMacAbsent(rs[..u], rs[i].mac);
    }
  }

  lemma UsedWithout(rs: seq<Report>, i: nat)
    requires DistinctMacs(rs) && UsedFirst(rs) && i < |rs|
    ensures UsedFirst(Without(rs, i)) && Used(Without(rs, i)) == DropMac(Used(rs), rs[i].mac)
  {
    var u := |Used(rs)|;
    var d := if i < u then u - 1 else u;
    var w := Without(rs, i);
    forall j | 0 <= j < |w| ensures IsUsed(w[j]) <==> j < d {
      WithoutUsed(rs, i, j);
    }
    UsedIs(w, d);
    WithoutDrop(rs, u, i);
  }

  lemma UsedPush(rs: seq<Report>, r: Report)
    requires UsedFirst(rs) && IsUsed(r)
    ensures UsedFirst([r] + rs) && Used([r] + rs) == [r] + Used(rs)
  {
    UsedIs([r] + rs, |Used(rs)| + 1);
  }

  lemma UsedPromote(rs: seq<Report>, i: nat, r: Report)
    requires DistinctMacs(rs) && UsedFirst(rs) && i < |rs| && rs[i].mac == r.mac && IsUsed(r)
    ensures UsedFirst([r] + Without(rs, i))
    ensures Used([r] + Without(rs, i)) == [r] + DropMac(Used(rs), r.mac)
  {
    UsedWithout(rs, i);
    UsedPush(Without(rs, i), r);
  }

  lemma UsedPop(rs: seq<Report>)
    requires UsedFirst(rs) && rs != []
    ensures UsedFirst(rs[..|rs| - 1])
    ensures Used(rs[..|rs| - 1]) == Used(rs)[..Min(|rs| - 1, |Used(rs)|)]
  {
    UsedIs(rs[..|rs| - 1], Min(|rs| - 1, |Used(rs)|));
  }

  lemma SameHead(r: Report, s: Report, rs: seq<Report>)
    requires SameButCounter(r, s) && |rs| < MAX_ADVS
    ensures AllSameButCounter([r] + rs, Truncated([s] + rs))
  {
    assert Truncated([s] + rs) == [s] + rs;
  }

  lemma UsedEvict(rs: seq<Report>, adv: Report)
    requires UsedFirst(rs) && |rs| == MAX_ADVS && IsUsed(adv)
    ensures UsedFirst([adv] + rs[..|rs| - 1])
    ensures AllSameButCounter(Used([adv] + rs[..|rs| - 1]), Truncated([adv] + Used(rs)))
  {
    UsedPop(rs);
    UsedPush(rs[..|rs| - 1], adv);
    var kept := Used(rs)[..Min(|rs| - 1, |Used(rs)|)];
    assert Truncated([adv] + Used(rs)) == [adv] + kept;
    SameHead(adv, adv, kept);
    assert Truncated([adv] + kept) == [adv] + kept;
  }

  lemma UsedInsert(rs: seq<Report>, adv: Report)
    requires UsedFirst(rs) && |rs| < MAX_ADVS && IsUsed(adv)
    ensures UsedFirst([adv] + rs)
    ensures AllSameButCounter(Used([adv] + rs), Truncated([adv] + Used(rs)))
  {
    UsedPush(rs, adv);
    SameHead(adv, adv, Used(rs));
  }

  lemma UsedUpdate(rs: seq<Report>, i: nat, r: Report, adv: Report)
    requires DistinctMacs(rs) && UsedFirst(rs) && i < |rs| <= MAX_ADVS && rs[i].mac == adv.mac
    requires SameButCounter(r, adv) && IsUsed(r)
    ensures UsedFirst([r] + Without(rs, i))
    ensures AllSameButCounter(Used([r] + Without(rs, i)), Truncated([adv] + DropMac(Used(rs), adv.mac)))
  {
    UsedPromote(rs, i, r);
    SameHead(r, adv, DropMac(Used(rs), adv.mac));
  }

  /** An accepted put brings its report to the front of the used ones. */
  lemma UsedPut(c: Cache, adv: Report)
    requires Wf(c) && UsedFirst(c.lru) && adv.data != [] && Accepts(c, adv)
    ensures UsedFirst(Put(c, adv).lru)
    ensures AllSameButCounter(Used(Put(c, adv).lru), Truncated([adv] + DropMac(Used(c.lru), adv.mac)))
  {
    var rs, i := c.lru, Find(c.lru, adv.mac);
    if i < |rs| {
      UsedUpdate(rs, i, adv.(counter := AddU32(rs[i].counter, 1)), adv);
    } else {
      DropMacAbsent(Used(rs), adv.mac);
      if |rs| < MAX_ADVS {
        UsedInsert(rs, adv);
      } else {
        UsedEvict(rs, adv);
      }
    }
  }

  /** The table holds what the log says it should hold. */
  ghost predicate Agrees(c: Cache, log: seq<Report>) {
    UsedFirst(c.lru) && AllSameButCounter(Used(c.lru), Newest(log))
  }

  /** The decision of a put is the one the log alone dictates. */
  lemma AcceptsAgrees(c: Cache, log: seq<Report>, adv: Report)
    requires Wf(c) && Agrees(c, log) && adv.data != []
    ensures Accepts(c, adv) <==> LogAccepts(log, adv)
  {
    var i, u := Find(c.lru, adv.mac), Used(c.lru);
    LatestDistinct(log);
    forall r | r in Newest(log) && r.mac == adv.mac ensures i < |u| && r == Newest(log)[i] {
      var j :| 0 <= j < |Newest(log)| && Newest(log)[j] == r;
      assert SameButCounter(u[j], r);
      FindUnique(c.lru, j);
    }
    if i < |u| {
      assert SameButCounter(u[i], Newest(log)[i]);
      assert Newest(log)[i] in Newest(log);
    }
  }

  lemma AgreesPut(c: Cache, log: seq<Report>, adv: Report)
    requires Wf(c) && Agrees(c, log) && adv.data != []
    ensures Agrees(Put(c, adv), if LogAccepts(log, adv) then log + [adv] else log)
  {
    AcceptsAgrees(c, log, adv);
    if Accepts(c, adv) {
      UsedPut(c, adv);
      TruncatedSame(adv, Used(c.lru), Newest(log));
      NewestSnoc(log, adv);
    } else {
      UsedIs(Put(c, adv).lru, |Used(c.lru)|);
    }
  }

  /** Counters do not decide which reports are used. */
  lemma SameUsed(rs: seq<Report>, rs': seq<Report>)
    requires UsedFirst(rs) && AllSameButCounter(rs', rs)
    ensures UsedFirst(rs') && AllSameButCounter(Used(rs'), Used(rs))
  {
    assert forall i :: 0 <= i < |rs| ==> SameButCounter(rs'[i], rs[i]);
    UsedIs(rs', |Used(rs)|);
  }

  lemma AgreesOther(c: Cache, log: seq<Report>, e: Event)
    requires Wf(c) && Agrees(c, log) && !e.PutAdv?
    ensures Agrees(Apply(c, e), if e.ClearTable? then [] else log)
  {
    if e.ClearTable? {
      UsedIs(Clear(c).lru, 0);
    } else {
      assert AllSameButCounter(Apply(c, e).lru, c.lru);
      SameUsed(c.lru, Apply(c, e).lru);
    }
  }

  /** MAIN RESULT. After any run whose puts carry data, the used reports stand first and
      are, up to their sample counters, the latest accepted reports of the hundred sensors
      accepted most recently since the last clear, latest first. */
  lemma {:induction false} UsedReportsAreNewest(events: seq<Event>)
    requires PutsCarryData(events)
    ensures UsedFirst(Run(events).lru)
    ensures AllSameButCounter(Used(Run(events).lru), Newest(Log(events)))
  {
    if events == [] {
      UsedIs(EMPTY.lru, 0);
    } else {
      var b, e := Before(events), Last(events);
      UsedReportsAreNewest(b);
      RunWf(b);
      if e.PutAdv? {
        AgreesPut(Run(b), Log(b), e.adv);
      } else {
        AgreesOther(Run(b), Log(b), e);
      }
    }
  }

  /** The result a put returns is the one the log dictates, in every reachable state. */
  lemma PutDecision(events: seq<Event>, adv: Report)
    requires PutsCarryData(events) && adv.data != []
    ensures Accepts(Run(events), adv) <==> LogAccepts(Log(events), adv)
  {
    RunWf(events);
    UsedReportsAreNewest(events);
    AcceptsAgrees(Run(events), Log(events), adv);
  }
}
