/** Whole runs of the advertisement table: what the cache holds after any sequence of
    operations, stated against references that read only the history of the run. */
module AdvRuns {
  import opened Common
  import opened AdvCache

  datatype Event =
    | PutAdv(adv: Report)
    | DrainList(k: Queue)
    | PopList3
    | ClearTable
    | ReadStatistics

  // ---------------------------------------------------------------- steps keep Wf

  lemma EnqueueWf(rs: seq<Report>, rs': seq<Report>, q: seq<Mac>, mac: Mac)
    requires QueueWf(rs, q) && Resident(rs', mac)
    requires forall m :: Resident(rs, m) ==> Resident(rs', m)
    ensures QueueWf(rs', Enqueue(q, mac))
  {
  }

  lemma AppendWf(rs: seq<Report>, rs': seq<Report>, q: seq<Mac>, mac: Mac)
    requires QueueWf(rs, q) && Resident(rs', mac) && !Resident(rs, mac)
    requires forall m :: Resident(rs, m) ==> Resident(rs', m)
    ensures QueueWf(rs', q + [mac])
  {
    assert mac !in q;
  }

  lemma InheritWf(rs: seq<Report>, rs': seq<Report>, q: seq<Mac>, from: Mac, to: Mac)
    requires QueueWf(rs, q) && Resident(rs', to) && !Resident(rs, to)
    requires forall m :: Resident(rs, m) && m != from ==> Resident(rs', m)
    ensures QueueWf(rs', Inherit(q, from, to))
  {
    var q' := Inherit(q, from, to);
    if from in q {
      forall m | m in q' ensures Resident(rs', m) {
        var i :| 0 <= i < |q'| && q'[i] == m;
        assert q[i] in q;
      }
      assert to !in q;
    } else {
      forall m | m in q' ensures Resident(rs', m) {
        assert m in q || m == to;
      }
    }
  }

  /** Moving a report to the front, renewed, keeps the sensors. */
  lemma PromoteResidents(rs: seq<Report>, i: nat, r: Report, m: Mac)
    requires i < |rs| && rs[i].mac == r.mac
    ensures Resident([r] + Without(rs, i), m) <==> Resident(rs, m)
  {
    var rs' := [r] + Without(rs, i);
    if Resident(rs, m) {
      var j :| 0 <= j < |rs| && rs[j].mac == m;
      assert rs'[if j == i then 0 else if j < i then j + 1 else j].mac == m;
    }
    if Resident(rs', m) {
      var j :| 0 <= j < |rs'| && rs'[j].mac == m;
      assert rs[if j == 0 then i else if j <= i then j - 1 else j].mac == m;
    }
  }

  lemma PushResidents(rs: seq<Report>, r: Report, m: Mac)
    ensures Resident([r] + rs, m) <==> m == r.mac || Resident(rs, m)
  {
    var rs' := [r] + rs;
    if Resident(rs, m) {
      var j :| 0 <= j < |rs| && rs[j].mac == m;
      assert rs'[j + 1].mac == m;
    }
    if m == r.mac { assert rs'[0].mac == m; }
  }

  lemma EvictResidents(rs: seq<Report>, m: Mac)
    requires DistinctMacs(rs) && rs != []
    ensures Resident(rs[..|rs| - 1], m) <==> Resident(rs, m) && m != rs[|rs| - 1].mac
  {
    if Resident(rs, m) && m != rs[|rs| - 1].mac {
      var j :| 0 <= j < |rs| && rs[j].mac == m;
      assert rs[..|rs| - 1][j].mac == m;
    }
  }

  /** The sensor a put evicts: the one heard longest ago, when the put brings a sensor
      that is not in a full table. */
  ghost predicate Evicts(c: Cache, adv: Report, m: Mac) {
    !Resident(c.lru, adv.mac) && |c.lru| == MAX_ADVS && m == c.lru[MAX_ADVS - 1].mac
  }

  /** A put keeps every sensor, except the one it evicts, and adds its own. */
  lemma PutResidents(c: Cache, adv: Report, m: Mac)
    requires Wf(c)
    ensures Resident(Put(c, adv).lru, m) <==>
              m == adv.mac || (Resident(c.lru, m) && !Evicts(c, adv, m))
  {
    var rs, i := c.lru, Find(c.lru, adv.mac);
    if i < |rs| {
      var counter := AddU32(rs[i].counter, 1);
      if MustDiscard(adv, rs[i]) {
        SameMacsFind(rs, rs[i := rs[i].(counter := counter)], m);
      } else {
        PromoteResidents(rs, i, adv.(counter := counter), m);
      }
    } else if |rs| < MAX_ADVS {
      PushResidents(rs, adv, m);
    } else {
      EvictResidents(rs, m);
      PushResidents(rs[..|rs| - 1], adv, m);
    }
  }

  lemma PutWf(c: Cache, adv: Report)
    requires Wf(c)
    ensures Wf(Put(c, adv))
  {
    var c' := Put(c, adv);
    var i := Find(c.lru, adv.mac);
    forall m ensures Resident(c'.lru, m) <==>
                       m == adv.mac || (Resident(c.lru, m) && !Evicts(c, adv, m)) {
      PutResidents(c, adv, m);
    }
    if i < |c.lru| {
      if !MustDiscard(adv, c.lru[i]) {
        EnqueueWf(c.lru, c'.lru, c.q1, adv.mac);
        EnqueueWf(c.lru, c'.lru, c.q2, adv.mac);
        EnqueueWf(c.lru, c'.lru, c.q3, adv.mac);
      }
    } else if |c.lru| < MAX_ADVS {
      AppendWf(c.lru, c'.lru, c.q1, adv.mac);
      AppendWf(c.lru, c'.lru, c.q2, adv.mac);
      AppendWf(c.lru, c'.lru, c.q3, adv.mac);
    } else {
      var evicted := c.lru[MAX_ADVS - 1].mac;
      InheritWf(c.lru, c'.lru, c.q1, evicted, adv.mac);
      InheritWf(c.lru, c'.lru, c.q2, evicted, adv.mac);
      InheritWf(c.lru, c'.lru, c.q3, evicted, adv.mac);
    }
  }

  /** Replacing reports one for one by reports of the same sensors keeps every lookup. */
  lemma SameMacsFind(rs: seq<Report>, rs': seq<Report>, m: Mac)
    requires |rs| == |rs'| && forall i :: 0 <= i < |rs| ==> rs'[i].mac == rs[i].mac
    ensures Find(rs', m) == Find(rs, m)
    ensures Resident(rs', m) <==> Resident(rs, m)
  {
    if Resident(rs, m) { assert rs'[Find(rs, m)].mac == m; }
  }

  lemma SameMacsWf(c: Cache, c': Cache)
    requires Wf(c) && |c.lru| == |c'.lru|
    requires forall i :: 0 <= i < |c.lru| ==> c'.lru[i].mac == c.lru[i].mac
    requires c'.q1 == c.q1 && c'.q2 == c.q2 && c'.q3 == c.q3
    ensures Wf(c')
  {
    forall m ensures Resident(c'.lru, m) == Resident(c.lru, m) { SameMacsFind(c.lru, c'.lru, m); }
  }

  // ---------------------------------------------------------------- runs

  /** One operation; operations on a cache that no run reaches leave it alone. */
  ghost function Apply(c: Cache, e: Event): Cache {
    if !Wf(c) then c else
    match e
    case PutAdv(adv) => Put(c, adv)
    case DrainList(k) => Drain(c, k).0
    case PopList3 => PopHead(c).0
    case ClearTable => Clear(c)
    case ReadStatistics => Statistics(c).0
  }

  lemma ApplyWf(c: Cache, e: Event)
    requires Wf(c)
    ensures Wf(Apply(c, e))
  {
    match e
    case PutAdv(adv) => PutWf(c, adv);
    case DrainList(k) =>
    case PopList3 =>
    case ClearTable =>
      SameMacsWf(c, c.(lru := Clear(c).lru));
    case ReadStatistics =>
      SameMacsWf(c, Statistics(c).0);
  }

  ghost function Before(events: seq<Event>): seq<Event>
    requires events != []
  {
    events[..|events| - 1]
  }

  ghost function Last(events: seq<Event>): Event
    requires events != []
  {
    events[|events| - 1]
  }

  /** The cache after a run from the empty table. */
  ghost function Run(events: seq<Event>): Cache {
    if events == [] then EMPTY else Apply(Run(Before(events)), Last(events))
  }

  /** Every reachable cache is well formed. */
  lemma {:induction false} RunWf(events: seq<Event>)
    ensures Wf(Run(events))
  {
    if events != [] {
      RunWf(Before(events));
      ApplyWf(Run(Before(events)), Last(events));
    }
  }

  // ---------------------------------------------------------------- the reference log

  /** The last report of each sensor of a log, latest first. */
  function Latest(log: seq<Report>): seq<Report> {
    if log == [] then []
    else Latest(log[1..]) + if Resident(log[1..], log[0].mac) then [] else [log[0]]
  }

  /** The last reports of the hundred sensors heard most recently. */
  function Newest(log: seq<Report>): seq<Report> {
    var l := Latest(log);
    l[..Min(100, |l|)]
  }

  /** Acceptance, decided from the log alone. */
  ghost predicate LogAccepts(log: seq<Report>, adv: Report) {
    forall r :: r in Newest(log) && r.mac == adv.mac ==>
                  r.data != adv.data && (|r.data| <= 31 || |adv.data| > 31)
  }

  /** The accepted puts since the last clear, oldest first. */
  ghost function Log(events: seq<Event>): seq<Report> {
    if events == [] then []
    else
      var log := Log(Before(events));
      match Last(events)
      case PutAdv(adv) => if LogAccepts(log, adv) then log + [adv] else log
      case ClearTable => []
      case _ => log
  }

  /** Puts carry data: the parser of received advertisements rejects empty ones. */
  ghost predicate PutsCarryData(events: seq<Event>) {
    forall i :: 0 <= i < |events| && events[i].PutAdv? ==> events[i].adv.data != []
  }

  ghost predicate SameButCounter(r: Report, s: Report) {
    r.(counter := 0) == s.(counter := 0)
  }

  ghost predicate AllSameButCounter(rs: seq<Report>, ss: seq<Report>) {
    |rs| == |ss| && forall i :: 0 <= i < |rs| ==> SameButCounter(rs[i], ss[i])
  }

  // ---------------------------------------------------------------- facts about the log

  /** The reports of all other sensors. */
  function DropMac(rs: seq<Report>, mac: Mac): seq<Report> {
    if rs == [] then []
    else (if rs[0].mac == mac then [] else [rs[0]]) + DropMac(rs[1..], mac)
  }

  lemma {:induction false} DropMacConcat(a: seq<Report>, b: seq<Report>, mac: Mac)
    ensures DropMac(a + b, mac) == DropMac(a, mac) + DropMac(b, mac)
  {
    if a == [] {
      assert a + b == b;
    } else {
      assert (a + b)[1..] == a[1..] + b;
      DropMacConcat(a[1..], b, mac);
    }
  }

  lemma {:induction false} DropMacAbsent(rs: seq<Report>, mac: Mac)
    requires forall i :: 0 <= i < |rs| ==> rs[i].mac != mac
    ensures DropMac(rs, mac) == rs
  {
    if rs != [] {
      DropMacAbsent(rs[1..], mac);
    }
  }

  /** Dropping a sensor of a repetition-free sequence removes one position. */
  lemma {:induction false} DropMacWithout(rs: seq<Report>, i: nat)
    requires DistinctMacs(rs) && i < |rs|
    ensures DropMac(rs, rs[i].mac) == Without(rs, i)
  {
    if i == 0 {
      DropMacAbsent(rs[1..], rs[0].mac);
    } else {
      DropMacWithout(rs[1..], i - 1);
      assert [rs[0]] + Without(rs[1..], i - 1) == Without(rs, i);
    }
  }

  lemma ResidentSum(rs: seq<Report>, rs': seq<Report>, m: Mac)
    ensures Resident(rs + rs', m) <==> Resident(rs, m) || Resident(rs', m)
  {
    var all := rs + rs';
    if Resident(rs, m) {
      var i :| 0 <= i < |rs| && rs[i].mac == m;
      assert all[i].mac == m;
    }
    if Resident(rs', m) {
      var i :| 0 <= i < |rs'| && rs'[i].mac == m;
      assert all[|rs| + i].mac == m;
    }
  }

  lemma {:induction false} LatestMacs(log: seq<Report>, m: Mac)
    ensures Resident(Latest(log), m) <==> Resident(log, m)
  {
    if log != [] {
      var rest := log[1..];
      LatestMacs(rest, m);
      assert log == [log[0]] + rest;
      ResidentSum([log[0]], rest, m);
      ResidentSum(Latest(rest), [log[0]], m);
      assert Resident([log[0]], m) <==> log[0].mac == m by {
        assert [log[0]][0] == log[0];
      }
      if Resident(rest, log[0].mac) {
        assert Latest(log) == Latest(rest);
      }
    }
  }

  lemma {:induction false} LatestDistinct(log: seq<Report>)
    ensures DistinctMacs(Latest(log))
  {
    if log != [] {
      LatestDistinct(log[1..]);
      LatestMacs(log[1..], log[0].mac);
    }
  }

  lemma ResidentSnoc(rs: seq<Report>, x: Report, m: Mac)
    ensures Resident(rs + [x], m) <==> Resident(rs, m) || x.mac == m
  {
    if Resident(rs, m) {
      var i :| 0 <= i < |rs| && rs[i].mac == m;
      assert (rs + [x])[i].mac == m;
    }
    assert (rs + [x])[|rs|] == x;
  }

  /** Accepting one more report moves its sensor to the front. */
  lemma {:induction false} LatestSnoc(log: seq<Report>, x: Report)
    ensures Latest(log + [x]) == [x] + DropMac(Latest(log), x.mac)
  {
    if log == [] {
      assert log + [x] == [x];
      assert Latest([x]) == [x];
    } else {
      var a, t := log[0], log[1..];
      var s := if Resident(t, a.mac) then [] else [a];
      calc {
        Latest(log + [x]);
        { assert (log + [x])[1..] == t + [x]; assert (log + [x])[0] == a; }
        Latest(t + [x]) + if Resident(t + [x], a.mac) then [] else [a];
        { LatestSnoc(t, x); ResidentSnoc(t, x, a.mac); }
        [x] + DropMac(Latest(t), x.mac) + DropMac(s, x.mac);
        { assert forall p: seq<Report>, q, r :: p + q + r == p + (q + r); }
        [x] + (DropMac(Latest(t), x.mac) + DropMac(s, x.mac));
        { DropMacConcat(Latest(t), s, x.mac); }
        [x] + DropMac(Latest(log), x.mac);
      }
    }
  }

  function Truncated(rs: seq<Report>): seq<Report> {
    rs[..Min(100, |rs|)]
  }

  lemma {:induction false} DropMacLength(rs: seq<Report>, mac: Mac)
    requires DistinctMacs(rs)
    ensures |rs| - 1 <= |DropMac(rs, mac)| <= |rs|
    ensures !Resident(rs, mac) ==> |DropMac(rs, mac)| == |rs|
  {
    if Resident(rs, mac) {
      FindUnique(rs, Find(rs, mac));
      DropMacWithout(rs, Find(rs, mac));
    } else {
      DropMacAbsent(rs, mac);
    }
  }

  lemma NewestSnoc(log: seq<Report>, x: Report)
    ensures Newest(log + [x]) == Truncated([x] + DropMac(Newest(log), x.mac))
  {
    var l := Latest(log);
    LatestSnoc(log, x);
    LatestDistinct(log);
    if |l| > MAX_ADVS {
      var n, t := l[..MAX_ADVS], l[MAX_ADVS..];
      assert l == n + t;
      DropMacConcat(n, t, x.mac);
      DropMacLength(n, x.mac);
    } else {
      assert Newest(log) == l;
    }
  }
}
