/** The advertisement table as a pool of slots: reports, the history order of the slots and
    the slots that wait in each queue. It refines the cache of AdvCache, and class AdvTable
    implements it with linked lists. */
module AdvPool {
  import opened Common
  import opened AdvCache
  import AdvRuns

  /** `hist` lists all slots; the first `hashed` of them are in the hash table. */
  datatype Pool = Pool(reports: seq<Report>, hist: seq<nat>, hashed: nat, q1: seq<nat>, q2: seq<nat>, q3: seq<nat>) {
    function Q(k: Queue): seq<nat> {
      match k case List1 => q1 case List2 => q2 case List3 => q3
    }

    function WithQ(k: Queue, q: seq<nat>): Pool {
      match k case List1 => this.(q1 := q) case List2 => this.(q2 := q) case List3 => this.(q3 := q)
    }
  }

  ghost predicate HistWf(hist: seq<nat>) {
    |hist| == MAX_ADVS && Distinct(hist) && forall i :: 0 <= i < |hist| ==> hist[i] < MAX_ADVS
  }

  ghost predicate SlotQueueWf(hist: seq<nat>, hashed: nat, q: seq<nat>)
    requires hashed <= |hist|
  {
    Distinct(q) && forall s :: s in q ==> s in hist[..hashed]
  }

  /** What every reachable pool satisfies; `hist` is a permutation of the slots. */
  ghost predicate PoolWf(p: Pool) {
    && |p.reports| == MAX_ADVS
    && HistWf(p.hist)
    && p.hashed <= MAX_ADVS
    && SlotQueueWf(p.hist, p.hashed, p.q1)
    && SlotQueueWf(p.hist, p.hashed, p.q2)
    && SlotQueueWf(p.hist, p.hashed, p.q3)
    && DistinctMacs(Hashed(p))
    && forall i :: p.hashed <= i < MAX_ADVS ==> p.reports[p.hist[i]] == ZERO_REPORT
  }

  /** The reports of the given slots. */
  function ReportsOf(reports: seq<Report>, slots: seq<nat>): (r: seq<Report>)
    requires forall i :: 0 <= i < |slots| ==> slots[i] < |reports|
    ensures |r| == |slots|
    ensures forall i :: 0 <= i < |slots| ==> r[i] == reports[slots[i]]
  {
    seq(|slots|, i requires 0 <= i < |slots| => reports[slots[i]])
  }

  function MacsOf(reports: seq<Report>, slots: seq<nat>): (r: seq<Mac>)
    requires forall i :: 0 <= i < |slots| ==> slots[i] < |reports|
    ensures |r| == |slots|
    ensures forall i :: 0 <= i < |slots| ==> r[i] == reports[slots[i]].mac
  {
    seq(|slots|, i requires 0 <= i < |slots| => reports[slots[i]].mac)
  }

  ghost function Hashed(p: Pool): seq<Report>
    requires |p.reports| == MAX_ADVS && HistWf(p.hist) && p.hashed <= MAX_ADVS
  {
    ReportsOf(p.reports, p.hist[..p.hashed])
  }

  lemma QueueSlots(p: Pool, k: Queue)
    requires PoolWf(p)
    ensures SlotQueueWf(p.hist, p.hashed, p.Q(k))
    ensures forall i :: 0 <= i < |p.Q(k)| ==> p.Q(k)[i] < MAX_ADVS
    ensures |p.Q(k)| <= MAX_ADVS
  {
    var q := p.Q(k);
    assert SlotQueueWf(p.hist, p.hashed, q);
    forall i | 0 <= i < |q| ensures q[i] < MAX_ADVS {
      assert q[i] in p.hist[..p.hashed];
    }
    Pigeonhole(q, MAX_ADVS);
  }

  /** The cache that a pool implements. */
  ghost function Abs(p: Pool): Cache
    requires PoolWf(p)
  {
    QueueSlots(p, List1); QueueSlots(p, List2); QueueSlots(p, List3);
    assert forall i :: 0 <= i < |p.q1| ==> p.Q(List1)[i] < MAX_ADVS;
    assert forall i :: 0 <= i < |p.q2| ==> p.Q(List2)[i] < MAX_ADVS;
    assert forall i :: 0 <= i < |p.q3| ==> p.Q(List3)[i] < MAX_ADVS;
    Cache(Hashed(p), MacsOf(p.reports, p.q1), MacsOf(p.reports, p.q2), MacsOf(p.reports, p.q3))
  }

  // ---------------------------------------------------------------- operations on slots

  /** Empty slots, listed in the order of the array. */
  function Initial(): Pool {
    Pool(seq(MAX_ADVS, (i: nat) => ZERO_REPORT), seq(MAX_ADVS, (i: nat) => i), 0, [], [], [])
  }

  function EnqueueSlot(q: seq<nat>, s: nat): seq<nat> {
    if s in q then q else q + [s]
  }

  function ToFront(hist: seq<nat>, at: nat): seq<nat>
    requires at < |hist|
  {
    [hist[at]] + Without(hist, at)
  }

  /** The slot goes to the head of the history and, unless it waits there, into each queue. */
  function Touched(p: Pool, at: nat, r: Report): Pool
    requires at < |p.hist| && p.hist[at] < |p.reports|
  {
    var s := p.hist[at];
    Pool(p.reports[s := r], ToFront(p.hist, at), if at < p.hashed then p.hashed else p.hashed + 1,
         EnqueueSlot(p.q1, s), EnqueueSlot(p.q2, s), EnqueueSlot(p.q3, s))
  }

  /** The position in the history of the slot that holds a sensor. */
  ghost function SlotOf(p: Pool, mac: Mac): (i: nat)
    requires PoolWf(p)
    ensures i <= p.hashed
  {
    Find(Hashed(p), mac)
  }

  ghost predicate PoolAccepts(p: Pool, adv: Report)
    requires PoolWf(p)
  {
    var at := SlotOf(p, adv.mac);
    at == p.hashed || !MustDiscard(adv, p.reports[p.hist[at]])
  }

  ghost function PoolPut(p: Pool, adv: Report): Pool
    requires PoolWf(p)
  {
    var at := SlotOf(p, adv.mac);
    if at < p.hashed then
      var s := p.hist[at];
      var counter := AddU32(p.reports[s].counter, 1);
      if MustDiscard(adv, p.reports[s]) then
        p.(reports := p.reports[s := p.reports[s].(counter := counter)])
      else
        Touched(p, at, adv.(counter := counter))
    else
      Touched(p, MAX_ADVS - 1, adv)
  }

  ghost function PoolDrain(p: Pool, k: Queue): (Pool, seq<Report>)
    requires PoolWf(p)
  {
    QueueSlots(p, k);
    (p.WithQ(k, []), ReportsOf(p.reports, p.Q(k)))
  }

  ghost function PoolPop(p: Pool): (Pool, Option<Report>)
    requires PoolWf(p)
  {
    QueueSlots(p, List3);
    assert p.Q(List3) == p.q3;
    if p.q3 == [] then (p, None) else (p.(q3 := p.q3[1..]), Some(p.reports[p.q3[0]]))
  }

  function EraseAll(reports: seq<Report>): seq<Report> {
    seq(|reports|, i requires 0 <= i < |reports| => Erased(reports[i]))
  }

  function PoolClear(p: Pool): Pool {
    p.(reports := EraseAll(p.reports), q1 := [], q2 := [], q3 := [])
  }

  ghost function PoolHistory(p: Pool, f: HistoryFilter): seq<Report>
    requires PoolWf(p)
  {
    ReportsOf(p.reports, p.hist[..ScanLen(ReportsOf(p.reports, p.hist), f)])
  }

  /** The slots whose counters a statistics read resets: the history up to a zero timestamp. */
  ghost function Reset(p: Pool): seq<nat>
    requires PoolWf(p)
  {
    p.hist[..PrefixLen(ReportsOf(p.reports, p.hist), HasTimestamp)]
  }

  function ResetCounters(reports: seq<Report>, slots: seq<nat>): (r: seq<Report>)
    ensures |r| == |reports|
    ensures forall s :: 0 <= s < |r| ==> r[s] == if s in slots then reports[s].(counter := 0) else reports[s]
  {
    seq(|reports|, s requires 0 <= s < |reports| => if s in slots then reports[s].(counter := 0) else reports[s])
  }

  ghost function PoolStatistics(p: Pool): (Pool, seq<Report>)
    requires PoolWf(p)
  {
    var slots := Reset(p);
    (p.(reports := ResetCounters(p.reports, slots)), ReportsOf(p.reports, slots))
  }

  // ---------------------------------------------------------------- refinement

  /** Slots are hashed exactly when they stand in the leading part of the history. */
  lemma HashedSlot(p: Pool, i: nat)
    requires PoolWf(p) && i < MAX_ADVS
    ensures p.hist[i] in p.hist[..p.hashed] <==> i < p.hashed
  {
    if i < p.hashed { assert p.hist[..p.hashed][i] == p.hist[i]; }
  }

  lemma {:induction false} InitialWf()
    ensures PoolWf(Initial()) && Abs(Initial()) == EMPTY
  {
  }

  /** Slots with the same sensor are the same slot, so a queue of slots contains a slot
      exactly when it contains the slot's sensor. */
  lemma QueueMember(p: Pool, q: seq<nat>, at: nat)
    requires PoolWf(p) && SlotQueueWf(p.hist, p.hashed, q) && at < p.hashed
    requires forall i :: 0 <= i < |q| ==> q[i] < MAX_ADVS
    ensures p.hist[at] in q <==> p.reports[p.hist[at]].mac in MacsOf(p.reports, q)
  {
    var s, macs := p.hist[at], MacsOf(p.reports, q);
    if s in q {
      var i :| 0 <= i < |q| && q[i] == s;
      assert macs[i] == p.reports[s].mac;
    }
    if p.reports[s].mac in macs {
      var i :| 0 <= i < |q| && macs[i] == p.reports[s].mac;
      SameSensor(p, q, i, at);
    }
  }

  lemma SameSensor(p: Pool, q: seq<nat>, i: nat, at: nat)
    requires PoolWf(p) && SlotQueueWf(p.hist, p.hashed, q) && at < p.hashed && i < |q|
    requires q[i] < MAX_ADVS && p.reports[q[i]].mac == p.reports[p.hist[at]].mac
    ensures q[i] == p.hist[at]
  {
    assert q[i] in q;
    var j :| 0 <= j < p.hashed && p.hist[..p.hashed][j] == q[i];
    assert Hashed(p)[j].mac == Hashed(p)[at].mac;
  }

  /** Renewing the report of a slot's own sensor. */
  lemma EnqueueRefines(p: Pool, q: seq<nat>, at: nat, r: Report)
    requires PoolWf(p) && SlotQueueWf(p.hist, p.hashed, q) && at < p.hashed
    requires forall i :: 0 <= i < |q| ==> q[i] < MAX_ADVS
    requires r.mac == p.reports[p.hist[at]].mac
    ensures var s := p.hist[at];
            MacsOf(p.reports[s := r], EnqueueSlot(q, s)) == Enqueue(MacsOf(p.reports, q), r.mac)
  {
    QueueMember(p, q, at);
  }

  /** Giving the slot of a hashed sensor to a sensor that is not in the table. */
  lemma InheritRefines(p: Pool, q: seq<nat>, at: nat, r: Report)
    requires PoolWf(p) && SlotQueueWf(p.hist, p.hashed, q) && at < p.hashed
    requires forall i :: 0 <= i < |q| ==> q[i] < MAX_ADVS
    ensures var s := p.hist[at];
            MacsOf(p.reports[s := r], EnqueueSlot(q, s))
            == Inherit(MacsOf(p.reports, q), p.reports[s].mac, r.mac)
  {
    var s := p.hist[at];
    QueueMember(p, q, at);
    if s in q {
      var macs' := MacsOf(p.reports[s := r], q);
      forall i | 0 <= i < |q|
        ensures macs'[i] == if p.reports[q[i]].mac == p.reports[s].mac then r.mac else p.reports[q[i]].mac {
        if p.reports[q[i]].mac == p.reports[s].mac {
          SameSensor(p, q, i, at);
        }
      }
    }
  }

  /** Using a slot that is not hashed yet. */
  lemma AppendRefines(p: Pool, q: seq<nat>, at: nat, r: Report)
    requires PoolWf(p) && SlotQueueWf(p.hist, p.hashed, q) && p.hashed <= at < MAX_ADVS
    requires forall i :: 0 <= i < |q| ==> q[i] < MAX_ADVS
    ensures var s := p.hist[at];
            s !in q && MacsOf(p.reports[s := r], EnqueueSlot(q, s)) == MacsOf(p.reports, q) + [r.mac]
  {
    HashedSlot(p, at);
    assert p.hist[at] !in q;
  }

  lemma ToFrontAt(hist: seq<nat>, at: nat, i: nat)
    requires at < |hist| && i < |hist|
    ensures |ToFront(hist, at)| == |hist|
    ensures ToFront(hist, at)[i] == hist[if i == 0 then at else if i <= at then i - 1 else i]
  {
  }

  lemma ToFrontWf(hist: seq<nat>, at: nat)
    requires HistWf(hist) && at < |hist|
    ensures HistWf(ToFront(hist, at))
  {
    forall i | 0 <= i < |hist|
      ensures ToFront(hist, at)[i] == hist[if i == 0 then at else if i <= at then i - 1 else i] {
      ToFrontAt(hist, at, i);
    }
  }

  /** The leading slots after a move are the leading slots before and the moved one. */
  lemma ToFrontMembers(hist: seq<nat>, at: nat, n: nat, s: nat)
    requires at < |hist| && n <= |hist| && (at < n || n < |hist|)
    ensures var n' := if at < n then n else n + 1;
            s in ToFront(hist, at)[..n'] <==> s == hist[at] || s in hist[..n]
  {
    var h, h' := hist[..n], ToFront(hist, at)[..if at < n then n else n + 1];
    if s in h {
      var i :| 0 <= i < |h| && h[i] == s;
      assert h'[if i == at then 0 else if i < at then i + 1 else i] == s;
    }
    if s == hist[at] { assert h'[0] == s; }
    if s in h' && s != hist[at] {
      var i :| 0 <= i < |h'| && h'[i] == s;
      assert h[if i <= at then i - 1 else i] == s;
    }
  }

  /** The hashed reports after a slot took report r and moved to the head. */
  lemma ToFrontReports(reports: seq<Report>, hist: seq<nat>, at: nat, n: nat, r: Report)
    requires |reports| == MAX_ADVS && HistWf(hist) && at < MAX_ADVS && n <= MAX_ADVS && (at < n || n < MAX_ADVS)
    requires at < n || at == MAX_ADVS - 1
    ensures HistWf(ToFront(hist, at))
    ensures var n' := if at < n then n else n + 1;
            ReportsOf(reports[hist[at] := r], ToFront(hist, at)[..n'])
            == [r] + (if at < n then Without(ReportsOf(reports, hist[..n]), at) else ReportsOf(reports, hist[..n]))
  {
    ToFrontWf(hist, at);
    var n' := if at < n then n else n + 1;
    var rs, rs' := ReportsOf(reports, hist[..n]), ReportsOf(reports[hist[at] := r], ToFront(hist, at)[..n']);
    var w := if at < n then Without(rs, at) else rs;
    assert rs'[0] == r;
    forall j | 1 <= j < n' ensures rs'[j] == w[j - 1] {
      ToFrontAt(hist, at, j);
    }
  }

  /** The slots that are not hashed stay empty. */
  lemma ToFrontRest(p: Pool, at: nat, r: Report, i: nat)
    requires PoolWf(p) && at < MAX_ADVS && (at < p.hashed || at == MAX_ADVS - 1)
    requires Touched(p, at, r).hashed <= i < MAX_ADVS
    ensures Touched(p, at, r).hist[i] < MAX_ADVS
    ensures Touched(p, at, r).reports[Touched(p, at, r).hist[i]] == ZERO_REPORT
  {
    ToFrontAt(p.hist, at, i);
    var l := if i <= at then i - 1 else i;
    assert p.hashed <= l && l != at && p.hist[l] != p.hist[at];
  }

  lemma TouchedQueue(p: Pool, at: nat, r: Report, q: seq<nat>)
    requires PoolWf(p) && at < MAX_ADVS && (at < p.hashed || at == MAX_ADVS - 1)
    requires SlotQueueWf(p.hist, p.hashed, q)
    ensures var p' := Touched(p, at, r);
            p'.hashed <= |p'.hist| && SlotQueueWf(p'.hist, p'.hashed, EnqueueSlot(q, p.hist[at]))
  {
    ToFrontWf(p.hist, at);
    forall s | s in EnqueueSlot(q, p.hist[at]) ensures s in Touched(p, at, r).hist[..Touched(p, at, r).hashed] {
      ToFrontMembers(p.hist, at, p.hashed, s);
    }
  }

  lemma DistinctPush(rs: seq<Report>, r: Report)
    requires DistinctMacs(rs) && forall i :: 0 <= i < |rs| ==> rs[i].mac != r.mac
    ensures DistinctMacs([r] + rs)
  {
  }

  lemma TouchedWf(p: Pool, at: nat, r: Report)
    requires PoolWf(p) && at < MAX_ADVS && (at < p.hashed || at == MAX_ADVS - 1)
    requires forall i :: 0 <= i < p.hashed && i != at ==> Hashed(p)[i].mac != r.mac
    ensures PoolWf(Touched(p, at, r))
    ensures Hashed(Touched(p, at, r)) == [r] + (if at < p.hashed then Without(Hashed(p), at) else Hashed(p))
  {
    ToFrontReports(p.reports, p.hist, at, p.hashed, r);
    TouchedQueue(p, at, r, p.q1);
    TouchedQueue(p, at, r, p.q2);
    TouchedQueue(p, at, r, p.q3);
    DistinctPush(if at < p.hashed then Without(Hashed(p), at) else Hashed(p), r);
    forall i | Touched(p, at, r).hashed <= i < MAX_ADVS
      ensures Touched(p, at, r).hist[i] < MAX_ADVS
      ensures Touched(p, at, r).reports[Touched(p, at, r).hist[i]] == ZERO_REPORT {
      ToFrontRest(p, at, r, i);
    }
  }

  /** Putting a report on slots does what putting it in the cache does. */
  lemma PutRefines(p: Pool, adv: Report)
    requires PoolWf(p)
    ensures PoolWf(PoolPut(p, adv)) && Abs(PoolPut(p, adv)) == Put(Abs(p), adv)
  {
    QueueSlots(p, List1); QueueSlots(p, List2); QueueSlots(p, List3);
    var at := SlotOf(p, adv.mac);
    if at < p.hashed {
      var s := p.hist[at];
      var counter := AddU32(p.reports[s].counter, 1);
      if MustDiscard(adv, p.reports[s]) {
        DiscardRefines(p, at, p.reports[s].(counter := counter));
      } else {
        var r := adv.(counter := counter);
        TouchedWf(p, at, r);
        EnqueueRefines(p, p.Q(List1), at, r);
        EnqueueRefines(p, p.Q(List2), at, r);
        EnqueueRefines(p, p.Q(List3), at, r);
      }
    } else {
      var last := MAX_ADVS - 1;
      TouchedWf(p, last, adv);
      if p.hashed < MAX_ADVS {
        AppendRefines(p, p.Q(List1), last, adv);
        AppendRefines(p, p.Q(List2), last, adv);
        AppendRefines(p, p.Q(List3), last, adv);
      } else {
        InheritRefines(p, p.Q(List1), last, adv);
        InheritRefines(p, p.Q(List2), last, adv);
        InheritRefines(p, p.Q(List3), last, adv);
        assert Without(Hashed(p), last) == Hashed(p)[..last];
      }
    }
  }

  lemma DiscardRefines(p: Pool, at: nat, r: Report)
    requires PoolWf(p) && at < p.hashed && r.mac == p.reports[p.hist[at]].mac
    ensures var p' := p.(reports := p.reports[p.hist[at] := r]);
            && PoolWf(p') && Hashed(p') == Hashed(p)[at := r]
            && Abs(p') == Abs(p).(lru := Hashed(p'))
  {
    var p' := p.(reports := p.reports[p.hist[at] := r]);
    assert Hashed(p') == Hashed(p)[at := r];
    QueueSlots(p, List1); QueueSlots(p, List2); QueueSlots(p, List3);
    assert MacsOf(p'.reports, p.Q(List1)) == MacsOf(p.reports, p.Q(List1));
    assert MacsOf(p'.reports, p.Q(List2)) == MacsOf(p.reports, p.Q(List2));
    assert MacsOf(p'.reports, p.Q(List3)) == MacsOf(p.reports, p.Q(List3));
  }

  lemma WaitingReport(p: Pool, k: Queue, i: nat)
    requires PoolWf(p) && i < |p.Q(k)|
    ensures p.Q(k)[i] < MAX_ADVS
    ensures Resident(Hashed(p), p.reports[p.Q(k)[i]].mac)
    ensures Lookup(Hashed(p), p.reports[p.Q(k)[i]].mac) == p.reports[p.Q(k)[i]]
  {
    QueueSlots(p, k);
    assert p.Q(k)[i] in p.Q(k);
    var j :| 0 <= j < p.hashed && p.hist[..p.hashed][j] == p.Q(k)[i];
    assert Hashed(p)[j] == p.reports[p.Q(k)[i]];
    FindUnique(Hashed(p), j);
  }

  lemma DrainRefines(p: Pool, k: Queue)
    requires PoolWf(p)
    ensures Wf(Abs(p)) && PoolWf(PoolDrain(p, k).0)
    ensures Abs(PoolDrain(p, k).0) == Drain(Abs(p), k).0 && PoolDrain(p, k).1 == Drain(Abs(p), k).1
  {
    AbsWf(p);
    forall i | 0 <= i < |p.Q(k)|
      ensures p.Q(k)[i] < MAX_ADVS && Abs(p).Q(k)[i] == p.reports[p.Q(k)[i]].mac
      ensures Resident(Hashed(p), p.reports[p.Q(k)[i]].mac)
      ensures Lookup(Hashed(p), p.reports[p.Q(k)[i]].mac) == p.reports[p.Q(k)[i]] {
      WaitingReport(p, k, i);
    }
  }

  lemma QueueAbsWf(p: Pool, k: Queue)
    requires PoolWf(p)
    ensures QueueWf(Hashed(p), Abs(p).Q(k))
  {
    var q, macs := p.Q(k), Abs(p).Q(k);
    QueueSlots(p, k);
    forall i | 0 <= i < |q| ensures Resident(Hashed(p), macs[i]) {
      WaitingReport(p, k, i);
    }
    forall i, j | 0 <= i < j < |q| ensures macs[i] != macs[j] {
      assert q[j] in q;
      var l :| 0 <= l < p.hashed && p.hist[..p.hashed][l] == q[j];
      if macs[i] == macs[j] {
        SameSensor(p, q, i, l);
      }
    }
  }

  /** A well-formed pool implements a well-formed cache. */
  lemma AbsWf(p: Pool)
    requires PoolWf(p)
    ensures Wf(Abs(p))
  {
    QueueAbsWf(p, List1);
    QueueAbsWf(p, List2);
    QueueAbsWf(p, List3);
  }

  lemma PopRefines(p: Pool)
    requires PoolWf(p)
    ensures Wf(Abs(p)) && PoolWf(PoolPop(p).0)
    ensures Abs(PoolPop(p).0) == PopHead(Abs(p)).0 && PoolPop(p).1 == PopHead(Abs(p)).1
  {
    AbsWf(p);
    if p.q3 != [] {
      WaitingReport(p, List3, 0);
      assert forall i :: 0 <= i < |p.q3[1..]| ==> p.q3[1..][i] in p.q3;
      assert MacsOf(p.reports, p.q3[1..]) == Abs(p).q3[1..];
    }
  }

  lemma ClearRefines(p: Pool)
    requires PoolWf(p)
    ensures PoolWf(PoolClear(p)) && Abs(PoolClear(p)) == Clear(Abs(p))
  {
    var p' := PoolClear(p);
    assert forall i :: 0 <= i < p.hashed ==> Hashed(p')[i] == Erased(Hashed(p)[i]);
  }

  lemma {:induction false} PrefixLenAppend(a: seq<Report>, b: seq<Report>, p: Report -> bool)
    requires b == [] || !p(b[0])
    ensures PrefixLen(a + b, p) == PrefixLen(a, p)
  {
    if a == [] {
      assert a + b == b;
    } else {
      assert (a + b)[1..] == a[1..] + b;
      PrefixLenAppend(a[1..], b, p);
    }
  }

  lemma {:induction false} ScanLenAppend(a: seq<Report>, b: seq<Report>, f: HistoryFilter)
    requires b == [] || !Wanted(f, b[0])
    ensures ScanLen(a + b, f) == ScanLen(a, f)
  {
    if a == [] {
      assert a + b == b;
    } else {
      assert (a + b)[1..] == a[1..] + b;
      ScanLenAppend(a[1..], b, f);
    }
  }

  /** The history lists the hashed reports and then empty ones. */
  lemma HistReports(p: Pool)
    requires PoolWf(p)
    ensures var b := ReportsOf(p.reports, p.hist[p.hashed..]);
            ReportsOf(p.reports, p.hist) == Hashed(p) + b && (b == [] || b[0] == ZERO_REPORT)
  {
  }

  lemma HistoryRefines(p: Pool, f: HistoryFilter)
    requires PoolWf(p)
    ensures PoolHistory(p, f) == History(Abs(p), f)
  {
    HistReports(p);
    ScanLenAppend(Hashed(p), ReportsOf(p.reports, p.hist[p.hashed..]), f);
  }

  /** Resetting counters changes no sensor, so the pool stays well formed. */
  lemma ResetWf(p: Pool, slots: seq<nat>)
    requires PoolWf(p)
    ensures var p' := p.(reports := ResetCounters(p.reports, slots));
            PoolWf(p') && Abs(p') == Abs(p).(lru := Hashed(p'))
  {
    var p' := p.(reports := ResetCounters(p.reports, slots));
    assert forall i :: 0 <= i < p.hashed ==> Hashed(p')[i].mac == Hashed(p)[i].mac;
    assert PoolWf(p');
    QueueSlots(p, List1); QueueSlots(p, List2); QueueSlots(p, List3);
    assert MacsOf(p'.reports, p.Q(List1)) == MacsOf(p.reports, p.Q(List1));
    assert MacsOf(p'.reports, p.Q(List2)) == MacsOf(p.reports, p.Q(List2));
    assert MacsOf(p'.reports, p.Q(List3)) == MacsOf(p.reports, p.Q(List3));
  }

  lemma ResetIs(p: Pool)
    requires PoolWf(p)
    ensures |Reset(p)| == PrefixLen(Hashed(p), HasTimestamp) <= p.hashed
    ensures forall i :: 0 <= i < MAX_ADVS ==> (p.hist[i] in Reset(p) <==> i < |Reset(p)|)
  {
    HistReports(p);
    PrefixLenAppend(Hashed(p), ReportsOf(p.reports, p.hist[p.hashed..]), HasTimestamp);
    var slots := Reset(p);
    forall i | 0 <= i < MAX_ADVS ensures p.hist[i] in slots <==> i < |slots| {
      if i < |slots| { assert slots[i] == p.hist[i]; }
    }
  }

  /** Where a history read stops: behind the first slots that hold data and are not too old. */
  lemma HistoryStops(p: Pool, f: HistoryFilter)
    requires PoolWf(p)
    ensures var out := PoolHistory(p, f);
            && |out| <= MAX_ADVS
            && (forall i :: 0 <= i < |out| ==>
                  var r := p.reports[p.hist[i]];
                  out[i] == r && r.data != []
                  && (!f.useFilter || if f.useTimestamps then SubU32(f.curTime, r.timestamp) <= f.filter
                                      else 0 < ToSigned(SubU32(r.timestamp, f.filter))))
            && (|out| < MAX_ADVS ==>
                  var r := p.reports[p.hist[|out|]];
                  r.data == []
                  || (f.useFilter && if f.useTimestamps then SubU32(f.curTime, r.timestamp) > f.filter
                                     else ToSigned(SubU32(r.timestamp, f.filter)) <= 0))
  {
    var rs := ReportsOf(p.reports, p.hist);
    var n := ScanLen(rs, f);
    assert PoolHistory(p, f) == ReportsOf(p.reports, p.hist[..n]);
    assert n < MAX_ADVS ==> !Wanted(f, rs[n]);
  }

  lemma ResetHashed(p: Pool, slots: seq<nat>, n: nat)
    requires PoolWf(p) && n <= p.hashed
    requires forall i :: 0 <= i < MAX_ADVS ==> (p.hist[i] in slots <==> i < n)
    ensures Hashed(p.(reports := ResetCounters(p.reports, slots)))
         == seq(p.hashed, i requires 0 <= i < p.hashed =>
              if i < n then Hashed(p)[i].(counter := 0) else Hashed(p)[i])
  {
  }

  lemma ReportedSlots(p: Pool)
    requires PoolWf(p)
    ensures PoolStatistics(p).1 == Statistics(Abs(p)).1
  {
    ResetIs(p);
  }

  lemma StatisticsRefines(p: Pool)
    requires PoolWf(p)
    ensures PoolWf(PoolStatistics(p).0)
    ensures Abs(PoolStatistics(p).0) == Statistics(Abs(p)).0 && PoolStatistics(p).1 == Statistics(Abs(p)).1
  {
    ResetIs(p);
    ResetWf(p, Reset(p));
    ResetHashed(p, Reset(p), |Reset(p)|);
    ReportedSlots(p);
    assert Hashed(PoolStatistics(p).0) == Statistics(Abs(p)).0.lru;
  }

  // ---------------------------------------------------------------- order of the queues

  /** A run step on slots. */
  ghost function PoolApply(p: Pool, e: AdvRuns.Event): Pool
    requires PoolWf(p)
  {
    match e
    case PutAdv(adv) => PoolPut(p, adv)
    case DrainList(k) => PoolDrain(p, k).0
    case PopList3 => PoolPop(p).0
    case ClearTable => PoolClear(p)
    case ReadStatistics => PoolStatistics(p).0
  }

  /** Every step on slots does what the step on the cache does. */
  lemma StepRefines(p: Pool, e: AdvRuns.Event)
    requires PoolWf(p)
    ensures PoolWf(PoolApply(p, e)) && Abs(PoolApply(p, e)) == AdvRuns.Apply(Abs(p), e)
  {
    AbsWf(p);
    match e
    case PutAdv(adv) => PutRefines(p, adv);
    case DrainList(k) => DrainRefines(p, k);
    case PopList3 => PopRefines(p);
    case ClearTable => ClearRefines(p);
    case ReadStatistics => StatisticsRefines(p);
  }

  /** The pool after a run from the initial one. */
  ghost function PoolRun(events: seq<AdvRuns.Event>): (p: Pool)
    ensures PoolWf(p)
  {
    if events == [] then
      InitialWf();
      Initial()
    else
      StepRefines(PoolRun(AdvRuns.Before(events)), AdvRuns.Last(events));
      PoolApply(PoolRun(AdvRuns.Before(events)), AdvRuns.Last(events))
  }

  /** MAIN RESULT. Runs on slots refine runs on the cache. */
  lemma {:induction false} RunRefines(events: seq<AdvRuns.Event>)
    ensures Abs(PoolRun(events)) == AdvRuns.Run(events)
  {
    if events == [] {
      InitialWf();
    } else {
      RunRefines(AdvRuns.Before(events));
      StepRefines(PoolRun(AdvRuns.Before(events)), AdvRuns.Last(events));
    }
  }

  /** The slots that a step takes from the head of a queue: all, one or none. */
  ghost function TakenAt(p: Pool, e: AdvRuns.Event, k: Queue): seq<nat> {
    if e == AdvRuns.DrainList(k) then p.Q(k)
    else if e.PopList3? && k == List3 && p.q3 != [] then [p.q3[0]]
    else []
  }

  /** The slots that `more` takes from a queue, in this order, when it follows `events`. */
  ghost function Taken(events: seq<AdvRuns.Event>, more: seq<AdvRuns.Event>, k: Queue): seq<nat>
    decreases |more|
  {
    if more == [] then []
    else
      var b := AdvRuns.Before(more);
      Taken(events, b, k) + TakenAt(PoolRun(events + b), AdvRuns.Last(more), k)
  }

  lemma EnqueueExtends(q: seq<nat>, s: nat)
    ensures q <= EnqueueSlot(q, s)
  {
  }

  lemma PutExtends(p: Pool, adv: Report, k: Queue)
    requires PoolWf(p)
    ensures p.Q(k) <= PoolPut(p, adv).Q(k)
  {
    forall s ensures p.Q(k) <= EnqueueSlot(p.Q(k), s) {
      EnqueueExtends(p.Q(k), s);
    }
  }

  lemma DrainTakes(p: Pool, j: Queue, k: Queue)
    requires PoolWf(p)
    ensures p.Q(k) <= TakenAt(p, AdvRuns.DrainList(j), k) + PoolDrain(p, j).0.Q(k)
  {
    assert PoolDrain(p, j).0.Q(k) == if j == k then [] else p.Q(k);
  }

  lemma PopTakes(p: Pool, k: Queue)
    requires PoolWf(p)
    ensures p.Q(k) <= TakenAt(p, AdvRuns.PopList3, k) + PoolPop(p).0.Q(k)
  {
  }

  lemma ReadTakesNothing(p: Pool, k: Queue)
    requires PoolWf(p)
    ensures p.Q(k) == PoolStatistics(p).0.Q(k)
  {
  }

  lemma NothingTaken(was: seq<nat>, taken: seq<nat>, now: seq<nat>)
    requires was <= now && taken == []
    ensures was <= taken + now
  {
    assert taken + now == now;
  }

  lemma StepKeepsOrder(p: Pool, e: AdvRuns.Event, k: Queue)
    requires PoolWf(p) && !e.ClearTable?
    ensures p.Q(k) <= TakenAt(p, e, k) + PoolApply(p, e).Q(k)
  {
    match e
    case PutAdv(adv) =>
      PutExtends(p, adv, k);
      NothingTaken(p.Q(k), TakenAt(p, e, k), PoolApply(p, e).Q(k));
    case DrainList(j) => DrainTakes(p, j, k);
    case PopList3 => PopTakes(p, k);
    case ReadStatistics =>
      ReadTakesNothing(p, k);
      NothingTaken(p.Q(k), TakenAt(p, e, k), PoolApply(p, e).Q(k));
  }

  lemma PrefixChain(was: seq<nat>, taken: seq<nat>, mid: seq<nat>, more: seq<nat>, now: seq<nat>)
    requires was <= taken + mid && mid <= more + now
    ensures was <= taken + more + now
  {
    assert taken + more + now == taken + (more + now);
    assert taken + mid <= taken + (more + now);
  }

  lemma LastKeepsOrder(events: seq<AdvRuns.Event>, more: seq<AdvRuns.Event>, k: Queue)
    requires more != [] && !AdvRuns.Last(more).ClearTable?
    ensures var p := PoolRun(events + AdvRuns.Before(more));
            p.Q(k) <= TakenAt(p, AdvRuns.Last(more), k) + PoolRun(events + more).Q(k)
  {
    var b, e := AdvRuns.Before(more), AdvRuns.Last(more);
    assert AdvRuns.Before(events + more) == events + b && AdvRuns.Last(events + more) == e;
    StepKeepsOrder(PoolRun(events + b), e, k);
  }

  /** MAIN RESULT. A queue is first in, first out, over any run of puts, drains, head pops and
      reads: what stood in it before leaves it first and in its order, whether by a drain or by
      a head pop, and what has not left stands in the queue in the same order. */
  lemma {:induction false} QueueKeepsOrder(events: seq<AdvRuns.Event>, more: seq<AdvRuns.Event>, k: Queue)
    requires forall i :: 0 <= i < |more| ==> !more[i].ClearTable?
    ensures PoolRun(events).Q(k) <= Taken(events, more, k) + PoolRun(events + more).Q(k)
    decreases |more|
  {
    var was, now := PoolRun(events).Q(k), PoolRun(events + more).Q(k);
    if more == [] {
      assert events + more == events;
    } else {
      var b := AdvRuns.Before(more);
      var p := PoolRun(events + b);
      var mid, out := p.Q(k), TakenAt(p, AdvRuns.Last(more), k);
      assert was <= Taken(events, b, k) + mid by {
        QueueKeepsOrder(events, b, k);
      }
      assert mid <= out + now by {
        LastKeepsOrder(events, more, k);
      }
      PrefixChain(was, Taken(events, b, k), mid, out, now);
    }
  }
}
