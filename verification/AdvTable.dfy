/** The advertisement table as it is stored: a fixed array of slots threaded by the chains
    of a hash table, three retransmission lists and the history list. Every operation is
    one critical section of the table's mutex. */
module AdvTable {
  import opened Common
  import opened AdvCache
  import opened AdvPool
  import opened SlotLists

  const HASH_SIZE: nat := 101

  /** The halves of an address, combined byte by byte. */
  function Hash(mac: Mac): bv32 {
    Lane(mac, 0) | (Lane(mac, 1) << 8) | (Lane(mac, 2) << 16)
  }

  function Lane(mac: Mac, i: nat): bv32
    requires i < 3
  {
    (mac[i] ^ mac[i + 3]) as bv32
  }

  method CalcHash(mac: Mac) returns (h: bv32)
    ensures h == Hash(mac)
  {
    h := 0;
    var i := 0;
    while i < 3
      invariant 0 <= i <= 3
      invariant i == 0 ==> h == 0
      invariant i == 1 ==> h == Lane(mac, 0)
      invariant i == 2 ==> h == Lane(mac, 0) | (Lane(mac, 1) << 8)
      invariant i == 3 ==> h == Hash(mac)
    {
      h := h | (Lane(mac, i) << (i * 8));
      i := i + 1;
    }
  }

  function Bucket(mac: Mac): (b: nat)
    ensures b < HASH_SIZE
  {
    Hash(mac) as nat % HASH_SIZE
  }

  /** The flags mark the slots that stand in the leading part of the history. */
  ghost predicate FlagsOk(flags: seq<bool>, p: Pool) {
    && |flags| == MAX_ADVS && p.hashed <= |p.hist|
    && forall s :: 0 <= s < MAX_ADVS ==> (flags[s] <==> s in p.hist[..p.hashed])
  }

  lemma TouchedFlags(flags: seq<bool>, p: Pool, at: nat, r: Report)
    requires PoolWf(p) && FlagsOk(flags, p) && at < MAX_ADVS && (at < p.hashed || at == MAX_ADVS - 1)
    ensures FlagsOk(flags[p.hist[at] := true], Touched(p, at, r))
  {
    var p' := Touched(p, at, r);
    forall s | 0 <= s < MAX_ADVS ensures s in p'.hist[..p'.hashed] <==> s == p.hist[at] || s in p.hist[..p.hashed] {
      ToFrontMembers(p.hist, at, p.hashed, s);
    }
  }

  /** What an accepted put leaves in each part of the table. */
  lemma PutOnSlot(p: Pool, flags: seq<bool>, at: nat, adv: Report, r: Report)
    requires PoolWf(p) && FlagsOk(flags, p) && PoolAccepts(p, adv)
    requires at == if SlotOf(p, adv.mac) < p.hashed then SlotOf(p, adv.mac) else MAX_ADVS - 1
    requires r == if SlotOf(p, adv.mac) < p.hashed
                  then adv.(counter := AddU32(p.reports[p.hist[at]].counter, 1)) else adv
    ensures var s, p' := p.hist[at], PoolPut(p, adv);
            && PoolWf(p') && FlagsOk(flags[s := true], p')
            && p'.reports == p.reports[s := r] && p'.hist == ToFront(p.hist, at)
            && p'.hashed == (if at < p.hashed then p.hashed else p.hashed + 1)
            && p'.q1 == EnqueueSlot(p.q1, s) && p'.q2 == EnqueueSlot(p.q2, s) && p'.q3 == EnqueueSlot(p.q3, s)
  {
    PutRefines(p, adv);
    TouchedFlags(flags, p, at, r);
  }

  lemma {:induction false} ScanLenIs(rs: seq<Report>, f: HistoryFilter, n: nat)
    requires n <= |rs| && forall i :: 0 <= i < n ==> Wanted(f, rs[i])
    requires n < |rs| ==> !Wanted(f, rs[n])
    ensures ScanLen(rs, f) == n
  {
    if n > 0 {
      ScanLenIs(rs[1..], f, n - 1);
    }
  }

  lemma {:induction false} PrefixLenIs(rs: seq<Report>, p: Report -> bool, n: nat)
    requires n <= |rs| && forall i :: 0 <= i < n ==> p(rs[i])
    requires n < |rs| ==> !p(rs[n])
    ensures PrefixLen(rs, p) == n
  {
    if n > 0 {
      PrefixLenIs(rs[1..], p, n - 1);
    }
  }

  lemma InHistory(h: seq<nat>, s: nat)
    requires HistWf(h) && s < MAX_ADVS
    ensures exists i :: 0 <= i < MAX_ADVS && h[i] == s
  {
    Surjective(h, MAX_ADVS, s);
  }

  /** The table lists the leading reports, up to the first zero timestamp. */
  ghost predicate InTimestampOrder(rs: seq<Report>, table: seq<Report>) {
    && table <= rs
    && (forall i :: 0 <= i < |table| ==> rs[i].timestamp != 0)
    && (|table| < |rs| ==> rs[|table|].timestamp == 0)
  }

  /** Resetting the counters of the leading slots of the history. */
  lemma ResetByOrder(p: Pool, reports': seq<Report>, table: seq<Report>)
    requires PoolWf(p) && |reports'| == MAX_ADVS && InTimestampOrder(ReportsOf(p.reports, p.hist), table)
    requires forall i :: 0 <= i < MAX_ADVS ==>
               reports'[p.hist[i]] == if i < |table| then p.reports[p.hist[i]].(counter := 0) else p.reports[p.hist[i]]
    ensures reports' == PoolStatistics(p).0.reports && table == PoolStatistics(p).1
  {
    PrefixLenIs(ReportsOf(p.reports, p.hist), HasTimestamp, |table|);
    ResetIs(p);
    forall s | 0 <= s < MAX_ADVS ensures reports'[s] == ResetCounters(p.reports, Reset(p))[s] {
      InHistory(p.hist, s);
    }
  }

  lemma StatisticsWf(p: Pool, flags: seq<bool>)
    requires PoolWf(p) && FlagsOk(flags, p)
    ensures PoolWf(PoolStatistics(p).0) && FlagsOk(flags, PoolStatistics(p).0)
    ensures PoolStatistics(p).0 == p.(reports := PoolStatistics(p).0.reports)
  {
    StatisticsRefines(p);
  }

  /** Draining a queue leaves the rest of the pool as it is. */
  lemma DrainedWf(p: Pool, k: Queue, flags: seq<bool>)
    requires PoolWf(p) && FlagsOk(flags, p)
    ensures PoolDrain(p, k).0 == p.WithQ(k, []) && PoolWf(p.WithQ(k, [])) && FlagsOk(flags, p.WithQ(k, []))
  {
    DrainRefines(p, k);
  }

  lemma PoppedWf(p: Pool, flags: seq<bool>)
    requires PoolWf(p) && FlagsOk(flags, p) && p.q3 != []
    ensures var p' := p.(q3 := p.q3[1..]); PoolPop(p).0 == p' && PoolWf(p') && FlagsOk(flags, p')
  {
    PopRefines(p);
  }

  class AdvTable {
    const reports: array<Report>
    const inHash: array<bool>
    const hash: HashChains
    const q1: SlotQueue
    const q2: SlotQueue
    const q3: SlotQueue
    const hist: SlotDeque
    /** How many leading slots of the history are in the hash table. */
    ghost var hashed: nat

    ghost function Footprint(): set<object> {
      {this, reports, inHash, hash, hash.link, hash.first, hash.last, hist, hist.next, hist.prev,
       q1, q1.link, q1.member, q2, q2.link, q2.member, q3, q3.link, q3.member}
    }

    /** An array that threads one list is not used by another list. */
    ghost predicate Apart(a: array<int>) {
      && a != hash.link && a != hash.first && a != hash.last && a != hist.next && a != hist.prev
    }

    /** No array serves two purposes. */
    ghost predicate Separate() {
      && q1 != q2 && q1 != q3 && q2 != q3
      && inHash != q1.member && inHash != q2.member && inHash != q3.member
      && q1.member != q2.member && q1.member != q3.member && q2.member != q3.member
      && q1.link != q2.link && q1.link != q3.link && q2.link != q3.link
      && Apart(q1.link) && Apart(q2.link) && Apart(q3.link)
      && hash.link != hist.next && hash.first != hist.next && hash.last != hist.next
      && hash.link != hist.prev && hash.first != hist.prev && hash.last != hist.prev
      && reports.Length == inHash.Length == hash.link.Length == hist.next.Length == MAX_ADVS
      && q1.link.Length == q2.link.Length == q3.link.Length == MAX_ADVS
    }

    /** The table as a pool of slots. */
    ghost function View(): Pool
      reads Footprint()
    {
      Pool(reports[..], hist.elems, hashed, q1.elems, q2.elems, q3.elems)
    }

    /** A slot is in the hash table exactly when its flag says so, in the bucket of its sensor. */
    ghost predicate HashAgrees(s: nat)
      requires s < MAX_ADVS == reports.Length == inHash.Length == |hash.home|
      reads reports, inHash, hash
    {
      hash.home[s] == if inHash[s] then Bucket(reports[s].mac) else NONE
    }

    /** The hash table agrees with the slots. */
    ghost predicate HashOk()
      reads reports, inHash, hash, hash.link, hash.first, hash.last
    {
      && reports.Length == inHash.Length == hash.link.Length == MAX_ADVS
      && hash.Valid() && |hash.chains| == HASH_SIZE
      && forall s :: 0 <= s < MAX_ADVS ==> HashAgrees(s)
    }

    ghost predicate ListsOk()
      reads q1, q1.link, q1.member, q2, q2.link, q2.member, q3, q3.link, q3.member, hist, hist.next, hist.prev
    {
      q1.Valid() && q2.Valid() && q3.Valid() && hist.Valid()
    }

    ghost predicate Valid()
      reads Footprint()
    {
      && Separate() && HashOk() && ListsOk()
      && PoolWf(View())
      && FlagsOk(inHash[..], View())
    }

    /** Allocated, with empty lists; the slots are not initialised yet. */
    ghost predicate Blank()
      reads Footprint()
    {
      && Separate() && ListsOk()
      && hash.Valid() && |hash.chains| == HASH_SIZE && hash.home == seq(MAX_ADVS, _ => NONE)
      && q1.elems == [] && q2.elems == [] && q3.elems == [] && hist.elems == [] && hashed == 0
    }

    constructor ()
      ensures Blank()
    {
      reports := new Report[MAX_ADVS](_ => ZERO_REPORT);
      inHash := new bool[MAX_ADVS];
      hash := new HashChains(MAX_ADVS, HASH_SIZE);
      q1 := new SlotQueue(MAX_ADVS);
      q2 := new SlotQueue(MAX_ADVS);
      q3 := new SlotQueue(MAX_ADVS);
      hist := new SlotDeque(MAX_ADVS);
      hashed := 0;
    }

    /** All slots are free and stand in the history in array order. */
    method Init()
      requires Blank()
      modifies Footprint()
      ensures Valid() && View() == Initial()
    {
      InitSlots();
      InitialWf();
      assert reports[..] == Initial().reports;
      assert hist.elems[..hashed] == [];
      Restored(Initial());
    }

    method InitSlots()
      requires Blank()
      modifies reports, inHash, hist, hist.next, hist.prev
      ensures HashOk() && ListsOk() && hist.elems == Initial().hist
      ensures forall s :: 0 <= s < MAX_ADVS ==> !inHash[s] && reports[s] == ZERO_REPORT
    {
      FillHistory();
    }

    method FillHistory()
      requires reports.Length == inHash.Length == hist.next.Length == MAX_ADVS
      requires hist.Valid() && hist.elems == []
      modifies reports, inHash, hist, hist.next, hist.prev
      ensures hist.Valid() && hist.elems == Initial().hist
      ensures forall s :: 0 <= s < MAX_ADVS ==> !inHash[s] && reports[s] == ZERO_REPORT
    {
      for i := 0 to MAX_ADVS
        invariant hist.Valid() && |hist.elems| == i && forall j :: 0 <= j < i ==> hist.elems[j] == j
        invariant forall s :: 0 <= s < i ==> !inHash[s] && reports[s] == ZERO_REPORT
      {
        reports[i] := ZERO_REPORT;
        inHash[i] := false;
        hist.InsertTail(i);
      }
    }

    /** A walk along the chain of a sensor's bucket. */
    method SearchChain(mac: Mac) returns (s: int)
      requires HashOk()
      ensures s == NONE || (0 <= s < MAX_ADVS && inHash[s] && reports[s].mac == mac)
      ensures s == NONE ==> forall t :: 0 <= t < MAX_ADVS && inHash[t] ==> reports[t].mac != mac
    {
      var h := CalcHash(mac);
      var b := h as nat % HASH_SIZE;
      ghost var c := hash.chains[b];
      assert Chained(hash.first[b], hash.last[b], hash.link[..], c);
      s := hash.first[b];
      ghost var i := 0;
      while s != NONE
        invariant 0 <= i <= |c| && s == if i < |c| then c[i] else NONE
        invariant forall j :: 0 <= j < i ==> reports[c[j]].mac != mac
        decreases |c| - i
      {
        assert HashAgrees(s);
        if reports[s].mac == mac {
          return;
        }
        s := hash.link[s];
        i := i + 1;
      }
      forall t | 0 <= t < MAX_ADVS && inHash[t] ensures reports[t].mac != mac {
        assert HashAgrees(t);
        assert t in hash.chains[Bucket(reports[t].mac)];
      }
    }

    lemma OneSlotPerSensor(s: nat, t: nat)
      requires Valid() && s < MAX_ADVS && t < MAX_ADVS && inHash[s] && inHash[t] && reports[s].mac == reports[t].mac
      ensures s == t
    {
      assert inHash[..][s] && inHash[..][t];
      var i :| 0 <= i < hashed && hist.elems[..hashed][i] == s;
      var j :| 0 <= j < hashed && hist.elems[..hashed][j] == t;
      assert Hashed(View())[i].mac == Hashed(View())[j].mac;
    }

    /** The search finds what a scan of the whole pool would find: the one hashed slot of the
        sensor, if there is one. */
    method Search(mac: Mac) returns (s: int)
      requires Valid()
      ensures s == NONE || 0 <= s < MAX_ADVS
      ensures forall t :: 0 <= t < MAX_ADVS ==> (inHash[t] && reports[t].mac == mac <==> t == s)
    {
      s := SearchChain(mac);
      forall t | 0 <= t < MAX_ADVS ensures inHash[t] && reports[t].mac == mac <==> t == s {
        if inHash[t] && reports[t].mac == mac {
          OneSlotPerSensor(s, t);
        }
      }
    }

    // -------------------------------------------------------------- put

    method HashRemove(s: nat)
      requires Separate() && HashOk() && s < MAX_ADVS
      modifies inHash, hash, hash.link, hash.first, hash.last
      ensures HashOk() && inHash[..] == old(inHash[..])[s := false]
    {
      assert HashAgrees(s);
      if !inHash[s] {
        assert inHash[..] == old(inHash[..])[s := false];
        return;
      }
      var h := CalcHash(reports[s].mac);
      hash.Remove(h as nat % HASH_SIZE, s);
      inHash[s] := false;
      forall t | 0 <= t < MAX_ADVS ensures HashAgrees(t) {
        assert old(HashAgrees(t));
      }
    }

    method HashAdd(s: nat)
      requires Separate() && HashOk() && s < MAX_ADVS && !inHash[s]
      modifies inHash, hash, hash.link, hash.first, hash.last
      ensures HashOk() && inHash[..] == old(inHash[..])[s := true]
    {
      assert HashAgrees(s);
      var h := CalcHash(reports[s].mac);
      hash.InsertTail(h as nat % HASH_SIZE, s);
      inHash[s] := true;
      forall t | 0 <= t < MAX_ADVS ensures HashAgrees(t) {
        assert old(HashAgrees(t));
      }
    }

    /** Giving a slot to another sensor. */
    method Rehash(s: nat, adv: Report)
      requires Separate() && HashOk() && ListsOk() && s < MAX_ADVS
      modifies reports, inHash, hash, hash.link, hash.first, hash.last
      ensures HashOk() && ListsOk()
      ensures inHash[..] == old(inHash[..])[s := true] && reports[..] == old(reports[..])[s := adv]
    {
      HashRemove(s);
      label removed:
      reports[s] := adv;
      assert HashOk() by {
        forall t | 0 <= t < MAX_ADVS ensures HashAgrees(t) {
          assert old@removed(HashAgrees(t));
        }
      }
      HashAdd(s);
    }

    /** Renewing the report of the sensor that holds the slot. */
    method Renew(s: nat, r: Report)
      requires Separate() && HashOk() && ListsOk() && s < MAX_ADVS && r.mac == reports[s].mac
      modifies reports
      ensures HashOk() && ListsOk()
      ensures reports[..] == old(reports[..])[s := r]
    {
      reports[s] := r;
      forall t | 0 <= t < MAX_ADVS ensures HashAgrees(t) {
        assert old(HashAgrees(t));
      }
    }

    static method Enqueue(q: SlotQueue, s: nat)
      requires q.Valid() && s < q.link.Length
      modifies q, q.link, q.member
      ensures q.Valid() && q.elems == EnqueueSlot(old(q.elems), s)
    {
      if !q.member[s] {
        q.InsertTail(s);
      }
    }

    static method MoveToFront(hist: SlotDeque, s: nat, ghost at: nat)
      requires hist.Valid() && at < |hist.elems| && hist.elems[at] == s
      modifies hist, hist.next, hist.prev
      ensures hist.Valid() && hist.elems == ToFront(old(hist.elems), at)
    {
      hist.Remove(s, at);
      WithoutMembers(old(hist.elems), at);
      hist.InsertHead(s);
    }

    /** The slot of an accepted report enters the queues. */
    method EnqueueAll(s: nat)
      requires Separate() && s < MAX_ADVS && q1.Valid() && q2.Valid() && q3.Valid()
      modifies q1, q1.link, q1.member, q2, q2.link, q2.member, q3, q3.link, q3.member
      ensures q1.Valid() && q2.Valid() && q3.Valid()
      ensures q1.elems == EnqueueSlot(old(q1.elems), s)
      ensures q2.elems == EnqueueSlot(old(q2.elems), s)
      ensures q3.elems == EnqueueSlot(old(q3.elems), s)
    {
      Enqueue(q1, s);
      Enqueue(q2, s);
      Enqueue(q3, s);
    }

    /** The queues do not depend on the history. */
    twostate lemma QueuesFrame()
      requires old(q1.Valid() && q2.Valid() && q3.Valid())
      requires unchanged(q1, q1.link, q1.member, q2, q2.link, q2.member, q3, q3.link, q3.member)
      ensures q1.Valid() && q2.Valid() && q3.Valid()
    {
    }

    /** Nor does the history depend on the queues. */
    twostate lemma HistoryFrame()
      requires old(hist.Valid()) && unchanged(hist, hist.next, hist.prev)
      ensures hist.Valid()
    {
    }

    method TouchLists(s: nat, ghost at: nat)
      requires Separate() && ListsOk()
      requires s < MAX_ADVS && at < |hist.elems| && hist.elems[at] == s
      modifies q1, q1.link, q1.member, q2, q2.link, q2.member, q3, q3.link, q3.member, hist, hist.next, hist.prev
      ensures ListsOk()
      ensures q1.elems == EnqueueSlot(old(q1.elems), s)
      ensures q2.elems == EnqueueSlot(old(q2.elems), s)
      ensures q3.elems == EnqueueSlot(old(q3.elems), s)
      ensures hist.elems == ToFront(old(hist.elems), at)
    {
      EnqueueAll(s);
      HistoryFrame();
      label enqueued:
      MoveToFront(hist, s, at);
      QueuesFrame@enqueued();
    }

    /** An accepted report: its slot enters the queues and leads the history. */
    method Touch(s: nat, ghost at: nat)
      requires Separate() && HashOk() && ListsOk()
      requires s < MAX_ADVS && at < |hist.elems| && hist.elems[at] == s
      modifies q1, q1.link, q1.member, q2, q2.link, q2.member, q3, q3.link, q3.member, hist, hist.next, hist.prev
      ensures HashOk() && ListsOk()
      ensures q1.elems == EnqueueSlot(old(q1.elems), s)
      ensures q2.elems == EnqueueSlot(old(q2.elems), s)
      ensures q3.elems == EnqueueSlot(old(q3.elems), s)
      ensures hist.elems == ToFront(old(hist.elems), at)
    {
      TouchLists(s, at);
      HashFrame();
    }

    /** The hash table does not depend on the lists. */
    twostate lemma HashFrame()
      requires old(HashOk())
      requires unchanged(reports, inHash, hash, hash.link, hash.first, hash.last)
      ensures HashOk()
    {
    }

    /** A slot takes the report of another sensor, enters the queues and leads the history. */
    method Place(s: nat, ghost at: nat, adv: Report)
      requires Separate() && HashOk() && ListsOk()
      requires s < MAX_ADVS && at < |hist.elems| && hist.elems[at] == s
      modifies reports, inHash, hash, hash.link, hash.first, hash.last
      modifies q1, q1.link, q1.member, q2, q2.link, q2.member, q3, q3.link, q3.member, hist, hist.next, hist.prev
      ensures HashOk() && ListsOk()
      ensures inHash[..] == old(inHash[..])[s := true] && reports[..] == old(reports[..])[s := adv]
      ensures q1.elems == EnqueueSlot(old(q1.elems), s)
      ensures q2.elems == EnqueueSlot(old(q2.elems), s)
      ensures q3.elems == EnqueueSlot(old(q3.elems), s)
      ensures hist.elems == ToFront(old(hist.elems), at)
    {
      Rehash(s, adv);
      ghost var rs, flags := reports[..], inHash[..];
      assert q1.elems == old(q1.elems) && q2.elems == old(q2.elems) && q3.elems == old(q3.elems);
      assert hist.elems == old(hist.elems);
      Touch(s, at);
      assert reports[..] == rs && inHash[..] == flags;
    }

    /** A slot takes a new report of its sensor, enters the queues and leads the history. */
    method Refresh(s: nat, ghost at: nat, r: Report)
      requires Separate() && HashOk() && ListsOk()
      requires s < MAX_ADVS && at < |hist.elems| && hist.elems[at] == s && r.mac == reports[s].mac
      modifies reports
      modifies q1, q1.link, q1.member, q2, q2.link, q2.member, q3, q3.link, q3.member, hist, hist.next, hist.prev
      ensures HashOk() && ListsOk() && reports[..] == old(reports[..])[s := r]
      ensures q1.elems == EnqueueSlot(old(q1.elems), s)
      ensures q2.elems == EnqueueSlot(old(q2.elems), s)
      ensures q3.elems == EnqueueSlot(old(q3.elems), s)
      ensures hist.elems == ToFront(old(hist.elems), at)
    {
      Renew(s, r);
      ghost var rs := reports[..];
      assert q1.elems == old(q1.elems) && q2.elems == old(q2.elems) && q3.elems == old(q3.elems);
      assert hist.elems == old(hist.elems);
      Touch(s, at);
      assert reports[..] == rs;
    }

    /** The stored slot of a sensor, as the reference locates it. */
    lemma FoundAt(mac: Mac, s: int)
      requires Valid() && (s == NONE || 0 <= s < MAX_ADVS)
      requires forall t :: 0 <= t < MAX_ADVS ==> (inHash[t] && reports[t].mac == mac <==> t == s)
      ensures var at := SlotOf(View(), mac);
              if s == NONE then at == hashed else at < hashed && hist.elems[at] == s
    {
      var rs := Hashed(View());
      if s == NONE {
        forall i | 0 <= i < hashed ensures rs[i].mac != mac {
          assert hist.elems[..hashed][i] == hist.elems[i];
          assert inHash[hist.elems[i]];
        }
      } else {
        assert inHash[..][s];
        var j :| 0 <= j < hashed && hist.elems[..hashed][j] == s;
        FindUnique(rs, j);
      }
    }

    /** Collects the parts of the invariant after a change of the pool to p. */
    lemma Restored(p: Pool)
      requires Separate() && HashOk() && ListsOk()
      requires PoolWf(p) && FlagsOk(inHash[..], p)
      requires reports[..] == p.reports && hist.elems == p.hist && hashed == p.hashed
      requires q1.elems == p.q1 && q2.elems == p.q2 && q3.elems == p.q3
      ensures Valid() && View() == p
    {
    }

    /** The same after an accepted put on the slot at position `at` of the history. */
    lemma RestoredPut(p: Pool, flags: seq<bool>, at: nat, adv: Report, r: Report)
      requires PoolWf(p) && FlagsOk(flags, p) && PoolAccepts(p, adv)
      requires at == if SlotOf(p, adv.mac) < p.hashed then SlotOf(p, adv.mac) else MAX_ADVS - 1
      requires r == if SlotOf(p, adv.mac) < p.hashed
                    then adv.(counter := AddU32(p.reports[p.hist[at]].counter, 1)) else adv
      requires Separate() && HashOk() && ListsOk()
      requires inHash[..] == flags[p.hist[at] := true] && reports[..] == p.reports[p.hist[at] := r]
      requires hist.elems == ToFront(p.hist, at) && hashed == (if at < p.hashed then p.hashed else p.hashed + 1)
      requires q1.elems == EnqueueSlot(p.q1, p.hist[at])
      requires q2.elems == EnqueueSlot(p.q2, p.hist[at])
      requires q3.elems == EnqueueSlot(p.q3, p.hist[at])
      ensures Valid() && View() == PoolPut(p, adv)
    {
      PutOnSlot(p, flags, at, adv, r);
      Restored(PoolPut(p, adv));
    }

    /** A sensor that is not in the table takes the last slot of the history. */
    method Insert(adv: Report)
      requires Valid() && SlotOf(View(), adv.mac) == hashed
      modifies Footprint()
      ensures Valid() && View() == PoolPut(old(View()), adv)
    {
      ghost var p, flags := View(), inHash[..];
      ghost var at := MAX_ADVS - 1;
      var s := hist.last;
      assert s == p.hist[at] && 0 <= s < MAX_ADVS;
      Place(s, at, adv);
      hashed := if at < hashed then hashed else hashed + 1;
      RestoredPut(p, flags, at, adv, adv);
    }

    /** A sensor that is in the table and whose report is accepted. */
    method Update(s: nat, ghost at: nat, adv: Report)
      requires Valid() && at == SlotOf(View(), adv.mac) < hashed && hist.elems[at] == s && s < MAX_ADVS
      requires !MustDiscard(adv, reports[s])
      modifies Footprint()
      ensures Valid() && View() == PoolPut(old(View()), adv)
    {
      ghost var p, flags := View(), inHash[..];
      var prevCounter := reports[s].counter;
      assert flags[s := true] == flags;
      Refresh(s, at, adv.(counter := AddU32(prevCounter, 1)));
      RestoredPut(p, flags, at, adv, adv.(counter := AddU32(prevCounter, 1)));
    }

    /** A sensor that is in the table and whose report is discarded: it is only counted. */
    method Count(s: nat, ghost at: nat, adv: Report)
      requires Valid() && at == SlotOf(View(), adv.mac) < hashed && hist.elems[at] == s && s < MAX_ADVS
      requires MustDiscard(adv, reports[s])
      modifies Footprint()
      ensures Valid() && View() == PoolPut(old(View()), adv)
    {
      ghost var p := View();
      PutRefines(p, adv);
      Renew(s, reports[s].(counter := AddU32(reports[s].counter, 1)));
      Restored(PoolPut(p, adv));
    }

    method Put(adv: Report) returns (updated: bool)
      requires Valid()
      modifies Footprint()
      ensures Valid() && View() == PoolPut(old(View()), adv)
      ensures updated == PoolAccepts(old(View()), adv)
      ensures updated <==>
                forall s :: 0 <= s < MAX_ADVS && old(inHash[s]) && old(reports[s]).mac == adv.mac ==>
                              var data := old(reports[s]).data;
                              data != adv.data && (|data| <= 31 || |adv.data| > 31)
    {
      var s := Search(adv.mac);
      ghost var at := SlotOf(View(), adv.mac);
      FoundAt(adv.mac, s);
      if s == NONE {
        Insert(adv);
        updated := true;
      } else if !MustDiscard(adv, reports[s]) {
        Update(s, at, adv);
        updated := true;
      } else {
        Count(s, at, adv);
        updated := false;
      }
    }

    // -------------------------------------------------------------- drains

    /** Empties a list into a table. The guard against a full table never fires: the list
        holds distinct slots, and the table has as many places as there are slots. */
    method DrainQueue(q: SlotQueue) returns (table: seq<Report>)
      requires q.Valid() && q.link.Length == MAX_ADVS == reports.Length
      modifies q, q.link, q.member
      ensures q.Valid() && q.elems == []
      ensures forall i :: 0 <= i < |old(q.elems)| ==> old(q.elems)[i] < reports.Length
      ensures table == ReportsOf(reports[..], old(q.elems))
    {
      ghost var slots := q.elems;
      Pigeonhole(slots, MAX_ADVS);
      table := [];
      while true
        invariant q.Valid() && |table| + |q.elems| == |slots| && q.elems == slots[|table|..]
        invariant forall i :: 0 <= i < |table| ==> table[i] == reports[slots[i]]
        decreases |q.elems|
      {
        if q.first == NONE {
          break;
        }
        var s := q.RemoveHead();
        if |table| >= MAX_ADVS {
          assert false;
          break;
        }
        table := table + [reports[s]];
      }
    }

    method ReadList1() returns (table: seq<Report>)
      requires Valid()
      modifies Footprint()
      ensures Valid() && View() == PoolDrain(old(View()), List1).0 && table == PoolDrain(old(View()), List1).1
    {
      ghost var p := View();
      table := DrainQueue(q1);
      HashFrame();
      DrainedWf(p, List1, inHash[..]);
      Restored(p.(q1 := []));
    }

    method ReadList2() returns (table: seq<Report>)
      requires Valid()
      modifies Footprint()
      ensures Valid() && View() == PoolDrain(old(View()), List2).0 && table == PoolDrain(old(View()), List2).1
    {
      ghost var p := View();
      table := DrainQueue(q2);
      HashFrame();
      DrainedWf(p, List2, inHash[..]);
      Restored(p.(q2 := []));
    }

    method ReadList3() returns (table: seq<Report>)
      requires Valid()
      modifies Footprint()
      ensures Valid() && View() == PoolDrain(old(View()), List3).0 && table == PoolDrain(old(View()), List3).1
    {
      ghost var p := View();
      table := DrainQueue(q3);
      HashFrame();
      DrainedWf(p, List3, inHash[..]);
      Restored(p.(q3 := []));
    }

    method ReadList3Head() returns (r: Option<Report>)
      requires Valid()
      modifies Footprint()
      ensures Valid() && View() == PoolPop(old(View())).0 && r == PoolPop(old(View())).1
    {
      ghost var p := View();
      if q3.first == NONE {
        return None;
      }
      var s := q3.RemoveHead();
      r := Some(reports[s]);
      HashFrame();
      PoppedWf(p, inHash[..]);
      Restored(p.(q3 := p.q3[1..]));
    }

    method IsList3Empty() returns (empty: bool)
      requires Valid()
      ensures empty <==> View().q3 == []
    {
      empty := q3.first == NONE;
    }

    // -------------------------------------------------------------- history and statistics

    method ReadHistory(f: HistoryFilter) returns (table: seq<Report>)
      requires Valid()
      ensures table == PoolHistory(View(), f)
    {
      ghost var rs := ReportsOf(reports[..], hist.elems);
      table := [];
      var cur := hist.first;
      while cur != NONE
        invariant |table| <= MAX_ADVS && cur == if |table| < MAX_ADVS then hist.elems[|table|] else NONE
        invariant table == rs[..|table|] && forall i :: 0 <= i < |table| ==> Wanted(f, rs[i])
        decreases MAX_ADVS - |table|
      {
        if |table| >= MAX_ADVS {
          assert false;
          break;
        }
        if |reports[cur].data| == 0 {
          break;
        }
        if f.useTimestamps {
          if f.useFilter && SubU32(f.curTime, reports[cur].timestamp) > f.filter {
            break;
          }
        } else {
          var delta := ToSigned(SubU32(reports[cur].timestamp, f.filter));
          if f.useFilter && delta <= 0 {
            break;
          }
        }
        table := table + [reports[cur]];
        cur := hist.next[cur];
      }
      ScanLenIs(rs, f, |table|);
      assert table == ReportsOf(reports[..], hist.elems[..|table|]);
    }

    /** Reports the counters and resets them, down the history to the first zero timestamp. */
    method ReadStatistics() returns (table: seq<Report>)
      requires Valid()
      modifies reports
      ensures Valid() && View() == PoolStatistics(old(View())).0 && table == PoolStatistics(old(View())).1
    {
      ghost var p := View();
      table := ResetCountersInOrder();
      ResetByOrder(p, reports[..], table);
      StatisticsWf(p, inHash[..]);
      Restored(p.(reports := reports[..]));
    }

    method ResetCountersInOrder() returns (table: seq<Report>)
      requires Separate() && HashOk() && ListsOk() && HistWf(hist.elems)
      modifies reports
      ensures HashOk() && ListsOk()
      ensures InTimestampOrder(ReportsOf(old(reports[..]), hist.elems), table)
      ensures forall i :: 0 <= i < MAX_ADVS ==>
                var r := old(reports[..])[hist.elems[i]];
                reports[hist.elems[i]] == if i < |table| then r.(counter := 0) else r
    {
      ghost var before, h := reports[..], hist.elems;
      table := ResetAlongHistory();
      forall s | 0 <= s < MAX_ADVS ensures reports[s].mac == before[s].mac {
        InHistory(h, s);
      }
      MacsKept(before);
    }

    method ResetAlongHistory() returns (table: seq<Report>)
      requires hist.Valid() && HistWf(hist.elems) && reports.Length == hist.next.Length == MAX_ADVS
      modifies reports
      ensures InTimestampOrder(ReportsOf(old(reports[..]), hist.elems), table)
      ensures forall i :: 0 <= i < MAX_ADVS ==>
                var r := old(reports[..])[hist.elems[i]];
                reports[hist.elems[i]] == if i < |table| then r.(counter := 0) else r
    {
      ghost var before, h := reports[..], hist.elems;
      ghost var rs := ReportsOf(before, h);
      table := [];
      var cur := hist.first;
      while cur != NONE
        invariant |table| <= MAX_ADVS && cur == if |table| < MAX_ADVS then h[|table|] else NONE
        invariant table == rs[..|table|] && forall i :: 0 <= i < |table| ==> rs[i].timestamp != 0
        invariant forall i :: 0 <= i < MAX_ADVS ==>
                    reports[h[i]] == if i < |table| then before[h[i]].(counter := 0) else before[h[i]]
        decreases MAX_ADVS - |table|
      {
        if |table| >= MAX_ADVS {
          assert false;
          break;
        }
        if reports[cur].timestamp == 0 {
          break;
        }
        table := table + [reports[cur]];
        reports[cur] := reports[cur].(counter := 0);
        cur := hist.next[cur];
      }
    }

    /** The hash table agrees as long as no slot changes its sensor. */
    twostate lemma MacsKept(before: seq<Report>)
      requires Separate() && old(HashOk()) && before == old(reports[..])
      requires unchanged(inHash, hash, hash.link, hash.first, hash.last)
      requires forall s :: 0 <= s < MAX_ADVS ==> reports[s].mac == before[s].mac
      ensures HashOk()
    {
      forall s | 0 <= s < MAX_ADVS ensures HashAgrees(s) {
        assert old(HashAgrees(s));
      }
    }

    // -------------------------------------------------------------- clear

    /** Empties a list. */
    static method ClearQueue(q: SlotQueue)
      requires q.Valid()
      modifies q, q.link, q.member
      ensures q.Valid() && q.elems == []
    {
      while true
        invariant q.Valid()
        decreases |q.elems|
      {
        if q.first == NONE {
          break;
        }
        var _ := q.RemoveHead();
      }
    }

    method EraseInOrder()
      requires Separate() && HashOk() && ListsOk() && HistWf(hist.elems)
      modifies reports
      ensures HashOk() && ListsOk() && reports[..] == EraseAll(old(reports[..]))
    {
      ghost var before, h := reports[..], hist.elems;
      var cur := hist.first;
      ghost var n := 0;
      while cur != NONE
        invariant 0 <= n <= MAX_ADVS && cur == if n < MAX_ADVS then h[n] else NONE
        invariant forall i :: 0 <= i < MAX_ADVS ==> reports[h[i]] == if i < n then Erased(before[h[i]])
          else before[h[i]]
        decreases MAX_ADVS - n
      {
        reports[cur] := reports[cur].(timestamp := 0, counter := 0, data := []);
        cur := hist.next[cur];
        n := n + 1;
      }
      forall s | 0 <= s < MAX_ADVS ensures reports[s] == Erased(before[s]) {
        InHistory(h, s);
      }
      MacsKept(before);
    }

    method ClearEach()
      requires Separate() && q1.Valid() && q2.Valid() && q3.Valid()
      modifies q1, q1.link, q1.member, q2, q2.link, q2.member, q3, q3.link, q3.member
      ensures q1.Valid() && q2.Valid() && q3.Valid()
      ensures q1.elems == [] && q2.elems == [] && q3.elems == []
    {
      ClearQueue(q1);
      ClearQueue(q2);
      ClearQueue(q3);
    }

    method ClearQueues()
      requires Separate() && HashOk() && ListsOk()
      modifies q1, q1.link, q1.member, q2, q2.link, q2.member, q3, q3.link, q3.member
      ensures HashOk() && ListsOk() && q1.elems == [] && q2.elems == [] && q3.elems == []
    {
      ClearEach();
      HashFrame();
    }

    method Clear()
      requires Valid()
      modifies Footprint()
      ensures Valid() && View() == PoolClear(old(View()))
    {
      ghost var p := View();
      ClearRefines(p);
      ClearQueues();
      EraseInOrder();
      Restored(PoolClear(p));
    }
  }
}
