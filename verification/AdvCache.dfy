/** The advertisement table as its users see it: a cache of the latest report of each
    sensor, ordered by last acceptance, and three retransmission queues of sensors.
    There are no slots, hash chains or links here; module AdvPool and class AdvTable
    refine this reference. */
module AdvCache {
  import opened Common

  /** Number of slots, and of entries in the table a caller passes to be filled. */
  const MAX_ADVS: nat := 100
  /** Longest data of an advertisement that is not an extended one. */
  const MAX_REGULAR_ADV_LEN: nat := 31

  type Mac = m: seq<bv8> | |m| == 6 witness [0, 0, 0, 0, 0, 0]

  /** The radio parameters, which the table stores and never inspects. */
  datatype Radio = Radio(
    rssi: int, primaryPhy: nat, secondaryPhy: nat, chIndex: nat, isCodedPhy: bool, txPower: int)

  /** One advertisement; the length of `data` is the C field `data_len`. */
  datatype Report = Report(timestamp: u32, counter: u32, mac: Mac, radio: Radio, data: seq<bv8>)

  const ZERO_REPORT: Report := Report(0, 0, [0, 0, 0, 0, 0, 0], Radio(0, 0, 0, 0, false, 0), [])

  datatype Queue = List1 | List2 | List3

  /** `lru` holds the hashed reports, the latest accepted first. */
  datatype Cache = Cache(lru: seq<Report>, q1: seq<Mac>, q2: seq<Mac>, q3: seq<Mac>) {
    function Q(k: Queue): seq<Mac> {
      match k case List1 => q1 case List2 => q2 case List3 => q3
    }

    function WithQ(k: Queue, q: seq<Mac>): Cache {
      match k case List1 => this.(q1 := q) case List2 => this.(q2 := q) case List3 => this.(q3 := q)
    }
  }

  const EMPTY: Cache := Cache([], [], [], [])

  // ---------------------------------------------------------------- lookup

  /** Position of the first report of `mac`, or |rs| when there is none. */
  function Find(rs: seq<Report>, mac: Mac): (i: nat)
    ensures i <= |rs|
    ensures i < |rs| ==> rs[i].mac == mac
    ensures forall j :: 0 <= j < i ==> rs[j].mac != mac
  {
    if rs == [] then 0
    else if rs[0].mac == mac then 0
    else
      var i := Find(rs[1..], mac);
      assert forall j :: 1 <= j < i + 1 ==> rs[j] == rs[1..][j - 1];
      i + 1
  }

  predicate Resident(rs: seq<Report>, mac: Mac) {
    exists i :: 0 <= i < |rs| && rs[i].mac == mac
  }

  ghost predicate DistinctMacs(rs: seq<Report>) {
    forall i, j :: 0 <= i < j < |rs| ==> rs[i].mac != rs[j].mac
  }

  lemma FindUnique(rs: seq<Report>, i: nat)
    requires DistinctMacs(rs) && i < |rs|
    ensures Find(rs, rs[i].mac) == i
  {
  }

  ghost predicate QueueWf(rs: seq<Report>, q: seq<Mac>) {
    Distinct(q) && forall m :: m in q ==> Resident(rs, m)
  }

  /** What every reachable cache satisfies. */
  ghost predicate Wf(c: Cache) {
    && |c.lru| <= MAX_ADVS
    && DistinctMacs(c.lru)
    && QueueWf(c.lru, c.q1) && QueueWf(c.lru, c.q2) && QueueWf(c.lru, c.q3)
  }

  // ---------------------------------------------------------------- put

  /** A report repeats the stored one, or is a regular one after an extended one. */
  predicate MustDiscard(adv: Report, prev: Report) {
    prev.data == adv.data || (|prev.data| > MAX_REGULAR_ADV_LEN && |adv.data| <= MAX_REGULAR_ADV_LEN)
  }

  function Enqueue(q: seq<Mac>, mac: Mac): seq<Mac> {
    if mac in q then q else q + [mac]
  }

  function Rename(q: seq<Mac>, from: Mac, to: Mac): (r: seq<Mac>)
    ensures |r| == |q|
    ensures forall i :: 0 <= i < |q| ==> r[i] == if q[i] == from then to else q[i]
  {
    seq(|q|, i requires 0 <= i < |q| => if q[i] == from then to else q[i])
  }

  /** A new sensor takes the queue place of the sensor it evicts, if that one is waiting. */
  function Inherit(q: seq<Mac>, from: Mac, to: Mac): seq<Mac> {
    if from in q then Rename(q, from, to) else q + [to]
  }

  predicate Accepts(c: Cache, adv: Report) {
    var i := Find(c.lru, adv.mac);
    i == |c.lru| || !MustDiscard(adv, c.lru[i])
  }

  function Put(c: Cache, adv: Report): Cache {
    var i := Find(c.lru, adv.mac);
    if i < |c.lru| then
      var counter := AddU32(c.lru[i].counter, 1);
      if MustDiscard(adv, c.lru[i]) then
        c.(lru := c.lru[i := c.lru[i].(counter := counter)])
      else
        Cache([adv.(counter := counter)] + Without(c.lru, i),
              Enqueue(c.q1, adv.mac), Enqueue(c.q2, adv.mac), Enqueue(c.q3, adv.mac))
    else if |c.lru| < MAX_ADVS then
      Cache([adv] + c.lru, c.q1 + [adv.mac], c.q2 + [adv.mac], c.q3 + [adv.mac])
    else
      var last := |c.lru| - 1;
      var evicted := c.lru[last].mac;
      Cache([adv] + c.lru[..last],
            Inherit(c.q1, evicted, adv.mac), Inherit(c.q2, evicted, adv.mac), Inherit(c.q3, evicted, adv.mac))
  }

  // ---------------------------------------------------------------- reads and clear

  function Lookup(rs: seq<Report>, mac: Mac): Report
    requires Resident(rs, mac)
  {
    rs[Find(rs, mac)]
  }

  function LookupAll(rs: seq<Report>, q: seq<Mac>): (out: seq<Report>)
    requires forall m :: m in q ==> Resident(rs, m)
    ensures |out| == |q|
    ensures forall i :: 0 <= i < |q| ==> out[i] == Lookup(rs, q[i])
  {
    seq(|q|, i requires 0 <= i < |q| => Lookup(rs, q[i]))
  }

  /** Reading a retransmission list and clearing it. */
  function Drain(c: Cache, k: Queue): (Cache, seq<Report>)
    requires Wf(c)
  {
    (c.WithQ(k, []), LookupAll(c.lru, c.Q(k)))
  }

  /** Taking the head of list 3. */
  function PopHead(c: Cache): (Cache, Option<Report>)
    requires Wf(c)
  {
    if c.q3 == [] then (c, None) else (c.(q3 := c.q3[1..]), Some(Lookup(c.lru, c.q3[0])))
  }

  function Erased(r: Report): Report {
    r.(timestamp := 0, counter := 0, data := [])
  }

  /** Erased reports stay hashed: the sensors keep their slots until they are evicted. */
  function Clear(c: Cache): Cache {
    Cache(seq(|c.lru|, i requires 0 <= i < |c.lru| => Erased(c.lru[i])), [], [], [])
  }

  /** Length of the longest prefix of reports that satisfy `p`. */
  function PrefixLen(rs: seq<Report>, p: Report -> bool): (n: nat)
    ensures n <= |rs|
    ensures forall i :: 0 <= i < n ==> p(rs[i])
    ensures n < |rs| ==> !p(rs[n])
  {
    if rs == [] || !p(rs[0]) then 0
    else
      var n := PrefixLen(rs[1..], p);
      assert forall i :: 1 <= i < n + 1 ==> rs[i] == rs[1..][i - 1];
      n + 1
  }

  function IsUsed(r: Report): bool {
    r.data != []
  }

  /** The leading reports that hold data. */
  function Used(rs: seq<Report>): seq<Report> {
    rs[..PrefixLen(rs, IsUsed)]
  }

  /** The age filter of a history request. */
  datatype HistoryFilter = HistoryFilter(curTime: u32, useTimestamps: bool, filter: u32, useFilter: bool)

  predicate Selected(f: HistoryFilter, r: Report) {
    if f.useTimestamps then
      !(f.useFilter && SubU32(f.curTime, r.timestamp) > f.filter)
    else
      !(f.useFilter && ToSigned(SubU32(r.timestamp, f.filter)) <= 0)
  }

  predicate Wanted(f: HistoryFilter, r: Report) {
    IsUsed(r) && Selected(f, r)
  }

  /** How far the scan gets: it stops at the first report that is unused or too old. */
  function ScanLen(rs: seq<Report>, f: HistoryFilter): (n: nat)
    ensures n <= |rs|
    ensures forall i :: 0 <= i < n ==> Wanted(f, rs[i])
    ensures n < |rs| ==> !Wanted(f, rs[n])
  {
    if rs == [] || !Wanted(f, rs[0]) then 0
    else
      var n := ScanLen(rs[1..], f);
      assert forall i :: 1 <= i < n + 1 ==> rs[i] == rs[1..][i - 1];
      n + 1
  }

  function History(c: Cache, f: HistoryFilter): seq<Report> {
    c.lru[..ScanLen(c.lru, f)]
  }

  function HasTimestamp(r: Report): bool {
    r.timestamp != 0
  }

  /** Statistics report the counters and reset them, up to the first zero timestamp. */
  function Statistics(c: Cache): (Cache, seq<Report>) {
    var n := PrefixLen(c.lru, HasTimestamp);
    (c.(lru := seq(|c.lru|, i requires 0 <= i < |c.lru| => if i < n then c.lru[i].(counter := 0) else c.lru[i])),
     c.lru[..n])
  }
}
