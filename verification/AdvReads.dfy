/** Conservation of the sample counters, and the early-breaking history scan. */
module AdvReads {
  import opened Common
  import opened AdvCache
  import opened AdvRuns
  import opened AdvTheorems
  import opened AdvQueues

  // ---------------------------------------------------------------- counters

  ghost function Turns(k: int): int {
    k * TWO_TO_32
  }

  /** Equality of `uint32_t` counters that may have wrapped around: equality modulo 2^32. */
  ghost predicate Congruent(a: int, b: int) {
    exists k :: a == b + Turns(k)
  }

  lemma CongruentIsEqualModulo(a: int, b: int)
    ensures Congruent(a, b) <==> a % TWO_TO_32 == b % TWO_TO_32
  {
    if a % TWO_TO_32 == b % TWO_TO_32 {
      assert a == b + Turns(a / TWO_TO_32 - b / TWO_TO_32);
    }
  }

  ghost function CounterOf(rs: seq<Report>, m: Mac): nat {
    if Resident(rs, m) then Lookup(rs, m).counter else 0
  }

  /** What one operation reports for a sensor: nothing, unless it is a statistics read. */
  ghost function ReportedBy(c: Cache, e: Event, m: Mac): nat {
    if e.ReadStatistics? then CounterOf(Statistics(c).1, m) else 0
  }

  /** One for a put call for the sensor, accepted or discarded. */
  ghost function PutCall(e: Event, m: Mac): nat {
    if e.PutAdv? && e.adv.mac == m then 1 else 0
  }

  /** The sum of what statistics reads reported for a sensor after position `from`. */
  ghost function Reported(events: seq<Event>, m: Mac, from: nat): nat {
    if |events| <= from then 0
    else Reported(Before(events), m, from) + ReportedBy(Run(Before(events)), Last(events), m)
  }

  /** The put calls for a sensor after position `from`. */
  ghost function PutCalls(events: seq<Event>, m: Mac, from: nat): nat {
    if |events| <= from then 0
    else PutCalls(Before(events), m, from) + PutCall(Last(events), m)
  }

  /** The sensor is in the table from position `from` on and the table is not cleared. */
  ghost predicate Stays(events: seq<Event>, m: Mac, from: nat)
    requires from <= |events|
  {
    && Resident(Run(events).lru, m)
    && (|events| > from ==> !Last(events).ClearTable? && Stays(Before(events), m, from))
  }

  lemma PutCounts(c: Cache, adv: Report)
    requires Wf(c) && Resident(c.lru, adv.mac)
    ensures CounterOf(Put(c, adv).lru, adv.mac) == AddU32(CounterOf(c.lru, adv.mac), 1)
  {
    PutWf(c, adv);
    var i := Find(c.lru, adv.mac);
    LookupAt(Put(c, adv).lru, if MustDiscard(adv, c.lru[i]) then i else 0);
  }

  /** A statistics read either reports a counter and resets it, or does neither. */
  lemma StatisticsConserve(c: Cache, m: Mac)
    requires Wf(c) && Resident(c.lru, m)
    ensures CounterOf(Statistics(c).1, m) + CounterOf(Statistics(c).0.lru, m) == CounterOf(c.lru, m)
  {
    var (c', out) := Statistics(c);
    var i := Find(c.lru, m);
    SameMacsFind(c.lru, c'.lru, m);
    assert c'.lru[i].mac == m;
    if i < |out| {
      LookupAt(out, i);
    } else {
      assert forall j :: 0 <= j < |out| ==> out[j] == c.lru[j];
    }
  }

  lemma OthersPutKeepsCounter(c: Cache, adv: Report, m: Mac)
    requires Wf(c) && adv.mac != m && Resident(c.lru, m) && Resident(Put(c, adv).lru, m)
    ensures CounterOf(Put(c, adv).lru, m) == CounterOf(c.lru, m)
  {
    PutResidents(c, adv, m);
    PutKeeps(c, adv, m);
  }

  lemma StepConserves(c: Cache, e: Event, m: Mac)
    requires Wf(c) && Resident(c.lru, m) && Resident(Apply(c, e).lru, m) && !e.ClearTable?
    ensures Congruent(CounterOf(Apply(c, e).lru, m) + ReportedBy(c, e, m), CounterOf(c.lru, m) + PutCall(e, m))
  {
    var before, after := CounterOf(c.lru, m) + PutCall(e, m), CounterOf(Apply(c, e).lru, m) + ReportedBy(c, e, m);
    assert after == before + Turns(0) || after == before + Turns(-1) by {
    if e.PutAdv? {
      assert Apply(c, e) == Put(c, e.adv);
      if e.adv.mac == m {
        PutCounts(c, e.adv);
      } else {
        OthersPutKeepsCounter(c, e.adv, m);
      }
    } else if e.ReadStatistics? {
      assert Apply(c, e) == Statistics(c).0;
      StatisticsConserve(c, m);
    } else {
      assert Apply(c, e).lru == c.lru;
    }
    }
  }

  lemma Telescope(start: int, mid: int, end: int, reported: int, puts: int, reported': int, puts': int)
    requires Congruent(mid + reported, start + puts)
    requires Congruent(end + reported', mid + puts')
    ensures Congruent(end + (reported + reported'), start + (puts + puts'))
  {
    var k :| mid + reported == start + puts + Turns(k);
    var k' :| end + reported' == mid + puts' + Turns(k');
    assert end + (reported + reported') == start + (puts + puts') + Turns(k + k');
  }

  /** MAIN RESULT. While a sensor stays in the table and the table is not cleared, what the
      statistics reads report for it and its current counter add up to its counter at the
      start and the put calls since, modulo 2^32. */
  lemma {:induction false} CountersConserved(events: seq<Event>, m: Mac, from: nat)
    requires from <= |events| && Stays(events, m, from)
    ensures Congruent(CounterOf(Run(events).lru, m) + Reported(events, m, from),
                      CounterOf(Run(events[..from]).lru, m) + PutCalls(events, m, from))
  {
    if |events| == from {
      assert events[..from] == events;
      CongruentIsEqualModulo(CounterOf(Run(events).lru, m), CounterOf(Run(events).lru, m));
    } else {
      var b, e := Before(events), Last(events);
      assert b[..from] == events[..from];
      CountersConserved(b, m, from);
      RunWf(b);
      StepConserves(Run(b), e, m);
      var start, mid, end := CounterOf(Run(events[..from]).lru, m), CounterOf(Run(b).lru, m),
        CounterOf(Run(events).lru, m);
      var r, p, r', p' := Reported(b, m, from), PutCalls(b, m, from), ReportedBy(Run(b), e, m), PutCall(e, m);
      assert Congruent(mid + r, start + p);
      assert Run(events) == Apply(Run(b), e);
      assert Reported(events, m, from) == r + r' && PutCalls(events, m, from) == p + p';
      Telescope(start, mid, end, r, p, r', p');
    }
  }

  lemma InsertionCounter(c: Cache, adv: Report)
    requires Wf(c) && !Resident(c.lru, adv.mac)
    ensures CounterOf(Put(c, adv).lru, adv.mac) == adv.counter
  {
    PutWf(c, adv);
    LookupAt(Put(c, adv).lru, 0);
  }

  /** Counting from the put that inserted the sensor: received advertisements carry a zero
      counter, so the reports and the current counter add up to the put calls after it. */
  lemma CountersFromInsertion(events: seq<Event>, from: nat)
    requires 0 < from <= |events| && events[from - 1].PutAdv? && events[from - 1].adv.counter == 0
    requires !Resident(Run(events[..from - 1]).lru, events[from - 1].adv.mac)
    requires Stays(events, events[from - 1].adv.mac, from)
    ensures var m := events[from - 1].adv.mac;
            Congruent(CounterOf(Run(events).lru, m) + Reported(events, m, from), PutCalls(events, m, from))
  {
    var p := events[..from];
    assert Before(p) == events[..from - 1];
    RunWf(Before(p));
    InsertionCounter(Run(Before(p)), events[from - 1].adv);
    assert Run(p) == Apply(Run(Before(p)), Last(p)) == Put(Run(Before(p)), events[from - 1].adv);
    CountersConserved(events, events[from - 1].adv.mac, from);
  }

  // ---------------------------------------------------------------- history

  /** All used reports that the filter selects. */
  function Filtered(rs: seq<Report>, f: HistoryFilter): seq<Report> {
    if rs == [] then []
    else (if Wanted(f, rs[0]) then [rs[0]] else []) + Filtered(rs[1..], f)
  }

  /** No wanted report follows an unwanted one. */
  ghost predicate WantedFirst(rs: seq<Report>, f: HistoryFilter) {
    forall i, j :: 0 <= i < j < |rs| && Wanted(f, rs[j]) ==> Wanted(f, rs[i])
  }

  lemma {:induction false} NothingFiltered(rs: seq<Report>, f: HistoryFilter)
    ensures Filtered(rs, f) == [] <==> forall i :: 0 <= i < |rs| ==> !Wanted(f, rs[i])
  {
    if rs != [] {
      NothingFiltered(rs[1..], f);
      assert forall i :: 1 <= i < |rs| ==> rs[i] == rs[1..][i - 1];
    }
  }

  lemma WantedFirstTail(rs: seq<Report>, f: HistoryFilter)
    requires rs != []
    ensures Wanted(f, rs[0]) ==> (WantedFirst(rs, f) <==> WantedFirst(rs[1..], f))
    ensures !Wanted(f, rs[0]) ==> (WantedFirst(rs, f) <==> forall i :: 0 <= i < |rs[1..]| ==> !Wanted(f, rs[1..][i]))
  {
    assert forall i :: 1 <= i < |rs| ==> rs[i] == rs[1..][i - 1];
  }

  /** The scan that stops at the first unwanted report finds every wanted one exactly when
      no wanted report follows an unwanted one. */
  lemma {:induction false} ScanIsFilter(rs: seq<Report>, f: HistoryFilter)
    ensures rs[..ScanLen(rs, f)] == Filtered(rs, f) <==> WantedFirst(rs, f)
  {
    if rs != [] {
      WantedFirstTail(rs, f);
      var t, n := rs[1..], ScanLen(rs[1..], f);
      if Wanted(f, rs[0]) {
        ScanIsFilter(t, f);
        assert rs[..n + 1] == [rs[0]] + t[..n];
        assert [rs[0]] + t[..n] == [rs[0]] + Filtered(t, f) <==> t[..n] == Filtered(t, f) by {
          assert ([rs[0]] + t[..n])[1..] == t[..n] && ([rs[0]] + Filtered(t, f))[1..] == Filtered(t, f);
        }
      } else {
        NothingFiltered(t, f);
        assert Filtered(rs, f) == Filtered(t, f);
      }
    }
  }

  /** How old a timestamp is in the eyes of a request: seconds before the current time, or
      received advertisements before the requested count. */
  function Age(f: HistoryFilter, timestamp: u32): int {
    if f.useTimestamps then SubU32(f.curTime, timestamp) else -ToSigned(SubU32(timestamp, f.filter))
  }

  lemma SelectedByAge(f: HistoryFilter, r: Report, s: Report)
    requires Age(f, r.timestamp) <= Age(f, s.timestamp) && Selected(f, s)
    ensures Selected(f, r)
  {
  }

  /** Later puts are not older. */
  ghost predicate PutsInOrder(events: seq<Event>, f: HistoryFilter) {
    forall i, j :: 0 <= i < j < |events| && events[i].PutAdv? && events[j].PutAdv? ==>
                     Age(f, events[i].adv.timestamp) >= Age(f, events[j].adv.timestamp)
  }

  lemma AgeInRange(f: HistoryFilter, timestamp: u32)
    requires if f.useTimestamps then timestamp <= f.curTime
             else -0x8000_0000 <= timestamp - f.filter < 0x8000_0000
    ensures Age(f, timestamp) == (if f.useTimestamps then f.curTime else f.filter) - timestamp
  {
  }

  /** Timestamps that never decrease and are not in the future put a run in order; so do
      counts that never decrease and lie within 2^31 of the requested one. */
  lemma TimestampsInOrder(events: seq<Event>, f: HistoryFilter)
    requires forall i, j :: 0 <= i < j < |events| && events[i].PutAdv? && events[j].PutAdv? ==>
                              events[i].adv.timestamp <= events[j].adv.timestamp
    requires forall i :: 0 <= i < |events| && events[i].PutAdv? ==>
                           if f.useTimestamps then events[i].adv.timestamp <= f.curTime
                           else -0x8000_0000 <= events[i].adv.timestamp - f.filter < 0x8000_0000
    ensures PutsInOrder(events, f)
  {
    forall i | 0 <= i < |events| && events[i].PutAdv?
      ensures Age(f, events[i].adv.timestamp)
              == (if f.useTimestamps then f.curTime else f.filter) - events[i].adv.timestamp {
      AgeInRange(f, events[i].adv.timestamp);
    }
  }

  lemma {:induction false} LatestFromLog(log: seq<Report>, i: nat)
    requires i < |Latest(log)|
    ensures Latest(log)[i] in log
  {
    if i < |Latest(log[1..])| {
      LatestFromLog(log[1..], i);
    }
  }

  lemma {:induction false} LogFromPuts(events: seq<Event>, r: Report)
    requires r in Log(events)
    ensures PutAdv(r) in events
  {
    var b, e := Before(events), Last(events);
    assert forall x :: x in b ==> x in events;
    if r in Log(b) {
      LogFromPuts(b, r);
    }
  }

  ghost predicate OldestFirst(rs: seq<Report>, f: HistoryFilter) {
    forall i, j :: 0 <= i < j < |rs| ==> Age(f, rs[i].timestamp) >= Age(f, rs[j].timestamp)
  }

  lemma {:induction false} LogInOrder(events: seq<Event>, f: HistoryFilter)
    requires PutsInOrder(events, f)
    ensures OldestFirst(Log(events), f)
  {
    if events != [] {
      var b, e := Before(events), Last(events);
      LogInOrder(b, f);
      if e.PutAdv? {
        forall i | 0 <= i < |Log(b)| ensures Age(f, Log(b)[i].timestamp) >= Age(f, e.adv.timestamp) {
          LogFromPuts(b, Log(b)[i]);
          var j :| 0 <= j < |b| && b[j] == PutAdv(Log(b)[i]);
          assert events[j] == b[j];
        }
      }
    }
  }

  lemma {:induction false} LatestInOrder(log: seq<Report>, f: HistoryFilter, i: nat, j: nat)
    requires OldestFirst(log, f) && i < j < |Latest(log)|
    ensures Age(f, Latest(log)[i].timestamp) <= Age(f, Latest(log)[j].timestamp)
  {
    LatestFromLog(log, i);
    if j < |Latest(log[1..])| {
      LatestInOrder(log[1..], f, i, j);
    }
  }

  /** MAIN RESULT. When puts come in order, the history is every used report that the filter
      selects, and it lists the youngest first. */
  lemma HistoryIsFilter(events: seq<Event>, f: HistoryFilter)
    requires PutsCarryData(events) && PutsInOrder(events, f)
    ensures History(Run(events), f) == Filtered(Run(events).lru, f)
    ensures forall i, j :: 0 <= i < j < |Used(Run(events).lru)| ==>
              Age(f, Run(events).lru[i].timestamp) <= Age(f, Run(events).lru[j].timestamp)
  {
    var rs, newest := Run(events).lru, Newest(Log(events));
    UsedReportsAreNewest(events);
    LogInOrder(events, f);
    forall i | 0 <= i < |Used(rs)| ensures rs[i].timestamp == newest[i].timestamp {
      assert SameButCounter(Used(rs)[i], newest[i]);
    }
    forall i, j | 0 <= i < j < |Used(rs)| ensures Age(f, rs[i].timestamp) <= Age(f, rs[j].timestamp) {
      LatestInOrder(Log(events), f, i, j);
    }
    forall i, j | 0 <= i < j < |rs| && Wanted(f, rs[j]) ensures Wanted(f, rs[i]) {
      SelectedByAge(f, rs[i], rs[j]);
    }
    ScanIsFilter(rs, f);
  }
}
