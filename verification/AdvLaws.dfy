/** What the operations of the table do to a report, said in terms of its data, its timestamp
    and its counter alone. */
module AdvLaws {
  import opened Common
  import opened AdvCache
  import opened AdvRuns
  import opened AdvTheorems
  import opened AdvQueues
  import opened AdvReads

  // ---------------------------------------------------------------- what a put accepts

  /** The data stored for a sensor, or none. */
  ghost function DataOf(rs: seq<Report>, m: Mac): seq<bv8> {
    if Resident(rs, m) then Lookup(rs, m).data else []
  }

  lemma DataIs(rs: seq<Report>, i: nat)
    requires DistinctMacs(rs) && i < |rs|
    ensures DataOf(rs, rs[i].mac) == rs[i].data
  {
    LookupAt(rs, i);
  }

  /** Data other than the stored one, and no regular advertisement behind an extended one, is
      taken over; a sensor without stored data is always taken over. */
  lemma AcceptsIff(c: Cache, adv: Report)
    requires Wf(c) && adv.data != []
    ensures Accepts(c, adv) <==>
              var data := DataOf(c.lru, adv.mac);
              data != adv.data && (|data| <= 31 || |adv.data| > 31)
  {
    if Resident(c.lru, adv.mac) {
      DataIs(c.lru, Find(c.lru, adv.mac));
    }
  }

  /** What an accepted put leaves: the report leads the history and its sensor waits everywhere. */
  lemma AcceptedPut(c: Cache, adv: Report)
    requires Wf(c) && Accepts(c, adv)
    ensures var c' := Put(c, adv);
            && c'.lru != [] && SameButCounter(c'.lru[0], adv)
            && forall k: Queue :: adv.mac in c'.Q(k)
  {
    forall k: Queue ensures adv.mac in Put(c, adv).Q(k) {
      PutQueue(c, adv, k, adv.mac);
    }
  }

  /** What a discarded put leaves: one more counted sample. */
  lemma DiscardedPut(c: Cache, adv: Report)
    requires Wf(c) && !Accepts(c, adv)
    ensures var c' := Put(c, adv);
            && (forall k: Queue :: c'.Q(k) == c.Q(k)) && |c'.lru| == |c.lru|
            && forall i :: 0 <= i < |c.lru| ==>
                 c'.lru[i] == if c.lru[i].mac == adv.mac then c.lru[i].(counter := AddU32(c.lru[i].counter, 1))
                              else c.lru[i]
  {
  }

  /** MAIN RESULT. In every run: a put of other data than the stored one, which is no regular
      advertisement behind a stored extended one, leads the history afterwards and its sensor
      waits in all queues; any other put counts one sample and changes nothing else. */
  lemma PutIsAcceptedIff(events: seq<Event>, adv: Report)
    requires PutsCarryData(events) && adv.data != []
    ensures var c, c' := Run(events), Put(Run(events), adv);
            var taken := forall i :: 0 <= i < |c.lru| && c.lru[i].mac == adv.mac ==>
                           c.lru[i].data != adv.data && (|c.lru[i].data| <= 31 || |adv.data| > 31);
            && (Accepts(c, adv) <==> taken)
            && (taken ==> c'.lru != [] && SameButCounter(c'.lru[0], adv) && forall k: Queue :: adv.mac in c'.Q(k))
            && (!taken ==> (forall k: Queue :: c'.Q(k) == c.Q(k)) && |c'.lru| == |c.lru|
                           && forall i :: 0 <= i < |c.lru| ==>
                                SameButCounter(c'.lru[i], c.lru[i])
                                && c'.lru[i].counter
                                   == if c.lru[i].mac == adv.mac then AddU32(c.lru[i].counter, 1) else c.lru[i].counter)
  {
    var c := Run(events);
    RunWf(events);
    AcceptsIff(c, adv);
    forall i | 0 <= i < |c.lru| && c.lru[i].mac == adv.mac ensures c.lru[i].data == DataOf(c.lru, adv.mac) {
      DataIs(c.lru, i);
    }
    if Resident(c.lru, adv.mac) {
      assert c.lru[Find(c.lru, adv.mac)].mac == adv.mac;
    }
    if Accepts(c, adv) {
      AcceptedPut(c, adv);
    } else {
      DiscardedPut(c, adv);
    }
  }

  lemma PutKeepsLong(c: Cache, adv: Report, m: Mac)
    requires Wf(c) && Resident(Put(c, adv).lru, m) && |DataOf(c.lru, m)| > 31
    ensures |DataOf(Put(c, adv).lru, m)| > 31
  {
    var c' := Put(c, adv);
    PutWf(c, adv);
    if m != adv.mac {
      PutResidents(c, adv, m);
      PutKeeps(c, adv, m);
    } else {
      var i := Find(c.lru, m);
      DataIs(c.lru, i);
      if MustDiscard(adv, c.lru[i]) {
        DataIs(c'.lru, i);
      } else {
        DataIs(c'.lru, 0);
      }
    }
  }

  /** MAIN RESULT. As long as a sensor stays in the table and the table is not cleared, data of
      more than 31 bytes are never replaced by regular ones. */
  lemma {:induction false} LongStaysLong(events: seq<Event>, m: Mac, from: nat)
    requires from <= |events| && Stays(events, m, from) && |DataOf(Run(events[..from]).lru, m)| > 31
    ensures |DataOf(Run(events).lru, m)| > 31
  {
    if |events| == from {
      assert events[..from] == events;
    } else {
      var b, e := Before(events), Last(events);
      assert b[..from] == events[..from];
      LongStaysLong(b, m, from);
      RunWf(b);
      if e.PutAdv? {
        PutKeepsLong(Run(b), e.adv, m);
      } else {
        OtherReports(Run(b), e, m);
      }
    }
  }

  // ---------------------------------------------------------------- what a clear leaves

  /** Reports without data are all zero but for the sensor and the radio parameters. */
  ghost predicate UnusedAreBlank(rs: seq<Report>) {
    forall i :: 0 <= i < |rs| && rs[i].data == [] ==> rs[i].timestamp == 0 && rs[i].counter == 0
  }

  lemma ClearErases(c: Cache)
    ensures var c' := Clear(c);
            && c'.q1 == c'.q2 == c'.q3 == [] && |c'.lru| == |c.lru|
            && forall i :: 0 <= i < |c.lru| ==> c'.lru[i] == Report(0, 0, c.lru[i].mac, c.lru[i].radio, [])
  {
  }

  lemma PutKeepsBlank(c: Cache, adv: Report)
    requires UnusedAreBlank(c.lru) && adv.data != []
    ensures UnusedAreBlank(Put(c, adv).lru)
  {
    var rs := Put(c, adv).lru;
    forall i | 0 <= i < |rs| && rs[i].data == [] ensures rs[i].timestamp == 0 && rs[i].counter == 0 {
      assert rs[i] in c.lru;
    }
  }

  /** In every run, a report is blank unless it holds data. */
  lemma {:induction false} RunBlank(events: seq<Event>)
    requires PutsCarryData(events)
    ensures UnusedAreBlank(Run(events).lru)
  {
    if events != [] {
      RunBlank(Before(events));
      RunWf(Before(events));
      if Last(events).PutAdv? {
        PutKeepsBlank(Run(Before(events)), Last(events).adv);
      }
    }
  }

  // ---------------------------------------------------------------- what a statistics read reports

  /** A statistics read reports the reports before the first zero timestamp, and resets their
      counters and nothing else. */
  lemma StatisticsReadPrefix(c: Cache)
    ensures var (c', out) := Statistics(c);
            && out <= c.lru && (forall i :: 0 <= i < |out| ==> c.lru[i].timestamp != 0)
            && (|out| < |c.lru| ==> c.lru[|out|].timestamp == 0)
            && c'.q1 == c.q1 && c'.q2 == c.q2 && c'.q3 == c.q3 && |c'.lru| == |c.lru|
            && forall i :: 0 <= i < |c.lru| ==>
                 c'.lru[i] == if i < |out| then c.lru[i].(counter := 0) else c.lru[i]
  {
  }

  ghost predicate PutsCarryTime(events: seq<Event>) {
    forall i :: 0 <= i < |events| && events[i].PutAdv? ==> events[i].adv.timestamp != 0
  }

  /** A used report is one of the puts, up to its counter. */
  lemma UsedFromPut(events: seq<Event>, i: nat) returns (j: nat)
    requires PutsCarryData(events) && i < |Run(events).lru| && Run(events).lru[i].data != []
    ensures i < |Used(Run(events).lru)|
    ensures j < |events| && events[j].PutAdv? && SameButCounter(Run(events).lru[i], events[j].adv)
  {
    var rs, newest := Run(events).lru, Newest(Log(events));
    UsedReportsAreNewest(events);
    assert IsUsed(rs[i]);
    assert SameButCounter(Used(rs)[i], newest[i]);
    LatestFromLog(Log(events), i);
    LogFromPuts(events, newest[i]);
    j :| 0 <= j < |events| && events[j] == PutAdv(newest[i]);
  }

  /** MAIN RESULT. In every run whose puts carry data and a timestamp, a statistics read
      reports exactly the reports that hold data, in the order of the history, and afterwards
      all counters are zero. */
  lemma StatisticsReportUsed(events: seq<Event>)
    requires PutsCarryData(events) && PutsCarryTime(events)
    ensures var c := Run(events);
            var (c', out) := Statistics(c);
            && out <= c.lru && (forall i :: 0 <= i < |c.lru| ==> (i < |out| <==> c.lru[i].data != []))
            && |c'.lru| == |c.lru|
            && forall i :: 0 <= i < |c.lru| ==> c'.lru[i] == c.lru[i].(counter := 0)
  {
    var rs := Run(events).lru;
    UsedReportsAreNewest(events);
    RunBlank(events);
    StatisticsReadPrefix(Run(events));
    var n := |Statistics(Run(events)).1|;
    forall i | 0 <= i < |rs| && rs[i].data != [] ensures rs[i].timestamp != 0 {
      var j := UsedFromPut(events, i);
    }
    forall i | 0 <= i < |rs| ensures i < n <==> rs[i].data != [] {
      if n < |rs| {
        assert rs[n].data == [];
        assert !IsUsed(rs[n]);
      }
    }
  }

  // ---------------------------------------------------------------- what a history read returns

  lemma RunWantedFirst(events: seq<Event>, f: HistoryFilter)
    requires PutsCarryData(events) && PutsInOrder(events, f)
    ensures WantedFirst(Run(events).lru, f)
  {
    HistoryIsFilter(events, f);
    ScanIsFilter(Run(events).lru, f);
  }

  /** MAIN RESULT. In every run whose puts carry data and timestamps that never decrease and
      are not ahead of the request, a history read returns the first reports of the history,
      and a report is among them exactly when it holds data and is not too old: no more seconds
      old than asked for, or counted after what was asked for. */
  lemma HistoryByAge(events: seq<Event>, f: HistoryFilter)
    requires PutsCarryData(events)
    requires forall i, j :: 0 <= i < j < |events| && events[i].PutAdv? && events[j].PutAdv? ==>
                              events[i].adv.timestamp <= events[j].adv.timestamp
    requires forall i :: 0 <= i < |events| && events[i].PutAdv? ==>
                           if f.useTimestamps then events[i].adv.timestamp <= f.curTime
                           else -0x8000_0000 <= events[i].adv.timestamp - f.filter < 0x8000_0000
    ensures var rs, out := Run(events).lru, History(Run(events), f);
            && out <= rs
            && forall i :: 0 <= i < |rs| ==>
                 (i < |out| <==>
                    rs[i].data != []
                    && (!f.useFilter || if f.useTimestamps then f.curTime - rs[i].timestamp <= f.filter
                                        else rs[i].timestamp > f.filter))
  {
    var rs, n := Run(events).lru, |History(Run(events), f)|;
    TimestampsInOrder(events, f);
    RunWantedFirst(events, f);
    forall i | 0 <= i < |rs|
      ensures i < n <==>
                rs[i].data != []
                && (!f.useFilter || if f.useTimestamps then f.curTime - rs[i].timestamp <= f.filter
                                    else rs[i].timestamp > f.filter) {
      FirstAreWanted(rs, f, i);
      if rs[i].data != [] {
        var j := UsedFromPut(events, i);
        InRange(f, rs[i].timestamp);
      }
    }
  }

  lemma FirstAreWanted(rs: seq<Report>, f: HistoryFilter, i: nat)
    requires WantedFirst(rs, f) && i < |rs|
    ensures i < ScanLen(rs, f) <==> Wanted(f, rs[i])
  {
  }

  /** Without a wrap-around the filter compares the times themselves. */
  lemma InRange(f: HistoryFilter, timestamp: u32)
    requires if f.useTimestamps then timestamp <= f.curTime
             else -0x8000_0000 <= timestamp - f.filter < 0x8000_0000
    ensures forall r: Report :: r.timestamp == timestamp ==>
              (Selected(f, r) <==>
                 !f.useFilter || if f.useTimestamps then f.curTime - timestamp <= f.filter else timestamp > f.filter)
  {
  }
}
