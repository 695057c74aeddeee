/** A firmware update as a function of everything that can go wrong in it: which partitions
    it writes, and when it switches the boot partition. */
module FwUpdate {
  import opened Common
  import opened OtaSession
  import opened FlashChip
  import opened OtaOps

  // ---------------------------------------------------------------- the partitions to update

  const OTA_0 := "ota_0"

  function GwuiName(second: bool): string {
    if second then "fatfs_gwui_2" else "fatfs_gwui"
  }

  function NrfName(second: bool): string {
    if second then "fatfs_nrf52_2" else "fatfs_nrf52"
  }

  predicate IsFat(p: Partition, name: string) {
    p.kind == FatData && p.name == name
  }

  /** The first data partition of that name. */
  function FindFat(table: seq<Partition>, name: string): (r: Option<Partition>)
    ensures r.Some? ==> exists i :: 0 <= i < |table| && r.value == table[i] && IsFat(table[i], name)
                                    && forall k :: 0 <= k < i ==> !IsFat(table[k], name)
    ensures r.None? ==> forall p :: p in table ==> !IsFat(p, name)
  {
    if table == [] then None
    else if table[0].kind == FatData && table[0].name == name then Some(table[0])
    else FindFat(table[1..], name)
  }

  datatype FlashInfo = FlashInfo(
    boot: Partition, running: Partition, nextApp: Partition, isOta0: bool, nextGwui: Partition, nextNrf: Partition)

  datatype ReadInfo = Failed | NullDereference | Info(info: FlashInfo)

  /** What the firmware finds out about its partitions at start-up. When the second nRF52
      partition is missing, the first one stands in for it, but only while ota_0 runs; when
      that is missing, too, the code goes on with a null pointer. */
  function ReadFlashInfo(
    table: seq<Partition>, boot: Option<Partition>, running: Option<Partition>, stateOk: bool,
    next: Option<Partition>): ReadInfo
  {
    if boot.None? || running.None? || !stateOk || next.None? then Failed
    else
      var isOta0 := running.value.name == OTA_0;
      var gwui := FindFat(table, GwuiName(isOta0));
      if gwui.None? then Failed
      else
        var nrf := FindFat(table, NrfName(isOta0));
        if nrf.None? && !isOta0 then Failed
        else
          var nrf' := if nrf.None? then FindFat(table, NrfName(false)) else nrf;
          if nrf'.None? then NullDereference
          else Info(FlashInfo(boot.value, running.value, next.value, isOta0, gwui.value, nrf'.value))
  }

  ghost predicate HasFat(table: seq<Partition>, name: string) {
    exists p :: p in table && p.kind == FatData && p.name == name
  }

  lemma FindFatIff(table: seq<Partition>, name: string)
    ensures FindFat(table, name).Some? <==> HasFat(table, name)
  {
    if p :| p in table && p.kind == FatData && p.name == name {
      assert IsFat(p, name);
    }
  }

  /** When an update is possible at all: the partitions of the image that does not run must be
      there. While ota_0 runs and both nRF52 partitions are missing, a null pointer is used. */
  lemma ReadInfoIff(
    table: seq<Partition>, boot: Option<Partition>, running: Option<Partition>, stateOk: bool, next: Option<Partition>)
    ensures var r := ReadFlashInfo(table, boot, running, stateOk, next);
            var apps := boot.Some? && running.Some? && stateOk && next.Some?;
            var first := running.Some? && running.value.name == "ota_0";
            && (r.Info? <==>
                  apps && if first then HasFat(table, "fatfs_gwui_2")
                                        && (HasFat(table, "fatfs_nrf52_2") || HasFat(table, "fatfs_nrf52"))
                          else HasFat(table, "fatfs_gwui") && HasFat(table, "fatfs_nrf52"))
            && (r.NullDereference? <==>
                  apps && first && HasFat(table, "fatfs_gwui_2")
                  && !HasFat(table, "fatfs_nrf52_2") && !HasFat(table, "fatfs_nrf52"))
            && (r.Info? ==>
                  r.info.boot == boot.value && r.info.running == running.value && r.info.nextApp == next.value)
  {
    FindFatIff(table, "fatfs_gwui");
    FindFatIff(table, "fatfs_gwui_2");
    FindFatIff(table, "fatfs_nrf52");
    FindFatIff(table, "fatfs_nrf52_2");
  }

  /** The data partitions that serve the running image. */
  function CurrentGwuiName(info: FlashInfo): string { GwuiName(!info.isOta0) }

  function CurrentNrfName(info: FlashInfo): string { NrfName(!info.isOta0) }

  // ---------------------------------------------------------------- downloads

  const OKAY: nat := 200

  predicate Redirect(code: nat) { code == 301 || code == 302 }

  /** One body event of a download, and whether the flash takes the writes it leads to. */
  datatype Event = Event(code: nat, data: seq<bv8>, flushOk: bool, bulkOk: bool)

  datatype Download = Download(s: Session, isError: bool)

  /** A download into the app partition; the second result tells the client to go on. */
  function OnOtaData(d: Download, encrypted: bool, ev: Event): (Download, bool)
    requires |d.s.buf| == BLOCK && d.s.partial <= BLOCK
  {
    if d.isError then (d, false)
    else if ev.code != OKAY then (d.(isError := !Redirect(ev.code)), Redirect(ev.code))
    else
      var (s, err) := WriteChunk(d.s, encrypted, ev.data, ev.flushOk, ev.bulkOk);
      (Download(s, err != OK), err == OK)
  }

  /** A download into a data partition. */
  function OnData(d: Download, ev: Event): (Download, bool) {
    if d.isError then (d, false)
    else if ev.code != OKAY then (d.(isError := !Redirect(ev.code)), Redirect(ev.code))
    else
      var (s, err) := BulkWrite(d.s, ev.data, ev.bulkOk);
      (Download(s, err != OK), err == OK)
  }

  ghost function OtaEvents(size: nat, encrypted: bool, events: seq<Event>): (r: Download)
    ensures Wf(r.s, encrypted) && r.s.size == size
  {
    if events == [] then Download(Start(size), false)
    else
      var d := OtaEvents(size, encrypted, events[..|events| - 1]);
      var ev := events[|events| - 1];
      WriteChunkWf(d.s, encrypted, ev.data, ev.flushOk, ev.bulkOk);
      OnOtaData(d, encrypted, ev).0
  }

  ghost function DataEvents(size: nat, events: seq<Event>): (r: Download)
    ensures Wf(r.s, false) && r.s.size == size
  {
    if events == [] then Download(Start(size), false)
    else
      var d := DataEvents(size, events[..|events| - 1]);
      var ev := events[|events| - 1];
      if Takes(d.s, ev.data, ev.bulkOk) then
        WroteWf(d.s, false, ev.data);
        OnData(d, ev).0
      else OnData(d, ev).0
  }

  /** The chunks of the file itself: the bodies of the answers that are no redirections. */
  ghost function Bodies(events: seq<Event>): seq<seq<bv8>> {
    if events == [] then []
    else
      var ev := events[|events| - 1];
      Bodies(events[..|events| - 1]) + if ev.code == OKAY then [ev.data] else []
  }

  ghost function File(events: seq<Event>): seq<bv8> {
    Concat(Bodies(events))
  }

  lemma ConcatSnoc(chunks: seq<seq<bv8>>, chunk: seq<bv8>)
    ensures Concat(chunks + [chunk]) == Concat(chunks) + chunk
  {
    assert (chunks + [chunk])[..|chunks|] == chunks;
  }

  /** A write that is taken does not depend on what else might have failed. */
  lemma TakenRegardless(s: Session, encrypted: bool, chunk: seq<bv8>, flushOk: bool, bulkOk: bool)
    requires |s.buf| == BLOCK && s.partial <= BLOCK
    requires WriteChunk(s, encrypted, chunk, flushOk, bulkOk).1 == OK
    ensures WriteChunk(s, encrypted, chunk, true, true) == WriteChunk(s, encrypted, chunk, flushOk, bulkOk)
  {
  }

  lemma ReceiveSnoc(size: nat, encrypted: bool, chunks: seq<seq<bv8>>, chunk: seq<bv8>, flushOk: bool, bulkOk: bool)
    requires Receive(size, encrypted, chunks).Some?
    requires WriteChunk(Receive(size, encrypted, chunks).value, encrypted, chunk, flushOk, bulkOk).1 == OK
    ensures Receive(size, encrypted, chunks + [chunk])
         == Some(WriteChunk(Receive(size, encrypted, chunks).value, encrypted, chunk, flushOk, bulkOk).0)
  {
    TakenRegardless(Receive(size, encrypted, chunks).value, encrypted, chunk, flushOk, bulkOk);
    assert (chunks + [chunk])[..|chunks|] == chunks;
  }

  lemma {:induction false} OtaEventsReceive(size: nat, encrypted: bool, events: seq<Event>)
    requires !OtaEvents(size, encrypted, events).isError
    ensures Receive(size, encrypted, Bodies(events)) == Some(OtaEvents(size, encrypted, events).s)
  {
    if events != [] {
      var before, ev := events[..|events| - 1], events[|events| - 1];
      OtaEventsReceive(size, encrypted, before);
      if ev.code == OKAY {
        ReceiveSnoc(size, encrypted, Bodies(before), ev.data, ev.flushOk, ev.bulkOk);
      } else {
        assert Bodies(events) == Bodies(before);
      }
    }
  }

  lemma {:induction false} DataEventsFlat(size: nat, events: seq<Event>)
    requires !DataEvents(size, events).isError
    ensures Flat(DataEvents(size, events).s.log) == File(events)
  {
    if events != [] {
      var before, ev := events[..|events| - 1], events[|events| - 1];
      var d := DataEvents(size, before);
      DataEventsFlat(size, before);
      if ev.code == OKAY {
        TilesSnoc(d.s.log, d.s.wrote, ev.data);
        ConcatSnoc(Bodies(before), ev.data);
      } else {
        assert Bodies(events) == Bodies(before);
      }
    }
  }

  /** An answer of the server that a download survives, when the writes work it leads to. */
  predicate Fine(ev: Event, writesWork: bool) {
    (ev.code == 200 && writesWork) || ev.code == 301 || ev.code == 302
  }

  /** The same for an answer behind others, in the download of an app image. */
  ghost predicate OtaFineAfter(before: seq<Event>, encrypted: bool, ev: Event) {
    Fine(ev, WritesWork(|File(before)|, |ev.data|, encrypted, ev.flushOk, ev.bulkOk))
  }

  /** Whether every answer is fine, the app image begins as one, and its whole blocks fit. */
  ghost predicate OtaFine(size: nat, encrypted: bool, events: seq<Event>) {
    && (forall i :: 0 <= i < |events| ==> OtaFineAfter(events[..i], encrypted, events[i]))
    && Magical(File(events)) && Whole(|File(events)|, encrypted) <= size
  }

  /** Whether every answer is fine, and the file fits. */
  ghost predicate DataFine(size: nat, events: seq<Event>) {
    && (forall i :: 0 <= i < |events| ==> Fine(events[i], events[i].bulkOk))
    && |File(events)| <= size
  }

  lemma FileSnoc(before: seq<Event>, ev: Event)
    ensures File(before + [ev]) == if ev.code == OKAY then File(before) + ev.data else File(before)
  {
    assert (before + [ev])[..|before|] == before;
    if ev.code == OKAY {
      ConcatSnoc(Bodies(before), ev.data);
    } else {
      assert Bodies(before + [ev]) == Bodies(before);
    }
  }

  /** The image only grows: what it begins with, and how much of it there is. */
  lemma FileGrows(size: nat, encrypted: bool, before: seq<Event>, ev: Event)
    requires Magical(File(before + [ev])) && Whole(|File(before + [ev])|, encrypted) <= size
    ensures Magical(File(before)) && Whole(|File(before)|, encrypted) <= size
  {
    FileSnoc(before, ev);
    WholeGrows(|File(before)|, |File(before + [ev])| - |File(before)|, encrypted);
  }

  lemma OtaFineSnoc(size: nat, encrypted: bool, before: seq<Event>, ev: Event)
    ensures var image := File(before + [ev]);
            OtaFine(size, encrypted, before + [ev]) <==>
              OtaFine(size, encrypted, before) && OtaFineAfter(before, encrypted, ev)
              && Magical(image) && Whole(|image|, encrypted) <= size
  {
    var events := before + [ev];
    if Magical(File(events)) && Whole(|File(events)|, encrypted) <= size {
      FileGrows(size, encrypted, before, ev);
    }
    assert events[..|before|] == before && events[|before|] == ev;
    forall i | 0 <= i < |before|
      ensures OtaFineAfter(events[..i], encrypted, events[i]) == OtaFineAfter(before[..i], encrypted, before[i])
    {
      assert events[..i] == before[..i];
    }
  }

  /** The download of an app image ends without an error exactly when the answers of the
      server and the image allow it. */
  lemma {:induction false} OtaEventsIff(size: nat, encrypted: bool, events: seq<Event>)
    ensures !OtaEvents(size, encrypted, events).isError <==> OtaFine(size, encrypted, events)
  {
    if events != [] {
      var before, ev := events[..|events| - 1], events[|events| - 1];
      var d := OtaEvents(size, encrypted, before);
      assert events == before + [ev];
      OtaEventsIff(size, encrypted, before);
      OtaFineSnoc(size, encrypted, before, ev);
      FileSnoc(before, ev);
      if !d.isError && ev.code == OKAY {
        OtaEventsReceive(size, encrypted, before);
        ReceivedIsConcat(size, encrypted, Bodies(before));
        ChunkTaken(d.s, encrypted, ev.data, ev.flushOk, ev.bulkOk);
      }
    }
  }

  lemma DataFineSnoc(size: nat, before: seq<Event>, ev: Event)
    ensures DataFine(size, before + [ev]) <==>
              DataFine(size, before) && Fine(ev, ev.bulkOk) && |File(before + [ev])| <= size
  {
    var events := before + [ev];
    FileSnoc(before, ev);
    assert events[|before|] == ev;
    assert forall i :: 0 <= i < |before| ==> events[i] == before[i];
  }

  /** The same for a download into a data partition. */
  lemma {:induction false} DataEventsIff(size: nat, events: seq<Event>)
    ensures !DataEvents(size, events).isError <==> DataFine(size, events)
  {
    if events != [] {
      var before, ev := events[..|events| - 1], events[|events| - 1];
      var d := DataEvents(size, before);
      assert events == before + [ev];
      DataEventsIff(size, before);
      DataFineSnoc(size, before, ev);
      FileSnoc(before, ev);
      if !d.isError {
        DataEventsFlat(size, before);
        FlatLength(d.s.log, d.s.wrote);
      }
    }
  }

  // ---------------------------------------------------------------- the update

  datatype DataEnv = DataEnv(urlOk: bool, eraseFailAt: Option<nat>, events: seq<Event>, completed: bool)

  datatype OtaEnv = OtaEnv(
    urlOk: bool, pendingVerify: bool, eraseFailAt: Option<nat>, entryOk: bool, encrypted: bool,
    events: seq<Event>, completed: bool, tailOk: bool, memOk: bool, imageOk: bool)

  datatype Env = Env(ota: OtaEnv, gwui: DataEnv, nrf: DataEnv, setBootOk: bool, nrfFlashed: bool)

  /** The flash, the boot partition it names, and what the firmware believes about it. */
  datatype Gateway = Gateway(content: Content, otaBoot: Partition, info: FlashInfo)

  ghost predicate Sized(content: Content) {
    forall p :: p in content ==> |content[p]| == p.size && p.size > 0
  }

  /** What a partition holds that was erased before the session. */
  ghost function Memory(s: Session): (r: seq<bv8>)
    requires s.wrote <= s.size && Tiles(s.log, s.wrote)
    ensures |r| == s.size && Flat(s.log) <= r
  {
    FlatLength(s.log, s.wrote);
    Flat(s.log) + Fills(s.size - s.wrote)
  }

  /** Download and end of the session on an erased partition. */
  ghost function RunSession(content: Content, app: Partition, env: OtaEnv): (r: (Content, bool))
    requires Sized(content) && app in content
    ensures Sized(r.0) && r.0.Keys == content.Keys
  {
    var d := OtaEvents(app.size, env.encrypted, env.events);
    var (s, err) := Finish(d.s, env.tailOk, env.memOk, env.imageOk);
    FinishWf(d.s, env.encrypted, env.tailOk, env.memOk, env.imageOk);
    (content[app := Memory(s)], err == OK && env.completed && !d.isError)
  }

  ghost function UpdateOta(content: Content, info: FlashInfo, env: OtaEnv): (r: (Content, bool))
    requires Sized(content)
    ensures Sized(r.0) && r.0.Keys == content.Keys
  {
    var app := info.nextApp;
    if !env.urlOk || BeginRefusal(Some(app), content.Keys, info.running, env.pendingVerify) != OK then (content, false)
    else
      var (erased, err) := EraseResult(content[app], app.size, env.eraseFailAt);
      if err != OK || !env.entryOk then (content[app := erased], false)
      else RunSession(content[app := erased], app, env)
  }

  ghost function UpdateData(content: Content, p: Partition, env: DataEnv): (r: (Content, bool))
    requires Sized(content) && p in content
    ensures Sized(r.0) && r.0.Keys == content.Keys
  {
    if !env.urlOk then (content, false)
    else
      var (erased, err) := EraseResult(content[p], p.size, env.eraseFailAt);
      if err != OK then (content[p := erased], false)
      else
        var d := DataEvents(p.size, env.events);
        (content[p := Memory(d.s)], env.completed && !d.isError)
  }

  ghost predicate Known(g: Gateway) {
    Sized(g.content) && g.info.nextGwui in g.content && g.info.nextNrf in g.content
  }

  /** The whole update; the boot partition is switched after all three downloads. */
  ghost function DoActions(g: Gateway, env: Env): (r: (Gateway, bool))
    requires Known(g)
    ensures Known(r.0) && r.0.content.Keys == g.content.Keys
  {
    var (c1, ok1) := UpdateOta(g.content, g.info, env.ota);
    if !ok1 then (g.(content := c1), false)
    else
      var (c2, ok2) := UpdateData(c1, g.info.nextGwui, env.gwui);
      if !ok2 then (g.(content := c2), false)
      else
        var (c3, ok3) := UpdateData(c2, g.info.nextNrf, env.nrf);
        if !ok3 || !env.setBootOk then (g.(content := c3), false)
        else
          (Gateway(c3, g.info.nextApp, g.info.(boot := g.info.nextApp, isOta0 := !g.info.isOta0)), env.nrfFlashed)
  }

  // ---------------------------------------------------------------- what an update keeps

  /** The firmware read its flash info and runs from an app partition. */
  ghost predicate Informed(g: Gateway, table: seq<Partition>) {
    && Sized(g.content) && (forall p :: p in table <==> p in g.content)
    && g.info.running in table && g.info.running.kind == OtaApp
    && exists boot, next: Option<Partition> ::
         ReadFlashInfo(table, boot, Some(g.info.running), true, next) == Info(g.info)
  }

  /** Which partitions an update is aimed at, by name: while ota_0 runs, the second ones, where
      the first nRF52 partition stands in for a missing second one; otherwise the first ones. */
  lemma InformedTargets(g: Gateway, table: seq<Partition>)
    requires Informed(g, table)
    ensures Known(g) && g.info.isOta0 == (g.info.running.name == "ota_0")
    ensures g.info.nextGwui.kind == g.info.nextNrf.kind == FatData
    ensures g.info.running.name == "ota_0" ==>
              g.info.nextGwui.name == "fatfs_gwui_2"
              && g.info.nextNrf.name == if exists q :: q in table && q.kind == FatData && q.name == "fatfs_nrf52_2"
                                        then "fatfs_nrf52_2" else "fatfs_nrf52"
    ensures g.info.running.name != "ota_0" ==>
              g.info.nextGwui.name == "fatfs_gwui" && g.info.nextNrf.name == "fatfs_nrf52"
  {
    if q :| q in table && q.kind == FatData && q.name == "fatfs_nrf52_2" {
      assert IsFat(q, NrfName(true));
    }
  }

  lemma OtaTouches(content: Content, info: FlashInfo, env: OtaEnv, p: Partition)
    requires Sized(content) && p in content && (p != info.nextApp || p == info.running)
    ensures UpdateOta(content, info, env).0[p] == content[p]
  {
  }

  lemma DataTouches(content: Content, q: Partition, env: DataEnv, p: Partition)
    requires Sized(content) && q in content && p in content && p != q
    ensures UpdateData(content, q, env).0[p] == content[p]
  {
  }

  lemma ActionsTouch(g: Gateway, env: Env, p: Partition)
    requires Known(g) && p in g.content && (p != g.info.nextApp || p == g.info.running)
    requires p != g.info.nextGwui && p != g.info.nextNrf
    ensures DoActions(g, env).0.content[p] == g.content[p]
  {
    var c1 := UpdateOta(g.content, g.info, env.ota).0;
    var c2 := UpdateData(c1, g.info.nextGwui, env.gwui).0;
    OtaTouches(g.content, g.info, env.ota, p);
    DataTouches(c1, g.info.nextGwui, env.gwui, p);
    DataTouches(c2, g.info.nextNrf, env.nrf, p);
  }

  /** MAIN RESULT. Whatever fails, an update touches only the inactive app partition and the
      two chosen data partitions; the running app is never erased or written, and nothing at
      all is touched when the partition to update is the running one. */
  lemma OnlyTargetsTouched(g: Gateway, table: seq<Partition>, env: Env, p: Partition)
    requires Informed(g, table) && p in g.content
    ensures Known(g)
    ensures p == g.info.running || p !in {g.info.nextApp, g.info.nextGwui, g.info.nextNrf} ==>
              DoActions(g, env).0.content[p] == g.content[p]
    ensures g.info.nextApp == g.info.running ==> DoActions(g, env) == (g, false)
  {
    InformedTargets(g, table);
    if p == g.info.running || p !in {g.info.nextApp, g.info.nextGwui, g.info.nextNrf} {
      ActionsTouch(g, env, p);
    }
  }

  lemma NamesDiffer()
    ensures "fatfs_gwui" != "fatfs_gwui_2" && "fatfs_nrf52" != "fatfs_nrf52_2"
    ensures "fatfs_gwui" != "fatfs_nrf52" && "fatfs_gwui" != "fatfs_nrf52_2"
    ensures "fatfs_gwui_2" != "fatfs_nrf52" && "fatfs_gwui_2" != "fatfs_nrf52_2"
    ensures GwuiName(true) != GwuiName(false) && NrfName(true) != NrfName(false)
    ensures forall a, b :: GwuiName(a) != NrfName(b)
  {
    assert GwuiName(true)[6] == GwuiName(false)[6] == 'g';
    assert NrfName(true)[6] == NrfName(false)[6] == 'n';
  }

  /** MAIN RESULT. The data partitions that serve the running image are not touched: while ota_0
      runs, fatfs_gwui, and fatfs_nrf52 as long as there is a second one; otherwise fatfs_gwui_2
      and fatfs_nrf52_2. */
  lemma CurrentDataUntouched(g: Gateway, table: seq<Partition>, env: Env, p: Partition)
    requires Informed(g, table) && p in g.content && p.kind == FatData
    ensures Known(g)
    ensures g.info.running.name == "ota_0" && p.name == "fatfs_gwui" ==>
              DoActions(g, env).0.content[p] == g.content[p]
    ensures g.info.running.name == "ota_0" && p.name == "fatfs_nrf52" ==>
              (exists q :: q in table && q.kind == FatData && q.name == "fatfs_nrf52_2") ==>
                DoActions(g, env).0.content[p] == g.content[p]
    ensures g.info.running.name != "ota_0" && (p.name == "fatfs_gwui_2" || p.name == "fatfs_nrf52_2") ==>
              DoActions(g, env).0.content[p] == g.content[p]
  {
    InformedTargets(g, table);
    NamesDiffer();
    if p == g.info.nextApp {
      AppIsNoData(g, env, p);
    } else if p != g.info.nextGwui && p != g.info.nextNrf {
      ActionsTouch(g, env, p);
    }
  }

  /** A partition that is no app partition is refused as the place of the app image. */
  lemma AppIsNoData(g: Gateway, env: Env, p: Partition)
    requires Known(g) && p in g.content && p == g.info.nextApp && p.kind != OtaApp
    ensures DoActions(g, env).0.content[p] == g.content[p]
  {
  }

  // ---------------------------------------------------------------- when an update succeeds

  predicate Erasable(size: u32, failAt: Option<nat>) {
    size % 4096 == 0 && (failAt.None? || failAt.value >= size / 4096)
  }

  /** What it takes to deliver an app image: a partition that may be written and can be
      erased, a download without an error, enough data, room for the last block, and an image
      that is verified. */
  ghost predicate AppArrives(g: Gateway, env: OtaEnv) {
    var app, image := g.info.nextApp, File(env.events);
    && env.urlOk && app in g.content && app.kind == OtaApp && app != g.info.running && !env.pendingVerify
    && Erasable(app.size, env.eraseFailAt) && env.entryOk
    && OtaFine(app.size, env.encrypted, env.events) && env.completed
    && |image| >= (if env.encrypted then 16 else 1)
    && (Total(image, env.encrypted) == |image| || (env.tailOk && Total(image, env.encrypted) <= app.size))
    && env.memOk && env.imageOk
  }

  /** What it takes to deliver a data partition. */
  ghost predicate DataArrives(p: Partition, env: DataEnv) {
    env.urlOk && Erasable(p.size, env.eraseFailAt) && DataFine(p.size, env.events) && env.completed
  }

  ghost predicate Arrives(g: Gateway, env: Env) {
    AppArrives(g, env.ota) && DataArrives(g.info.nextGwui, env.gwui) && DataArrives(g.info.nextNrf, env.nrf)
  }

  lemma SessionIff(content: Content, app: Partition, env: OtaEnv)
    requires Sized(content) && app in content
    ensures var image := File(env.events);
            RunSession(content, app, env).1 <==>
              && OtaFine(app.size, env.encrypted, env.events) && env.completed
              && |image| >= (if env.encrypted then 16 else 1)
              && (Total(image, env.encrypted) == |image| || (env.tailOk && Total(image, env.encrypted) <= app.size))
              && env.memOk && env.imageOk
  {
    OtaEventsIff(app.size, env.encrypted, env.events);
    if OtaFine(app.size, env.encrypted, env.events) {
      OtaEventsReceive(app.size, env.encrypted, env.events);
      FinishedImage(app.size, env.encrypted, Bodies(env.events), env.tailOk, env.memOk, env.imageOk);
    }
  }

  lemma AppArrivesIff(g: Gateway, env: OtaEnv)
    requires Known(g)
    ensures UpdateOta(g.content, g.info, env).1 <==> AppArrives(g, env)
  {
    var app := g.info.nextApp;
    if app in g.content {
      SessionIff(g.content[app := EraseResult(g.content[app], app.size, env.eraseFailAt).0], app, env);
    }
  }

  lemma DataArrivesIff(content: Content, p: Partition, env: DataEnv)
    requires Sized(content) && p in content
    ensures UpdateData(content, p, env).1 <==> DataArrives(p, env)
  {
    DataEventsIff(p.size, env.events);
  }

  /** MAIN RESULT. The boot partition is switched exactly when all three files arrive, as the
      answers of the server, the flash and the image decide, and the switch itself works;
      otherwise the boot partition and what the firmware knows of it stay as they were. */
  lemma SwitchedIff(g: Gateway, env: Env)
    requires Known(g)
    ensures var (after, ok) := DoActions(g, env);
            && (after.info.isOta0 != g.info.isOta0 <==> Arrives(g, env) && env.setBootOk)
            && (ok <==> Arrives(g, env) && env.setBootOk && env.nrfFlashed)
            && (if Arrives(g, env) && env.setBootOk then
                  after.otaBoot == g.info.nextApp
                  && after.info == g.info.(boot := g.info.nextApp, isOta0 := !g.info.isOta0)
                else after.otaBoot == g.otaBoot && after.info == g.info)
  {
    var c1 := UpdateOta(g.content, g.info, env.ota).0;
    var c2 := UpdateData(c1, g.info.nextGwui, env.gwui).0;
    AppArrivesIff(g, env.ota);
    DataArrivesIff(c1, g.info.nextGwui, env.gwui);
    DataArrivesIff(c2, g.info.nextNrf, env.nrf);
  }

  /** A stage that fails leaves the partitions of the later stages alone. */
  lemma LaterStagesUntouched(g: Gateway, env: Env)
    requires Known(g)
    ensures var c, gwui, nrf := DoActions(g, env).0.content, g.info.nextGwui, g.info.nextNrf;
            && (!AppArrives(g, env.ota) && gwui != g.info.nextApp ==> c[gwui] == g.content[gwui])
            && (!(AppArrives(g, env.ota) && DataArrives(gwui, env.gwui)) && nrf != g.info.nextApp && nrf != gwui ==>
                  c[nrf] == g.content[nrf])
  {
    var c1 := UpdateOta(g.content, g.info, env.ota).0;
    AppArrivesIff(g, env.ota);
    DataArrivesIff(c1, g.info.nextGwui, env.gwui);
    if g.info.nextGwui != g.info.nextApp {
      OtaTouches(g.content, g.info, env.ota, g.info.nextGwui);
    }
    if g.info.nextNrf != g.info.nextApp && g.info.nextNrf != g.info.nextGwui {
      OtaTouches(g.content, g.info, env.ota, g.info.nextNrf);
      DataTouches(c1, g.info.nextGwui, env.gwui, g.info.nextNrf);
    }
  }
}
