/** Updates over the life of a gateway: whatever fails in however many updates, the running
    image is served by the data partitions that were delivered with it. */
module FwHistory {
  import opened Common
  import opened OtaSession
  import opened FlashChip
  import opened OtaOps
  import opened FwUpdate

  /** A delivered app image is verified, and the partition begins with its bytes. */
  lemma OtaDelivered(content: Content, info: FlashInfo, env: OtaEnv)
    requires Sized(content) && UpdateOta(content, info, env).1
    ensures BeginRefusal(Some(info.nextApp), content.Keys, info.running, env.pendingVerify) == OK && env.imageOk
    ensures File(env.events) <= UpdateOta(content, info, env).0[info.nextApp]
    ensures |File(env.events)| >= if env.encrypted then BLOCK else 1
  {
    var size := info.nextApp.size;
    var d := OtaEvents(size, env.encrypted, env.events);
    OtaEventsReceive(size, env.encrypted, env.events);
    FinishedImage(size, env.encrypted, Bodies(env.events), env.tailOk, env.memOk, env.imageOk);
    FinishWf(d.s, env.encrypted, env.tailOk, env.memOk, env.imageOk);
  }

  /** A delivered data partition holds the bytes of the file and is erased behind them. */
  lemma DataDelivered(content: Content, p: Partition, env: DataEnv)
    requires Sized(content) && p in content && UpdateData(content, p, env).1
    ensures |File(env.events)| <= p.size
    ensures UpdateData(content, p, env).0[p] == File(env.events) + Fills(p.size - |File(env.events)|)
  {
    var d := DataEvents(p.size, env.events);
    DataEventsFlat(p.size, env.events);
    FlatLength(d.s.log, d.s.wrote);
  }

  /** The three files that belong together. */
  datatype Release = Release(app: seq<bv8>, gwui: seq<bv8>, nrf: seq<bv8>)

  ghost function Offered(env: Env): Release {
    Release(File(env.ota.events), File(env.gwui.events), File(env.nrf.events))
  }

  /** The partition table of the firmware: two app partitions, and two data partitions of
      each kind. */
  datatype Layout = Layout(table: seq<Partition>, app0: Partition, app1: Partition)

  ghost predicate WellLaid(l: Layout) {
    && l.app0 in l.table && l.app1 in l.table && l.app0.kind == l.app1.kind == OtaApp
    && l.app0.name == "ota_0" && l.app1.name != "ota_0"
    && (forall p :: p in l.table ==> p.size > 0)
    && forall second :: FindFat(l.table, GwuiName(second)).Some? && FindFat(l.table, NrfName(second)).Some?
  }

  function Gwui(l: Layout, second: bool): (r: Partition)
    requires FindFat(l.table, GwuiName(second)).Some?
    ensures r in l.table && r.kind == FatData && r.name == if second then "fatfs_gwui_2" else "fatfs_gwui"
  {
    FindFat(l.table, GwuiName(second)).value
  }

  function Nrf(l: Layout, second: bool): (r: Partition)
    requires FindFat(l.table, NrfName(second)).Some?
    ensures r in l.table && r.kind == FatData && r.name == if second then "fatfs_nrf52_2" else "fatfs_nrf52"
  {
    FindFat(l.table, NrfName(second)).value
  }

  /** A gateway between two updates: it has restarted from its boot partition. */
  datatype Device = Device(content: Content, boot: Partition)

  ghost predicate DeviceWf(l: Layout, d: Device) {
    && WellLaid(l) && Sized(d.content) && (forall p :: p in l.table <==> p in d.content)
    && (d.boot == l.app0 || d.boot == l.app1)
  }

  /** What the firmware reads after the restart. */
  ghost function InfoOf(l: Layout, d: Device): (r: FlashInfo)
    requires DeviceWf(l, d)
    ensures r == FlashInfo(d.boot, d.boot, if d.boot == l.app0 then l.app1 else l.app0, d.boot == l.app0,
                           Gwui(l, d.boot == l.app0), Nrf(l, d.boot == l.app0))
  {
    ReadFlashInfo(l.table, Some(d.boot), Some(d.boot), true, Some(if d.boot == l.app0 then l.app1 else l.app0)).info
  }

  ghost function Before(l: Layout, d: Device): (g: Gateway)
    requires DeviceWf(l, d)
    ensures Known(g)
  {
    Gateway(d.content, d.boot, InfoOf(l, d))
  }

  /** An update, and the restart that follows it. */
  ghost function Attempt(l: Layout, d: Device, env: Env): (r: Device)
    requires DeviceWf(l, d)
    ensures DeviceWf(l, r)
  {
    var g := Before(l, d);
    SwitchedIff(g, env);
    var after := DoActions(g, env).0;
    assert forall p :: p in after.content <==> p in g.content.Keys;
    Device(after.content, after.otaBoot)
  }

  /** The running app and its data partitions hold the files of the release. */
  ghost predicate Serves(l: Layout, d: Device, rel: Release)
    requires DeviceWf(l, d)
  {
    && rel.app <= d.content[d.boot]
    && rel.gwui <= d.content[Gwui(l, d.boot == l.app1)]
    && rel.nrf <= d.content[Nrf(l, d.boot == l.app1)]
  }

  lemma FailedAttempt(l: Layout, d: Device, env: Env, rel: Release)
    requires DeviceWf(l, d) && Serves(l, d, rel) && Attempt(l, d, env).boot == d.boot
    ensures Serves(l, Attempt(l, d, env), rel)
  {
    var g := Before(l, d);
    NamesDiffer();
    ActionsTouch(g, env, d.boot);
    ActionsTouch(g, env, Gwui(l, d.boot == l.app1));
    ActionsTouch(g, env, Nrf(l, d.boot == l.app1));
  }

  /** What the partitions hold when all three files arrive: with SwitchedIff, that is what the
      gateway starts from whenever the boot partition was switched. */
  lemma AllDelivered(g: Gateway, env: Env)
    requires Known(g) && Arrives(g, env)
    requires g.info.nextApp != g.info.nextGwui && g.info.nextApp != g.info.nextNrf && g.info.nextGwui != g.info.nextNrf
    ensures g.info.nextApp in g.content
    ensures var c := DoActions(g, env).0.content;
            File(env.ota.events) <= c[g.info.nextApp] && File(env.gwui.events) <= c[g.info.nextGwui]
            && File(env.nrf.events) <= c[g.info.nextNrf]
  {
    var c1 := UpdateOta(g.content, g.info, env.ota).0;
    var c2 := UpdateData(c1, g.info.nextGwui, env.gwui).0;
    AppArrivesIff(g, env.ota);
    DataArrivesIff(c1, g.info.nextGwui, env.gwui);
    DataArrivesIff(c2, g.info.nextNrf, env.nrf);
    OtaDelivered(g.content, g.info, env.ota);
    DataDelivered(c1, g.info.nextGwui, env.gwui);
    DataDelivered(c2, g.info.nextNrf, env.nrf);
    DataTouches(c1, g.info.nextGwui, env.gwui, g.info.nextApp);
    DataTouches(c2, g.info.nextNrf, env.nrf, g.info.nextApp);
    DataTouches(c2, g.info.nextNrf, env.nrf, g.info.nextGwui);
  }

  lemma SuccessfulAttempt(l: Layout, d: Device, env: Env)
    requires DeviceWf(l, d) && Attempt(l, d, env).boot != d.boot
    ensures Serves(l, Attempt(l, d, env), Offered(env))
  {
    NamesDiffer();
    SwitchedIff(Before(l, d), env);
    AllDelivered(Before(l, d), env);
  }

  /** A gateway's life: updates one after the other, and the release that runs after them. */
  ghost function Life(l: Layout, d: Device, rel: Release, envs: seq<Env>): (r: (Device, Release))
    requires DeviceWf(l, d)
    ensures DeviceWf(l, r.0)
  {
    if envs == [] then (d, rel)
    else
      var (d1, rel1) := Life(l, d, rel, envs[..|envs| - 1]);
      var env := envs[|envs| - 1];
      var d2 := Attempt(l, d1, env);
      (d2, if d2.boot != d1.boot then Offered(env) else rel1)
  }

  /** MAIN RESULT. After any sequence of updates, with any failures in them, the running app
      partition and the two data partitions that serve it hold the three files of one and the
      same release: the last one whose update switched the boot partition. */
  lemma {:induction false} OneReleaseRuns(l: Layout, d: Device, rel: Release, envs: seq<Env>)
    requires DeviceWf(l, d) && Serves(l, d, rel)
    ensures var (d', rel') := Life(l, d, rel, envs); Serves(l, d', rel')
  {
    if envs != [] {
      OneReleaseRuns(l, d, rel, envs[..|envs| - 1]);
      var (d1, rel1) := Life(l, d, rel, envs[..|envs| - 1]);
      var env := envs[|envs| - 1];
      if Attempt(l, d1, env).boot == d1.boot {
        FailedAttempt(l, d1, env, rel1);
      } else {
        SuccessfulAttempt(l, d1, env);
      }
    }
  }

  // ---------------------------------------------------------------- without the second nRF52 partition

  /** An update that delivers an app image and an empty user interface, and then loses the
      connection before the first byte of the nRF52 firmware. */
  ghost function BrokenOff(): Env {
    var image := [MAGIC] + Fills(BLOCK - 1);
    Env(OtaEnv(true, false, None, true, false, [Event(OKAY, image, true, true)], true, true, true, true),
        DataEnv(true, None, [], true), DataEnv(true, None, [], false), true, true)
  }

  lemma BrokenOffApp(content: Content, info: FlashInfo)
    requires Sized(content)
    requires info.nextApp in content && info.nextApp.kind == OtaApp && info.nextApp != info.running
    requires info.nextApp.size % SECTOR == 0
    ensures UpdateOta(content, info, BrokenOff().ota).1
  {
    var events := BrokenOff().ota.events;
    assert events[..0] == [];
    assert OtaEvents(info.nextApp.size, false, events[..0]) == Download(Start(info.nextApp.size), false);
  }

  /** MAIN RESULT. Exactly when the partition table lacks the second nRF52 partition, and
      ota_0 runs, an update can destroy the nRF52 firmware that serves the running image
      although it does not switch to another image. */
  lemma CurrentNrfAtRisk(g: Gateway, table: seq<Partition>, p: Partition)
    requires Informed(g, table) && p in g.content && p.kind == FatData && p.name == CurrentNrfName(g.info)
    requires g.info.nextApp in table && g.info.nextApp.kind == OtaApp && g.info.nextApp != g.info.running
    requires FindFat(table, CurrentNrfName(g.info)) == Some(p)
    requires forall q :: q in table ==> q.size % SECTOR == 0
    requires g.content[p] != Fills(p.size)
    ensures Known(g)
    ensures FindFat(table, NrfName(g.info.isOta0)).None? <==>
            exists env :: DoActions(g, env).0.content[p] != g.content[p] && DoActions(g, env).0.otaBoot == g.otaBoot
  {
    InformedTargets(g, table);
    if FindFat(table, NrfName(g.info.isOta0)).None? {
      BrokenOffHits(g, table, p);
    } else {
      forall env ensures DoActions(g, env).0.content[p] == g.content[p] {
        CurrentDataUntouched(g, table, env, p);
      }
    }
  }

  lemma BrokenOffHits(g: Gateway, table: seq<Partition>, p: Partition)
    requires Known(g) && p == g.info.nextNrf
    requires g.info.nextApp in g.content && g.info.nextApp.kind == OtaApp && g.info.nextApp != g.info.running
    requires g.info.nextApp.size % SECTOR == 0 && g.info.nextGwui.size % SECTOR == 0 && p.size % SECTOR == 0
    requires g.content[p] != Fills(p.size)
    ensures DoActions(g, BrokenOff()).0.content[p] == Fills(p.size)
    ensures DoActions(g, BrokenOff()).0.otaBoot == g.otaBoot
  {
    BrokenOffApp(g.content, g.info);
    var c1 := UpdateOta(g.content, g.info, BrokenOff().ota).0;
    assert UpdateData(c1, g.info.nextGwui, BrokenOff().gwui).1;
  }
}
