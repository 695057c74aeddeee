/** Saving and loading the whole configuration. */
module ConfigTheorems {
  import opened ConfigJson
  import opened ConfigTypes
  import opened ConfigSave
  import opened ConfigLoad
  import opened ConfigNormal

  // ---------------------------------------------------------------- sections do not interfere

  /** Two documents have the same entries in a section. */
  ghost predicate Agree(j: Json, j': Json, n: nat) {
    forall k :: SectionOf(k) == n ==> (k in j <==> k in j') && (k in j ==> j[k] == j'[k])
  }

  /** A section's entries are not touched when another section is added. */
  lemma AddSectionKeeps(n: nat, j: Json, c: Cfg, dflt: Cfg, other: nat)
    requires n < SECTIONS && other != n && c.scanFilter.length <= |c.scanFilter.list|
    ensures Agree(j, AddSection(n, j, c, dflt), other)
  {
    match n
    case 2 => AddRemoteKeeps(j, c.remote, other);
    case 3 => AddHttpKeeps(j, c.http, other);
    case 5 => AddMqttKeeps(j, c.mqtt, other);
    case 6 => AddLanKeeps(j, c.lan, dflt.lan, other);
    case _ => if n < 8 { AddNetworkKeeps(n, j, c, dflt, other); } else { AddRadioKeeps(n, j, c, dflt, other); }
  }

  lemma AddNetworkKeeps(n: nat, j: Json, c: Cfg, dflt: Cfg, other: nat)
    requires n in {0, 1, 4, 7} && other != n && c.scanFilter.length <= |c.scanFilter.list|
    ensures Agree(j, AddSection(n, j, c, dflt), other)
  {
  }

  lemma AddRadioKeeps(n: nat, j: Json, c: Cfg, dflt: Cfg, other: nat)
    requires 8 <= n < SECTIONS && other != n && c.scanFilter.length <= |c.scanFilter.list|
    ensures Agree(j, AddSection(n, j, c, dflt), other)
  {
  }

  lemma AgreeOn(j: Json, j': Json, j'': Json, n: nat)
    requires Agree(j, j', n) && Agree(j', j'', n)
    ensures Agree(j, j'', n)
  {
  }

  lemma AddMqttKeeps(j: Json, c: MqttCfg, other: nat)
    requires other != 5
    ensures Agree(j, AddMqtt(j, c), other)
  {
  }

  lemma AddLanKeeps(j: Json, c: LanCfg, dflt: LanCfg, other: nat)
    requires other != 6
    ensures Agree(j, AddLan(j, c, dflt), other)
  {
  }

  lemma AddRemoteKeeps(j: Json, c: RemoteCfg, other: nat)
    requires other != 2
    ensures Agree(j, AddRemote(j, c), other)
  {
  }

  lemma AddHttpDefaultKeeps(j: Json, other: nat)
    requires other != 3
    ensures Agree(j, AddHttpDefault(j), other)
  {
  }

  lemma AddHttpCustomKeeps(j: Json, c: HttpCfg, other: nat)
    requires other != 3
    ensures Agree(j, AddHttpCustom(j, c), other)
  {
  }

  lemma AddHttpKeeps(j: Json, c: HttpCfg, other: nat)
    requires other != 3
    ensures Agree(j, AddHttp(j, c), other)
  {
    var switches := j[Http(HUseRuuvi) := JBool(c.useRuuvi)][Http(HUse) := JBool(c.use)];
    AddHttpDefaultKeeps(j, other);
    AddHttpCustomKeeps(switches, c, other);
    assert Agree(j, switches, other);
  }

  lemma NextSectionKeeps(n: nat, c: Cfg, dflt: Cfg, other: nat)
    requires n < SECTIONS && other != n && c.scanFilter.length <= |c.scanFilter.list|
    ensures Agree(SaveUpTo(n, c, dflt), SaveUpTo(n + 1, c, dflt), other)
  {
    AddSectionKeeps(n, SaveUpTo(n, c, dflt), c, dflt, other);
  }

  /** The documents with more and more sections. */
  ghost function Documents(c: Cfg, dflt: Cfg): (js: seq<Json>)
    requires c.scanFilter.length <= |c.scanFilter.list|
    ensures |js| == SECTIONS + 1 && forall n :: 0 <= n <= SECTIONS ==> js[n] == SaveUpTo(n, c, dflt)
  {
    seq(SECTIONS + 1, n requires 0 <= n <= SECTIONS => SaveUpTo(n, c, dflt))
  }

  lemma {:induction false} SectionSurvives(js: seq<Json>, n: nat, upTo: nat)
    requires n < upTo < |js|
    requires forall m :: n < m < upTo ==> Agree(js[m], js[m + 1], n)
    ensures Agree(js[n + 1], js[upTo], n)
    decreases upTo
  {
    if upTo > n + 1 {
      SectionSurvives(js, n, upTo - 1);
      assert Agree(js[upTo - 1], js[upTo - 1 + 1], n);
      AgreeOn(js[n + 1], js[upTo - 1], js[upTo], n);
    }
  }

  // ---------------------------------------------------------------- sections are read on their own

  lemma SameRemote(j: Json, j': Json, d: RemoteCfg)
    requires Agree(j, j', 2) && 0 <= d.refresh < 0x1_0000
    ensures LoadRemote(j, d) == LoadRemote(j', d)
  {
    forall k: RemoteKey ensures GetStr(j, Remote(k)) == GetStr(j', Remote(k)) {
      assert SectionOf(Remote(k)) == 2;
    }
    RemoteAuthSame(j, j', d.(use := GetBool(j, Remote(RUse), d.use), url := CopyStr(j, Remote(RUrl), URL_CAP, d.url)));
    forall k: RemoteKey ensures Remote(k) in j <==> Remote(k) in j'
      ensures Remote(k) in j ==> j[Remote(k)] == j'[Remote(k)] {
      assert SectionOf(Remote(k)) == 2;
    }
  }

  lemma SameHttp(j: Json, j': Json, d: HttpCfg)
    requires Agree(j, j', 3)
    ensures LoadHttp(j, d) == LoadHttp(j', d)
  {
    forall k: HttpKey ensures Http(k) in j <==> Http(k) in j' ensures Http(k) in j ==> j[Http(k)] == j'[Http(k)] {
      assert SectionOf(Http(k)) == 3;
    }
    SameTarget(j, j', d.(useRuuvi := GetBool(j, Http(HUseRuuvi), d.useRuuvi), use := GetBool(j, Http(HUse), d.use)));
    assert GetU32(j, Http(HPeriod), d.period) == GetU32(j', Http(HPeriod), d.period);
  }

  lemma SameTarget(j: Json, j': Json, d: HttpCfg)
    requires forall k: HttpKey :: (Http(k) in j <==> Http(k) in j') && (Http(k) in j ==> j[Http(k)] == j'[Http(k)])
    ensures LoadHttpTarget(j, d) == LoadHttpTarget(j', d)
  {
    forall k: HttpKey ensures GetStr(j, Http(k)) == GetStr(j', Http(k)) {
    }
  }

  lemma SameStat(j: Json, j': Json, d: StatCfg)
    requires Agree(j, j', 4)
    ensures LoadStat(j, d) == LoadStat(j', d)
  {
    forall k: StatKey ensures Stat(k) in j <==> Stat(k) in j' ensures Stat(k) in j ==> j[Stat(k)] == j'[Stat(k)] {
      assert SectionOf(Stat(k)) == 4;
    }
  }

  lemma SameMqtt(j: Json, j': Json, d: MqttCfg, dflt: MqttCfg)
    requires Agree(j, j', 5) && 0 <= d.port < 0x1_0000
    ensures LoadMqtt(j, d, dflt) == LoadMqtt(j', d, dflt)
  {
    forall k: MqttKey ensures Mqtt(k) in j <==> Mqtt(k) in j' ensures Mqtt(k) in j ==> j[Mqtt(k)] == j'[Mqtt(k)] {
      assert SectionOf(Mqtt(k)) == 5;
    }
  }

  lemma SameLan(j: Json, j': Json, d: LanCfg, dflt: LanCfg, unknown: LanType)
    requires Agree(j, j', 6)
    ensures LoadLan(j, d, dflt, unknown) == LoadLan(j', d, dflt, unknown)
  {
    forall k: LanKey ensures GetStr(j, Lan(k)) == GetStr(j', Lan(k)) {
      assert SectionOf(Lan(k)) == 6;
    }
    SameLanType(j, j', d, dflt, unknown);
  }

  lemma SameLanType(j: Json, j': Json, d: LanCfg, dflt: LanCfg, unknown: LanType)
    requires forall k: LanKey :: GetStr(j, Lan(k)) == GetStr(j', Lan(k))
    ensures LoadLanType(j, d, dflt, unknown) == LoadLanType(j', d, dflt, unknown)
  {
  }

  lemma SameUpdate(j: Json, j': Json, d: UpdateCfg)
    requires Agree(j, j', 7) && UpdateWf(d)
    ensures LoadUpdate(j, d) == LoadUpdate(j', d)
  {
    forall k: UpdateKey ensures Update(k) in j <==> Update(k) in j'
      ensures Update(k) in j ==> j[Update(k)] == j'[Update(k)] {
      assert SectionOf(Update(k)) == 7;
    }
  }

  lemma SameNtp(j: Json, j': Json, d: NtpCfg)
    requires Agree(j, j', 8)
    ensures LoadNtp(j, d) == LoadNtp(j', d)
  {
    forall k: NtpKey ensures Ntp(k) in j <==> Ntp(k) in j' ensures Ntp(k) in j ==> j[Ntp(k)] == j'[Ntp(k)] {
      assert SectionOf(Ntp(k)) == 8;
    }
  }

  lemma SameFilter(j: Json, j': Json, d: FilterCfg)
    requires Agree(j, j', 9) && FilterWf(d)
    ensures LoadFilter(j, d) == LoadFilter(j', d)
  {
    forall k: FilterKey ensures Filter(k) in j <==> Filter(k) in j'
      ensures Filter(k) in j ==> j[Filter(k)] == j'[Filter(k)] {
      assert SectionOf(Filter(k)) == 9;
    }
  }

  lemma SameScan(j: Json, j': Json, d: ScanCfg, dflt: ScanCfg)
    requires Agree(j, j', 10)
    ensures LoadScan(j, d, dflt) == LoadScan(j', d, dflt)
  {
    forall k: ScanKey ensures Scan(k) in j <==> Scan(k) in j' ensures Scan(k) in j ==> j[Scan(k)] == j'[Scan(k)] {
      assert SectionOf(Scan(k)) == 10;
    }
    assert ReadScan(j, d) == ReadScan(j', d);
  }

  lemma SameScanFilter(j: Json, j': Json, d: ScanFilterCfg)
    requires Agree(j, j', 11)
    ensures LoadScanFilter(j, d) == LoadScanFilter(j', d)
  {
    assert SectionOf(FilterAllow) == SectionOf(FilterList) == 11;
  }

  lemma SameEth(j: Json, j': Json, d: EthCfg)
    requires Agree(j, j', 1)
    ensures LoadEth(j, d) == LoadEth(j', d)
  {
    forall k: EthKey ensures Eth(k) in j <==> Eth(k) in j' ensures Eth(k) in j ==> j[Eth(k)] == j'[Eth(k)] {
      assert SectionOf(Eth(k)) == 1;
    }
  }

  lemma SameWifi(j: Json, j': Json, d: WifiCfg)
    requires Agree(j, j', 0) && WifiWf(d)
    ensures LoadWifi(j, d) == LoadWifi(j', d)
  {
    assert SectionOf(WifiSta) == SectionOf(WifiAp) == 0;
  }

  // ---------------------------------------------------------------- the whole configuration

  /** The normal form of a configuration that is loaded over the configuration d. */
  ghost function Norm(c: Cfg, d: Cfg, dflt: Cfg): Cfg
    requires CfgWf(c) && CfgWf(d)
  {
    Cfg(
      NormRemote(c.remote, d.remote), NormHttp(c.http, d.http), NormStat(c.stat, d.stat),
      NormMqtt(c.mqtt, d.mqtt, dflt.mqtt), NormLan(c.lan, dflt.lan), c.update, NormNtp(c.ntp, d.ntp), c.filter,
      NormScan(c.scan, dflt.scan), NormScanFilter(c.scanFilter, d.scanFilter), c.coordinates, c.fwUpdateUrl,
      NormEth(c.eth, d.eth), NormWifi(c.wifi))
  }

  /** A document agrees with one to which the section has just been added. */
  ghost predicate HasSection(j: Json, n: nat, c: Cfg, dflt: Cfg) {
    && n < SECTIONS && c.scanFilter.length <= |c.scanFilter.list|
    && exists before :: Agree(AddSection(n, before, c, dflt), j, n)
  }

  lemma SavedHasSection(n: nat, c: Cfg, dflt: Cfg)
    requires n < SECTIONS && c.scanFilter.length <= |c.scanFilter.list|
    ensures HasSection(Save(c, dflt), n, c, dflt)
  {
    var js := Documents(c, dflt);
    forall m | n < m < SECTIONS ensures Agree(js[m], js[m + 1], n) {
      NextSectionKeeps(m, c, dflt, n);
    }
    SectionSurvives(js, n, SECTIONS);
    assert js[n + 1] == AddSection(n, SaveUpTo(n, c, dflt), c, dflt);
  }

  lemma FilterRestored(j: Json, c: Cfg, d: Cfg, dflt: Cfg)
    requires CfgWf(c) && CfgWf(d) && HasSection(j, 9, c, dflt)
    ensures LoadFilter(j, d.filter) == c.filter
  {
    var b :| Agree(AddSection(9, b, c, dflt), j, 9);
    FilterLoads(b, c.filter, d.filter);
    SameFilter(AddFilter(b, c.filter), j, d.filter);
  }

  lemma ScanRestored(j: Json, c: Cfg, d: Cfg, dflt: Cfg)
    requires CfgWf(c) && CfgWf(d) && HasSection(j, 10, c, dflt)
    ensures LoadScan(j, d.scan, dflt.scan) == NormScan(c.scan, dflt.scan)
  {
    var b :| Agree(AddSection(10, b, c, dflt), j, 10);
    ScanLoads(b, c.scan, d.scan, dflt.scan);
    SameScan(AddScan(b, c.scan), j, d.scan, dflt.scan);
  }

  lemma ScanFilterRestored(j: Json, c: Cfg, d: Cfg, dflt: Cfg)
    requires CfgWf(c) && CfgWf(d) && HasSection(j, 11, c, dflt)
    ensures LoadScanFilter(j, d.scanFilter) == NormScanFilter(c.scanFilter, d.scanFilter)
  {
    var b :| Agree(AddSection(11, b, c, dflt), j, 11);
    ScanFilterLoads(b, c.scanFilter, d.scanFilter);
    SameScanFilter(AddScanFilter(b, c.scanFilter), j, d.scanFilter);
  }

  lemma WifiRestored(j: Json, c: Cfg, d: Cfg, dflt: Cfg)
    requires CfgWf(c) && CfgWf(d) && HasSection(j, 0, c, dflt)
    ensures LoadWifi(j, d.wifi) == NormWifi(c.wifi)
  {
    var b :| Agree(AddSection(0, b, c, dflt), j, 0);
    WifiLoads(b, c.wifi, d.wifi);
    SameWifi(AddWifi(b, c.wifi), j, d.wifi);
  }

  lemma EthRestored(j: Json, c: Cfg, d: Cfg, dflt: Cfg)
    requires CfgWf(c) && CfgWf(d) && HasSection(j, 1, c, dflt)
    ensures LoadEth(j, d.eth) == NormEth(c.eth, d.eth)
  {
    var b :| Agree(AddSection(1, b, c, dflt), j, 1);
    EthLoads(b, c.eth, d.eth);
    SameEth(AddEth(b, c.eth), j, d.eth);
  }

  lemma LanRestored(j: Json, c: Cfg, d: Cfg, dflt: Cfg, unknown: LanType)
    requires CfgWf(c) && CfgWf(d) && HasSection(j, 6, c, dflt)
    ensures LoadLan(j, d.lan, dflt.lan, unknown) == NormLan(c.lan, dflt.lan)
  {
    var b :| Agree(AddSection(6, b, c, dflt), j, 6);
    LanLoads(b, c.lan, d.lan, dflt.lan, unknown);
    SameLan(AddLan(b, c.lan, dflt.lan), j, d.lan, dflt.lan, unknown);
  }

  lemma UpdateRestored(j: Json, c: Cfg, d: Cfg, dflt: Cfg)
    requires CfgWf(c) && CfgWf(d) && HasSection(j, 7, c, dflt)
    ensures LoadUpdate(j, d.update) == c.update
  {
    var b :| Agree(AddSection(7, b, c, dflt), j, 7);
    UpdateLoads(b, c.update, d.update);
    SameUpdate(AddUpdate(b, c.update), j, d.update);
  }

  lemma NtpRestored(j: Json, c: Cfg, d: Cfg, dflt: Cfg)
    requires CfgWf(c) && CfgWf(d) && HasSection(j, 8, c, dflt)
    ensures LoadNtp(j, d.ntp) == NormNtp(c.ntp, d.ntp)
  {
    var b :| Agree(AddSection(8, b, c, dflt), j, 8);
    NtpLoads(b, c.ntp, d.ntp);
    SameNtp(AddNtp(b, c.ntp), j, d.ntp);
  }

  lemma RemoteRestored(j: Json, c: Cfg, d: Cfg, dflt: Cfg)
    requires CfgWf(c) && CfgWf(d) && HasSection(j, 2, c, dflt)
    ensures LoadRemote(j, d.remote) == NormRemote(c.remote, d.remote)
  {
    var b :| Agree(AddSection(2, b, c, dflt), j, 2);
    RemoteLoads(b, c.remote, d.remote);
    SameRemote(AddRemote(b, c.remote), j, d.remote);
  }

  lemma HttpRestored(j: Json, c: Cfg, d: Cfg, dflt: Cfg)
    requires CfgWf(c) && CfgWf(d) && HasSection(j, 3, c, dflt)
    ensures LoadHttp(j, d.http) == NormHttp(c.http, d.http)
  {
    var b :| Agree(AddSection(3, b, c, dflt), j, 3);
    HttpLoads(b, c.http, d.http);
    SameHttp(AddHttp(b, c.http), j, d.http);
  }

  lemma StatRestored(j: Json, c: Cfg, d: Cfg, dflt: Cfg)
    requires CfgWf(c) && CfgWf(d) && HasSection(j, 4, c, dflt)
    ensures LoadStat(j, d.stat) == NormStat(c.stat, d.stat)
  {
    var b :| Agree(AddSection(4, b, c, dflt), j, 4);
    StatLoads(b, c.stat, d.stat);
    SameStat(AddStat(b, c.stat), j, d.stat);
  }

  lemma MqttRestored(j: Json, c: Cfg, d: Cfg, dflt: Cfg)
    requires CfgWf(c) && CfgWf(d) && HasSection(j, 5, c, dflt)
    ensures LoadMqtt(j, d.mqtt, dflt.mqtt) == NormMqtt(c.mqtt, d.mqtt, dflt.mqtt)
  {
    var b :| Agree(AddSection(5, b, c, dflt), j, 5);
    MqttLoads(b, c.mqtt, d.mqtt, dflt.mqtt);
    SameMqtt(AddMqtt(b, c.mqtt), j, d.mqtt, dflt.mqtt);
  }

  lemma TextsRestored(j: Json, c: Cfg, d: Cfg, dflt: Cfg)
    requires CfgWf(c) && HasSection(j, 12, c, dflt) && HasSection(j, 13, c, dflt)
    ensures CopyStr(j, Coordinates, 64, d.coordinates) == c.coordinates
    ensures CopyStr(j, FwUpdateUrl, URL_CAP, d.fwUpdateUrl) == c.fwUpdateUrl
  {
    assert SectionOf(Coordinates) == 12 && SectionOf(FwUpdateUrl) == 13;
  }

  /** MAIN RESULT. For every configuration and every base: what is saved and loaded again is
      the normal form of the configuration, in all sections. */
  lemma LoadAfterSave(c: Cfg, d: Cfg, dflt: Cfg, unknown: LanType)
    requires CfgWf(c) && CfgWf(d)
    ensures Load(Save(c, dflt), d, dflt, unknown) == Norm(c, d, dflt)
  {
    var j := Save(c, dflt);
    forall n | 0 <= n < SECTIONS ensures HasSection(j, n, c, dflt) {
      SavedHasSection(n, c, dflt);
    }
    SectionsRestored(j, c, d, dflt, unknown);
  }

  lemma SectionsRestored(j: Json, c: Cfg, d: Cfg, dflt: Cfg, unknown: LanType)
    requires CfgWf(c) && CfgWf(d) && forall n: nat :: n < SECTIONS ==> HasSection(j, n, c, dflt)
    ensures Load(j, d, dflt, unknown) == Norm(c, d, dflt)
  {
    RemoteRestored(j, c, d, dflt);
    HttpRestored(j, c, d, dflt);
    StatRestored(j, c, d, dflt);
    MqttRestored(j, c, d, dflt);
    LanRestored(j, c, d, dflt, unknown);
    UpdateRestored(j, c, d, dflt);
    NtpRestored(j, c, d, dflt);
    FilterRestored(j, c, d, dflt);
    ScanRestored(j, c, d, dflt);
    ScanFilterRestored(j, c, d, dflt);
    TextsRestored(j, c, d, dflt);
    EthRestored(j, c, d, dflt);
    WifiRestored(j, c, d, dflt);
  }

  lemma NormStable(c: Cfg, d: Cfg, dflt: Cfg)
    requires CfgWf(c) && CfgWf(d) && MqttWf(dflt.mqtt) && LanWf(dflt.lan)
    ensures CfgWf(Norm(c, d, dflt)) && Norm(Norm(c, d, dflt), d, dflt) == Norm(c, d, dflt)
  {
    RemoteStable(c.remote, d.remote);
    HttpStable(c.http, d.http);
    MqttStable(c.mqtt, d.mqtt, dflt.mqtt);
    LanStable(c.lan, dflt.lan);
    ScanFilterStable(c.scanFilter, d.scanFilter);
  }

  /** MAIN RESULT. Saving and loading is idempotent: what has been saved and loaded once is
      not changed by being saved and loaded again. */
  lemma LoadAfterSaveIsIdempotent(c: Cfg, d: Cfg, dflt: Cfg, unknown: LanType)
    requires CfgWf(c) && CfgWf(d) && MqttWf(dflt.mqtt) && LanWf(dflt.lan)
    ensures var n := Load(Save(c, dflt), d, dflt, unknown);
            CfgWf(n) && Load(Save(n, dflt), d, dflt, unknown) == n
  {
    NormStable(c, d, dflt);
    LoadAfterSave(c, d, dflt, unknown);
    LoadAfterSave(Norm(c, d, dflt), d, dflt, unknown);
  }
}
