/** What loading a document makes of a configuration that is already there. */
module ConfigLoad {
  import opened Common
  import opened AdvCache
  import opened ConfigJson
  import opened ConfigTypes
  import opened ConfigSave

  // ---------------------------------------------------------------- remote configuration

  /** Only "basic" and "bearer" are supported here; every other text means no credentials. */
  function RemoteAuthOf(s: string): AuthType {
    if s == "basic" then Basic else if s == "bearer" then Bearer else NoAuth
  }

  lemma RemoteAuthReadBack(t: AuthType)
    ensures RemoteAuthOf(Truncated(AuthStr(t), 8)) == if t == Basic || t == Bearer then t else NoAuth
  {
    assert "basic"[0] != "token"[0];
  }

  function LoadBasic(j: Json, user: Key, pass: Key, m: Memory): Memory {
    var m1 := if GetStr(j, user).Some? then WriteC(m, 0, USER_CAP, GetStr(j, user).value) else m;
    if GetStr(j, pass).Some? then WriteC(m1, USER_CAP, USER_CAP, GetStr(j, pass).value) else m1
  }

  function LoadToken(j: Json, token: Key, m: Memory): Memory {
    if GetStr(j, token).Some? then WriteC(m, 0, TOKEN_CAP, GetStr(j, token).value) else m
  }

  /** A change of the type clears the credentials before the new ones are read. */
  function LoadRemoteAuth(j: Json, c: RemoteCfg): RemoteCfg {
    if GetStr(j, Remote(RAuthType)).None? then c
    else
      var t := RemoteAuthOf(Truncated(GetStr(j, Remote(RAuthType)).value, 8));
      var m := if c.authType != t then Zeroed() else c.auth;
      c.(authType := t,
         auth := match t
           case Basic => LoadBasic(j, Remote(RBasicUser), Remote(RBasicPass), m)
           case Bearer => LoadToken(j, Remote(RBearerToken), m)
           case _ => m)
  }

  function LoadRemote(j: Json, c: RemoteCfg): RemoteCfg
    requires 0 <= c.refresh < 0x1_0000
  {
    var c1 := c.(use := GetBool(j, Remote(RUse), c.use), url := CopyStr(j, Remote(RUrl), URL_CAP, c.url));
    var c2 := LoadRemoteAuth(j, c1);
    c2.(sslClient := GetBool(j, Remote(RSslClient), c.sslClient),
      sslServer := GetBool(j, Remote(RSslServer), c.sslServer),
        refresh := GetSmall(j, Remote(RRefresh), 0, 0xFFFF, c.refresh))
  }

  // ---------------------------------------------------------------- HTTP

  function LoadHttpAuth(j: Json, t: AuthType, m: Memory): Memory {
    match t
    case NoAuth => m
    case Basic => LoadBasic(j, Http(HUser), Http(HPass), m)
    case Bearer => LoadToken(j, Http(HBearerToken), m)
    case TokenAuth => LoadToken(j, Http(HApiKey), m)
    case ApiKey => LoadToken(j, Http(HApiKey), m)
  }

  /** The target of a document that uses one. */
  function LoadHttpTarget(j: Json, c: HttpCfg): HttpCfg {
    var format := if GetStr(j, Http(HDataFormat)).None? then Ruuvi
                  else FormatOf(Truncated(GetStr(j, Http(HDataFormat)).value, 22));
    var t := if GetStr(j, Http(HAuth)).None? then NoAuth else AuthOf(Truncated(GetStr(j, Http(HAuth)).value, 8));
    c.(format := format, authType := t, url := CopyStr(j, Http(HUrl), URL_CAP, c.url),
      auth := LoadHttpAuth(j, t, c.auth))
  }

  function LoadHttp(j: Json, c: HttpCfg): HttpCfg {
    var c1 := c.(useRuuvi := GetBool(j, Http(HUseRuuvi), c.useRuuvi), use := GetBool(j, Http(HUse), c.use));
    if !c1.use then c1
    else
      var c2 := LoadHttpTarget(j, c1);
      if IsRuuviTarget(c2) then c2.(useRuuvi := true, use := false)
      else
        c2.(period := GetU32(j, Http(HPeriod), c.period), sslClient := GetBool(j, Http(HSslClient), c.sslClient),
            sslServer := GetBool(j, Http(HSslServer), c.sslServer))
  }

  function LoadStat(j: Json, c: StatCfg): StatCfg {
    var c1 := c.(use := GetBool(j, Stat(SUse), c.use), url := CopyStr(j, Stat(SUrl), URL_CAP, c.url),
                 user := CopyStr(j, Stat(SUser), PASS_CAP, c.user), pass := CopyStr(j, Stat(SPass), PASS_CAP, c.pass));
    if !c1.use then c1
    else
      c1.(sslClient := GetBool(j, Stat(SSslClient), c.sslClient),
        sslServer := GetBool(j, Stat(SSslServer), c.sslServer))
  }

  // ---------------------------------------------------------------- MQTT

  /** An empty text, or none, means the default. */
  function CopyOrDefault(j: Json, k: Key, cap: nat, dflt: string): string
    requires cap > 0
  {
    var s := CopyStr(j, k, cap, dflt);
    if s == [] then dflt else s
  }

  function LoadMqttFormat(j: Json): MqttFormat {
    if GetStr(j, Mqtt(MDataFormat)).None? then Raw else MqttFormatOf(Truncated(GetStr(j, Mqtt(MDataFormat)).value, 22))
  }

  function LoadMqtt(j: Json, c: MqttCfg, dflt: MqttCfg): MqttCfg
    requires 0 <= c.port < 0x1_0000
  {
    var use := GetBool(j, Mqtt(MUse), c.use);
    MqttCfg(
      use, GetBool(j, Mqtt(MNoRetained), c.noRetained),
      if use then GetBool(j, Mqtt(MSslClient), c.sslClient) else c.sslClient,
      if use then GetBool(j, Mqtt(MSslServer), c.sslServer) else c.sslServer,
      CopyStr(j, Mqtt(MTransport), 8, c.transport), LoadMqttFormat(j), CopyStr(j, Mqtt(MServer), 256, c.server),
      GetSmall(j, Mqtt(MPort), 0, 0xFFFF, c.port), GetU32(j, Mqtt(MInterval), c.interval),
      CopyOrDefault(j, Mqtt(MPrefix), 257, dflt.prefix), CopyOrDefault(j, Mqtt(MClientId), 51, dflt.clientId),
      CopyStr(j, Mqtt(MUser), 129, c.user), CopyStr(j, Mqtt(MPass), 257, c.pass))
  }

  // ---------------------------------------------------------------- LAN

  function LoadLanType(j: Json, c: LanCfg, dflt: LanCfg, unknown: LanType): LanCfg {
    var text := GetStr(j, Lan(LType));
    if text.None? then c
    else
      var t := LanOf(text.value, unknown);
      var c1 :=
        if SavesPassword(t) then
          c.(kind := t, user := CopyStr(j, Lan(LUser), LAN_CAP, c.user),
            pass := CopyStr(j, Lan(LPass), LAN_CAP, c.pass))
        else if t == LanDefault then c.(kind := t, user := dflt.user, pass := dflt.pass)
        else c.(kind := t, user := "", pass := "");
      if t == LanRuuvi && dflt.user == c1.user && dflt.pass == c1.pass then c1.(kind := LanDefault) else c1
  }

  function LoadLan(j: Json, c: LanCfg, dflt: LanCfg, unknown: LanType): LanCfg {
    LoadLanType(j, c, dflt, unknown).(
      apiKey := CopyStr(j, Lan(LApiKey), LAN_CAP, c.apiKey),
        apiKeyRw := CopyStr(j, Lan(LApiKeyRw), LAN_CAP, c.apiKeyRw))
  }

  // ---------------------------------------------------------------- scanning

  /** The settings that were the default before they had a name. */
  predicate LooksDefault(c: ScanCfg) {
    !c.codedPhy && c.phy1Mbit && c.phy2Mbit && c.ch37 && c.ch38 && c.ch39
  }

  /** The settings one by one; an older document has another name for the 2 Mbit/s setting. */
  function ReadScan(j: Json, c: ScanCfg): ScanCfg {
    ScanCfg(
      GetBool(j, Scan(CCodedPhy), c.codedPhy), GetBool(j, Scan(C1MbitPhy), c.phy1Mbit),
      GetBool(j, Scan(C2MbitPhy), GetBool(j, Scan(CExtendedPayload), c.phy2Mbit)),
      GetBool(j, Scan(C37), c.ch37), GetBool(j, Scan(C38), c.ch38), GetBool(j, Scan(C39), c.ch39), false)
  }

  predicate HasBool(j: Json, k: Key) {
    k in j && j[k].JBool?
  }

  /** Documents of versions before 1.16 do not name the default settings. */
  function LoadScan(j: Json, c: ScanCfg, dflt: ScanCfg): ScanCfg {
    if GetBool(j, Scan(CDefault), c.isDefault) then dflt
    else
      var c1 := ReadScan(j, c);
      if HasBool(j, Scan(CExtendedPayload)) && !HasBool(j, Scan(CDefault))
        && LooksDefault(c1) then dflt.(isDefault := true)
      else c1
  }

  // ---------------------------------------------------------------- the other sections

  function LoadUpdate(j: Json, c: UpdateCfg): UpdateCfg
    requires UpdateWf(c)
  {
    UpdateCfg(
      if GetStr(j, Update(UCycle)).None? then c.cycle else CycleOf(Truncated(GetStr(j, Update(UCycle)).value, 20)),
      GetSmall(j, Update(UWeekdays), 0, 0xFF, c.weekdays), GetSmall(j, Update(UFrom), 0, 0xFF, c.from),
      GetSmall(j, Update(UTo), 0, 0xFF, c.to), GetSmall(j, Update(UTimeZone), -128, 127, c.timeZone))
  }

  function LoadNtp(j: Json, c: NtpCfg): NtpCfg {
    var use := GetBool(j, Ntp(NUse), c.use);
    if !use then c.(use := use, useDhcp := false)
    else
      var dhcp := GetBool(j, Ntp(NUseDhcp), c.useDhcp);
      if dhcp then c.(use := use, useDhcp := dhcp)
      else
        NtpCfg(use, dhcp, CopyStr(j, Ntp(NServer1), 32, c.server1), CopyStr(j, Ntp(NServer2), 32, c.server2),
               CopyStr(j, Ntp(NServer3), 32, c.server3), CopyStr(j, Ntp(NServer4), 32, c.server4))
  }

  function LoadFilter(j: Json, c: FilterCfg): FilterCfg
    requires FilterWf(c)
  {
    FilterCfg(GetSmall(j, Filter(FCompanyId), 0, 0xFFFF, c.companyId), GetBool(j, Filter(FUse), c.use))
  }

  /** Texts that are no addresses leave the entry as it was, but count. */
  function LoadMacs(items: seq<Option<Mac>>, list: seq<Mac>): (r: seq<Mac>)
    ensures |r| == |list|
    ensures forall i :: 0 <= i < |list| ==> r[i] == if i < |items| && items[i].Some? then items[i].value else list[i]
  {
    seq(|list|, i requires 0 <= i < |list| => if i < |items| && items[i].Some? then items[i].value else list[i])
  }

  function LoadScanFilter(j: Json, c: ScanFilterCfg): ScanFilterCfg {
    var c1 := c.(allowListed := GetBool(j, FilterAllow, c.allowListed));
    if FilterList !in j then c1
    else if !j[FilterList].JMacs? then c1.(length := 0)
    else c1.(length := |j[FilterList].macs|, list := LoadMacs(j[FilterList].macs, c.list))
  }

  function LoadEth(j: Json, c: EthCfg): EthCfg {
    var use := GetBool(j, Eth(EUse), c.use);
    if !use then c.(use := use)
    else
      var dhcp := GetBool(j, Eth(EDhcp), c.dhcp);
      if dhcp then c.(use := use, dhcp := dhcp)
      else
        EthCfg(use, dhcp, CopyStr(j, Eth(EIp), 17, c.ip), CopyStr(j, Eth(ENetmask), 17, c.netmask),
               CopyStr(j, Eth(EGw), 17, c.gw), CopyStr(j, Eth(EDns1), 17, c.dns1), CopyStr(j, Eth(EDns2), 17, c.dns2))
  }

  /** The members of a nested object; anything else has none. */
  function Members(j: Json, k: Key): Json {
    if k in j && j[k].JObj? then j[k].obj else map[]
  }

  function LoadWifi(j: Json, c: WifiCfg): WifiCfg
    requires WifiWf(c)
  {
    var sta, ap := Members(j, WifiSta), Members(j, WifiAp);
    var channel := GetSmall(ap, Wifi(WChannel), 0, 0xFF, c.channel);
    WifiCfg(
      CopyStr(sta, Wifi(WSsid), SSID_CAP, c.ssid), CopyStr(sta, Wifi(WPassword), WIFI_PASS_CAP, c.staPassword),
      CopyStr(ap, Wifi(WPassword), WIFI_PASS_CAP, c.apPassword),
      if WifiAp in j && channel == 0 then 1 else channel)
  }

  /** The whole document, loaded over a configuration. */
  function Load(j: Json, c: Cfg, dflt: Cfg, unknown: LanType): Cfg
    requires RemoteWf(c.remote) && MqttWf(c.mqtt) && UpdateWf(c.update) && FilterWf(c.filter) && WifiWf(c.wifi)
  {
    Cfg(
      LoadRemote(j, c.remote), LoadHttp(j, c.http), LoadStat(j, c.stat), LoadMqtt(j, c.mqtt, dflt.mqtt),
      LoadLan(j, c.lan, dflt.lan, unknown), LoadUpdate(j, c.update), LoadNtp(j, c.ntp), LoadFilter(j, c.filter),
      LoadScan(j, c.scan, dflt.scan), LoadScanFilter(j, c.scanFilter), CopyStr(j, Coordinates, 64, c.coordinates),
      CopyStr(j, FwUpdateUrl, URL_CAP, c.fwUpdateUrl), LoadEth(j, c.eth), LoadWifi(j, c.wifi))
  }
}
