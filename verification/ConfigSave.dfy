/** The configuration as it is written to the flash. Sections are added one after the other. */
module ConfigSave {
  import opened Common
  import opened AdvCache
  import opened ConfigJson
  import opened ConfigTypes

  function AddRemoteAuth(j: Json, c: RemoteCfg): Json {
    var typed := j[Remote(RAuthType) := JStr(AuthStr(c.authType))];
    match c.authType
    case NoAuth => typed
    case Basic => typed[Remote(RBasicUser) := JStr(User(c.auth))][Remote(RBasicPass) := JStr(Password(c.auth))]
    case Bearer => typed[Remote(RBearerToken) := JStr(ConfigJson.Token(c.auth))]
    case TokenAuth => typed[Remote(RToken) := JStr(ConfigJson.Token(c.auth))]
    case ApiKey => typed[Remote(RApiKey) := JStr(ConfigJson.Token(c.auth))]
  }

  function AddRemote(j: Json, c: RemoteCfg): Json {
    AddRemoteAuth(j[Remote(RUse) := JBool(c.use)][Remote(RUrl) := JStr(c.url)], c)
      [Remote(RSslClient) := JBool(c.sslClient)][Remote(RSslServer) := JBool(c.sslServer)]
      [Remote(RRefresh) := JNum(c.refresh)]
  }

  /** The target that stands for Ruuvi's own server. */
  predicate IsRuuviTarget(c: HttpCfg) {
    c.format == Ruuvi && c.authType == NoAuth && c.url == DEFAULT_URL
  }

  /** Since version 1.14 the Ruuvi target has a switch of its own; it is still written as a
      custom target that older versions understand. */
  function AddHttpDefault(j: Json): Json {
    j[Http(HUseRuuvi) := JBool(true)][Http(HUse) := JBool(true)][Http(HUrl) := JStr(DEFAULT_URL)]
     [Http(HDataFormat) := JStr(FormatStr(Ruuvi))][Http(HAuth) := JStr(AuthStr(NoAuth))]
  }

  function AddHttpAuth(j: Json, c: HttpCfg): Json {
    var typed := j[Http(HAuth) := JStr(AuthStr(c.authType))];
    match c.authType
    case NoAuth => typed
    case Basic => typed[Http(HUser) := JStr(User(c.auth))][Http(HPass) := JStr(Password(c.auth))]
    case Bearer => typed[Http(HBearerToken) := JStr(ConfigJson.Token(c.auth))]
    case TokenAuth => typed[Http(HApiKey) := JStr(ConfigJson.Token(c.auth))]
    case ApiKey => typed[Http(HApiKey) := JStr(ConfigJson.Token(c.auth))]
  }

  function AddHttpCustom(j: Json, c: HttpCfg): Json {
    AddHttpAuth(j[Http(HSslClient) := JBool(c.sslClient)][Http(HSslServer) := JBool(c.sslServer)]
                 [Http(HUrl) := JStr(c.url)][Http(HPeriod) := JNum(c.period)]
                 [Http(HDataFormat) := JStr(FormatStr(c.format))], c)
  }

  function AddHttp(j: Json, c: HttpCfg): Json {
    if (c.useRuuvi && !c.use) || (c.use && IsRuuviTarget(c)) then AddHttpDefault(j)
    else
      var switches := j[Http(HUseRuuvi) := JBool(c.useRuuvi)][Http(HUse) := JBool(c.use)];
      if c.use then AddHttpCustom(switches, c) else switches
  }

  function AddStat(j: Json, c: StatCfg): Json {
    j[Stat(SUse) := JBool(c.use)][Stat(SUrl) := JStr(c.url)][Stat(SUser) := JStr(c.user)][Stat(SPass) := JStr(c.pass)]
     [Stat(SSslClient) := JBool(c.sslClient)][Stat(SSslServer) := JBool(c.sslServer)]
  }

  function AddMqtt(j: Json, c: MqttCfg): Json {
    j[Mqtt(MUse) := JBool(c.use)][Mqtt(MNoRetained) := JBool(c.noRetained)][Mqtt(MTransport) := JStr(c.transport)]
     [Mqtt(MDataFormat) := JStr(MqttFormatStr(c.format))][Mqtt(MServer) := JStr(c.server)][Mqtt(MPort) := JNum(c.port)]
     [Mqtt(MInterval) := JNum(c.interval)][Mqtt(MPrefix) := JStr(c.prefix)][Mqtt(MClientId) := JStr(c.clientId)]
     [Mqtt(MUser) := JStr(c.user)][Mqtt(MPass) := JStr(c.pass)][Mqtt(MSslClient) := JBool(c.sslClient)]
     [Mqtt(MSslServer) := JBool(c.sslServer)]
  }

  /** The default credentials are written as such. */
  function SavedLanType(c: LanCfg, dflt: LanCfg): LanType {
    if c.kind == LanRuuvi && c.user == dflt.user && c.pass == dflt.pass then LanDefault else c.kind
  }

  predicate SavesPassword(t: LanType) {
    t == LanBasic || t == LanDigest || t == LanRuuvi
  }

  function AddLan(j: Json, c: LanCfg, dflt: LanCfg): Json {
    var typed := j[Lan(LType) := JStr(LanStr(SavedLanType(c, dflt)))][Lan(LUser) := JStr(c.user)];
    (if SavesPassword(c.kind) then typed[Lan(LPass) := JStr(c.pass)] else typed)
      [Lan(LApiKey) := JStr(c.apiKey)][Lan(LApiKeyRw) := JStr(c.apiKeyRw)]
  }

  function AddUpdate(j: Json, c: UpdateCfg): Json {
    j[Update(UCycle) := JStr(CycleStr(c.cycle))][Update(UWeekdays) := JNum(c.weekdays)][Update(UFrom) := JNum(c.from)]
     [Update(UTo) := JNum(c.to)][Update(UTimeZone) := JNum(c.timeZone)]
  }

  function AddNtp(j: Json, c: NtpCfg): Json {
    j[Ntp(NUse) := JBool(c.use)][Ntp(NUseDhcp) := JBool(c.useDhcp)][Ntp(NServer1) := JStr(c.server1)]
     [Ntp(NServer2) := JStr(c.server2)][Ntp(NServer3) := JStr(c.server3)][Ntp(NServer4) := JStr(c.server4)]
  }

  function AddFilter(j: Json, c: FilterCfg): Json {
    j[Filter(FCompanyId) := JNum(c.companyId)][Filter(FUse) := JBool(c.use)]
  }

  function AddScan(j: Json, c: ScanCfg): Json {
    j[Scan(CCodedPhy) := JBool(c.codedPhy)][Scan(C1MbitPhy) := JBool(c.phy1Mbit)][Scan(C2MbitPhy) := JBool(c.phy2Mbit)]
     [Scan(C37) := JBool(c.ch37)][Scan(C38) := JBool(c.ch38)][Scan(C39) := JBool(c.ch39)]
       [Scan(CDefault) := JBool(c.isDefault)]
  }

  function AllSome(macs: seq<Mac>): (r: seq<Option<Mac>>)
    ensures |r| == |macs| && forall i :: 0 <= i < |macs| ==> r[i] == Some(macs[i])
  {
    seq(|macs|, i requires 0 <= i < |macs| => Some(macs[i]))
  }

  function AddScanFilter(j: Json, c: ScanFilterCfg): Json
    requires c.length <= |c.list|
  {
    j[FilterAllow := JBool(c.allowListed)][FilterList := JMacs(AllSome(c.list[..c.length]))]
  }

  function AddEth(j: Json, c: EthCfg): Json {
    j[Eth(EUse) := JBool(c.use)][Eth(EDhcp) := JBool(c.dhcp)][Eth(EIp) := JStr(c.ip)][Eth(ENetmask) := JStr(c.netmask)]
     [Eth(EGw) := JStr(c.gw)][Eth(EDns1) := JStr(c.dns1)][Eth(EDns2) := JStr(c.dns2)]
  }

  function AddWifi(j: Json, c: WifiCfg): Json {
    j[WifiSta := JObj(map[Wifi(WSsid) := JStr(c.ssid), Wifi(WPassword) := JStr(c.staPassword)])]
     [WifiAp := JObj(map[Wifi(WPassword) := JStr(c.apPassword),
       Wifi(WChannel) := JNum(if c.channel != 0 then c.channel else 1)])]
  }

  const SECTIONS: nat := 14

  /** The sections in the order in which they are added. */
  function SectionOf(k: Key): (n: nat)
    ensures n < SECTIONS
  {
    match k
    case WifiSta => 0
    case WifiAp => 0
    case Wifi(_) => 0
    case Eth(_) => 1
    case Remote(_) => 2
    case Http(_) => 3
    case Stat(_) => 4
    case Mqtt(_) => 5
    case Lan(_) => 6
    case Update(_) => 7
    case Ntp(_) => 8
    case Filter(_) => 9
    case Scan(_) => 10
    case FilterAllow => 11
    case FilterList => 11
    case Coordinates => 12
    case FwUpdateUrl => 13
  }

  function AddSection(n: nat, j: Json, c: Cfg, dflt: Cfg): Json
    requires n < SECTIONS && c.scanFilter.length <= |c.scanFilter.list|
  {
    match n
    case 0 => AddWifi(j, c.wifi)
    case 1 => AddEth(j, c.eth)
    case 2 => AddRemote(j, c.remote)
    case 3 => AddHttp(j, c.http)
    case 4 => AddStat(j, c.stat)
    case 5 => AddMqtt(j, c.mqtt)
    case 6 => AddLan(j, c.lan, dflt.lan)
    case 7 => AddUpdate(j, c.update)
    case 8 => AddNtp(j, c.ntp)
    case 9 => AddFilter(j, c.filter)
    case 10 => AddScan(j, c.scan)
    case 11 => AddScanFilter(j, c.scanFilter)
    case 12 => j[Coordinates := JStr(c.coordinates)]
    case _ => j[FwUpdateUrl := JStr(c.fwUpdateUrl)]
  }

  /** The document with its first sections. */
  function SaveUpTo(n: nat, c: Cfg, dflt: Cfg): Json
    requires n <= SECTIONS && c.scanFilter.length <= |c.scanFilter.list|
  {
    if n == 0 then map[] else AddSection(n - 1, SaveUpTo(n - 1, c, dflt), c, dflt)
  }

  /** The whole document, passwords included. */
  function Save(c: Cfg, dflt: Cfg): Json
    requires c.scanFilter.length <= |c.scanFilter.list|
  {
    SaveUpTo(SECTIONS, c, dflt)
  }
}
