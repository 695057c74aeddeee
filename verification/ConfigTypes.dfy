/** The sections of the gateway's configuration, and the texts that stand for their enums. */
module ConfigTypes {
  import opened Common
  import opened AdvCache
  import opened ConfigJson

  const URL_CAP: nat := 256
  const PASS_CAP: nat := 51
  const MAX_SENSORS: nat := 100
  /** Sizes that other components define; the results hold for any. */
  const LAN_CAP: nat := 65
  const SSID_CAP: nat := 32
  const WIFI_PASS_CAP: nat := 64

  const DEFAULT_URL := "https://network.ruuvi.com/record"

  datatype AuthType = NoAuth | Basic | Bearer | TokenAuth | ApiKey

  datatype RemoteCfg = RemoteCfg(
    use: bool, sslClient: bool, sslServer: bool, url: string, authType: AuthType, auth: Memory, refresh: int)

  datatype HttpFormat = Ruuvi | RawAndDecoded | Decoded

  datatype HttpCfg = HttpCfg(
    useRuuvi: bool, use: bool, sslClient: bool, sslServer: bool, url: string, period: u32,
    format: HttpFormat, authType: AuthType, auth: Memory)

  datatype StatCfg = StatCfg(use: bool, sslClient: bool, sslServer: bool, url: string, user: string, pass: string)

  datatype MqttFormat = Raw | MqttRawAndDecoded | MqttDecoded

  datatype MqttCfg = MqttCfg(
    use: bool, noRetained: bool, sslClient: bool, sslServer: bool, transport: string, format: MqttFormat,
    server: string, port: int, interval: u32, prefix: string, clientId: string, user: string, pass: string)

  datatype LanType = LanBasic | LanDigest | LanRuuvi | LanDefault | LanAllow | LanDeny | LanBearer

  datatype LanCfg = LanCfg(kind: LanType, user: string, pass: string, apiKey: string, apiKeyRw: string)

  datatype Cycle = Regular | BetaTester | Manual

  datatype UpdateCfg = UpdateCfg(cycle: Cycle, weekdays: int, from: int, to: int, timeZone: int)

  datatype NtpCfg = NtpCfg(use: bool, useDhcp: bool, server1: string, server2: string, server3: string, server4: string)

  datatype FilterCfg = FilterCfg(companyId: int, use: bool)

  datatype ScanCfg = ScanCfg(
    codedPhy: bool, phy1Mbit: bool, phy2Mbit: bool, ch37: bool, ch38: bool, ch39: bool, isDefault: bool)

  /** The list has room for all sensors; its first `length` entries are in use. */
  datatype ScanFilterCfg = ScanFilterCfg(allowListed: bool, length: nat, list: seq<Mac>)

  datatype EthCfg = EthCfg(use: bool, dhcp: bool, ip: string, netmask: string, gw: string, dns1: string, dns2: string)

  datatype WifiCfg = WifiCfg(ssid: string, staPassword: string, apPassword: string, channel: int)

  datatype Cfg = Cfg(
    remote: RemoteCfg, http: HttpCfg, stat: StatCfg, mqtt: MqttCfg, lan: LanCfg, update: UpdateCfg, ntp: NtpCfg,
    filter: FilterCfg, scan: ScanCfg, scanFilter: ScanFilterCfg, coordinates: string, fwUpdateUrl: string,
    eth: EthCfg, wifi: WifiCfg)

  // ---------------------------------------------------------------- what the C types guarantee

  ghost predicate RemoteWf(c: RemoteCfg) {
    CStr(c.url, URL_CAP) && 0 <= c.refresh < 0x1_0000 && AuthWf(c.authType, c.auth)
  }

  /** The credentials are terminated strings. */
  ghost predicate AuthWf(t: AuthType, m: Memory) {
    match t
    case NoAuth => true
    case Basic => CStr(User(m), USER_CAP) && CStr(Password(m), USER_CAP)
    case _ => CStr(Token(m), TOKEN_CAP)
  }

  ghost predicate HttpWf(c: HttpCfg) { CStr(c.url, URL_CAP) && AuthWf(c.authType, c.auth) }

  ghost predicate StatWf(c: StatCfg) { CStr(c.url, URL_CAP) && CStr(c.user, PASS_CAP) && CStr(c.pass, PASS_CAP) }

  ghost predicate MqttWf(c: MqttCfg) {
    && CStr(c.transport, 8) && CStr(c.server, 256) && CStr(c.prefix, 257) && CStr(c.clientId, 51)
    && CStr(c.user, 129) && CStr(c.pass, 257) && 0 <= c.port < 0x1_0000
  }

  ghost predicate LanWf(c: LanCfg) {
    CStr(c.user, LAN_CAP) && CStr(c.pass, LAN_CAP) && CStr(c.apiKey, LAN_CAP) && CStr(c.apiKeyRw, LAN_CAP)
  }

  ghost predicate UpdateWf(c: UpdateCfg) {
    0 <= c.weekdays < 256 && 0 <= c.from < 256 && 0 <= c.to < 256 && -128 <= c.timeZone < 128
  }

  ghost predicate NtpWf(c: NtpCfg) {
    CStr(c.server1, 32) && CStr(c.server2, 32) && CStr(c.server3, 32) && CStr(c.server4, 32)
  }

  ghost predicate FilterWf(c: FilterCfg) { 0 <= c.companyId < 0x1_0000 }

  ghost predicate ScanFilterWf(c: ScanFilterCfg) { |c.list| == MAX_SENSORS && c.length <= MAX_SENSORS }

  ghost predicate EthWf(c: EthCfg) {
    CStr(c.ip, 17) && CStr(c.netmask, 17) && CStr(c.gw, 17) && CStr(c.dns1, 17) && CStr(c.dns2, 17)
  }

  ghost predicate WifiWf(c: WifiCfg) {
    CStr(c.ssid, SSID_CAP) && CStr(c.staPassword, WIFI_PASS_CAP) && CStr(c.apPassword, WIFI_PASS_CAP)
      && 0 <= c.channel < 256
  }

  ghost predicate CfgWf(c: Cfg) {
    && RemoteWf(c.remote) && HttpWf(c.http) && StatWf(c.stat) && MqttWf(c.mqtt) && LanWf(c.lan) && UpdateWf(c.update)
    && NtpWf(c.ntp) && FilterWf(c.filter) && ScanFilterWf(c.scanFilter) && CStr(c.coordinates, 64)
    && CStr(c.fwUpdateUrl, URL_CAP) && EthWf(c.eth) && WifiWf(c.wifi)
  }

  // ---------------------------------------------------------------- texts of enums

  function AuthStr(t: AuthType): string {
    match t
    case NoAuth => "none"
    case Basic => "basic"
    case Bearer => "bearer"
    case TokenAuth => "token"
    case ApiKey => "api_key"
  }

  /** Texts of the wrong length need not be compared further. */
  function AuthOf(s: string): AuthType {
    if s == "none" then NoAuth
    else if s == "basic" then Basic
    else if s == "bearer" then Bearer
    else if s == "token" then TokenAuth
    else if s == "api_key" then ApiKey
    else NoAuth
  }

  lemma AuthReadBack(t: AuthType)
    ensures AuthOf(Truncated(AuthStr(t), 8)) == t && NUL !in AuthStr(t)
  {
    assert "basic"[0] != "token"[0];
  }

  function FormatStr(f: HttpFormat): string {
    match f
    case Ruuvi => "ruuvi"
    case RawAndDecoded => "ruuvi_raw_and_decoded"
    case Decoded => "ruuvi_decoded"
  }

  function FormatOf(s: string): HttpFormat {
    if s == "ruuvi" then Ruuvi
    else if s == "ruuvi_raw_and_decoded" then RawAndDecoded
    else if s == "ruuvi_decoded" then Decoded
    else Ruuvi
  }

  lemma FormatReadBack(f: HttpFormat)
    ensures FormatOf(Truncated(FormatStr(f), 22)) == f
  {
    assert |"ruuvi"| == 5 && |"ruuvi_decoded"| == 13 && |"ruuvi_raw_and_decoded"| == 21;
  }

  function MqttFormatStr(f: MqttFormat): string {
    match f
    case Raw => "ruuvi_raw"
    case MqttRawAndDecoded => "ruuvi_raw_and_decoded"
    case MqttDecoded => "ruuvi_decoded"
  }

  function MqttFormatOf(s: string): MqttFormat {
    if s == "ruuvi_raw" then Raw
    else if s == "ruuvi_raw_and_decoded" then MqttRawAndDecoded
    else if s == "ruuvi_decoded" then MqttDecoded
    else Raw
  }

  lemma MqttFormatReadBack(f: MqttFormat)
    ensures MqttFormatOf(Truncated(MqttFormatStr(f), 22)) == f
  {
    assert |"ruuvi_raw"| == 9 && |"ruuvi_decoded"| == 13 && |"ruuvi_raw_and_decoded"| == 21;
  }

  function LanStr(t: LanType): string {
    match t
    case LanBasic => "lan_auth_basic"
    case LanDigest => "lan_auth_digest"
    case LanRuuvi => "lan_auth_ruuvi"
    case LanDefault => "lan_auth_default"
    case LanAllow => "lan_auth_allow"
    case LanDeny => "lan_auth_deny"
    case LanBearer => "lan_auth_bearer"
  }

  /** `unknown` is what the server library makes of other texts. */
  function LanOf(s: string, unknown: LanType): LanType {
    if s == "lan_auth_basic" then LanBasic
    else if s == "lan_auth_digest" then LanDigest
    else if s == "lan_auth_ruuvi" then LanRuuvi
    else if s == "lan_auth_default" then LanDefault
    else if s == "lan_auth_allow" then LanAllow
    else if s == "lan_auth_deny" then LanDeny
    else if s == "lan_auth_bearer" then LanBearer
    else unknown
  }

  lemma LanTextsDiffer()
    ensures forall t, u: LanType :: t != u ==> LanStr(t) != LanStr(u)
  {
    assert forall t, u: LanType :: t != u ==>
      |LanStr(u)| != |LanStr(t)| || LanStr(u)[9] != LanStr(t)[9] || LanStr(u)[10] != LanStr(t)[10];
  }

  lemma LanReadBack(t: LanType, unknown: LanType)
    ensures LanOf(LanStr(t), unknown) == t
  {
    LanTextsDiffer();
  }

  function CycleStr(c: Cycle): string {
    match c
    case Regular => "regular"
    case BetaTester => "beta"
    case Manual => "manual"
  }

  function CycleOf(s: string): Cycle {
    if s == "beta" then BetaTester else if s == "manual" then Manual else Regular
  }

  lemma CycleReadBack(c: Cycle)
    ensures CycleOf(Truncated(CycleStr(c), 20)) == c
  {
    assert |"beta"| == 4 && |"manual"| == 6 && |"regular"| == 7;
  }
}
