/** The normal form of a configuration: what saving and loading makes of each section. */
module ConfigNormal {
  import opened Common
  import opened ConfigJson
  import opened ConfigTypes
  import opened ConfigSave
  import opened ConfigLoad

  /** The credentials of a type, as values; the memory behind them does not matter. */
  datatype Credentials = Nothing | UserAndPassword(user: string, pass: string) | OneToken(token: string)

  function CredentialsOf(t: AuthType, m: Memory): Credentials {
    match t
    case NoAuth => Nothing
    case Basic => UserAndPassword(User(m), Password(m))
    case _ => OneToken(ConfigJson.Token(m))
  }

  /** Memory into which credentials were copied. */
  function Stored(cr: Credentials, m: Memory): Memory {
    match cr
    case Nothing => m
    case UserAndPassword(u, p) => WithBasic(m, u, p)
    case OneToken(t) => WithToken(m, t)
  }

  lemma StoredReadBack(t: AuthType, m: Memory, d: Memory)
    requires AuthWf(t, m)
    ensures CredentialsOf(t, Stored(CredentialsOf(t, m), d)) == CredentialsOf(t, m)
    ensures AuthWf(t, Stored(CredentialsOf(t, m), d))
  {
    match t
    case NoAuth =>
    case Basic => BasicReadBack(d, User(m), Password(m));
    case _ => TokenReadBack(d, ConfigJson.Token(m));
  }

  /** What becomes of a number that is read as a uint32_t. */
  function Narrowed(n: u32): u32 {
    ValueInt(n) % 0x1_0000
  }

  // ---------------------------------------------------------------- HTTP

  function RuuviOnly(d: HttpCfg): HttpCfg {
    d.(useRuuvi := true, use := false, format := Ruuvi, authType := NoAuth, url := DEFAULT_URL)
  }

  /** A target like Ruuvi's is folded into the switch for it; a custom target is restored. */
  function NormHttp(c: HttpCfg, d: HttpCfg): HttpCfg {
    if !c.useRuuvi && !c.use then d.(useRuuvi := false, use := false)
    else if !c.use || IsRuuviTarget(c) then RuuviOnly(d)
    else c.(period := Narrowed(c.period), auth := Stored(CredentialsOf(c.authType, c.auth), d.auth))
  }

  lemma HttpAuthLoads(j: Json, c: HttpCfg, m: Memory)
    requires AuthWf(c.authType, c.auth)
    ensures GetStr(AddHttpAuth(j, c), Http(HAuth)) == Some(AuthStr(c.authType))
    ensures LoadHttpAuth(AddHttpAuth(j, c), c.authType, m) == Stored(CredentialsOf(c.authType, c.auth), m)
    ensures forall k: HttpKey :: k in {HUrl, HDataFormat} ==> GetStr(AddHttpAuth(j, c), Http(k)) == GetStr(j, Http(k))
  {
  }

  lemma TargetLoads(j: Json, c: HttpCfg, d: HttpCfg)
    requires HttpWf(c)
    ensures LoadHttpTarget(AddHttpCustom(j, c), d)
         == d.(format := c.format, authType := c.authType, url := c.url,
           auth := Stored(CredentialsOf(c.authType, c.auth), d.auth))
  {
    AuthReadBack(c.authType);
    FormatReadBack(c.format);
    var j1 := j[Http(HSslClient) := JBool(c.sslClient)][Http(HSslServer) := JBool(c.sslServer)]
               [Http(HUrl) := JStr(c.url)][Http(HPeriod) := JNum(c.period)]
               [Http(HDataFormat) := JStr(FormatStr(c.format))];
    assert GetStr(j1, Http(HUrl)) == Some(c.url) && GetStr(j1, Http(HDataFormat)) == Some(FormatStr(c.format));
    HttpAuthLoads(j1, c, d.auth);
  }

  lemma DefaultLoads(j: Json, d: HttpCfg)
    ensures LoadHttp(AddHttpDefault(j), d) == RuuviOnly(d)
  {
    AuthReadBack(NoAuth);
    FormatReadBack(Ruuvi);
  }

  lemma CustomLookups(j: Json, c: HttpCfg)
    ensures var r := AddHttpCustom(j[Http(HUseRuuvi) := JBool(c.useRuuvi)][Http(HUse) := JBool(c.use)], c);
            && GetBool(r, Http(HUseRuuvi), false) == GetBool(r, Http(HUseRuuvi), true) == c.useRuuvi
            && GetBool(r, Http(HUse), false) == GetBool(r, Http(HUse), true) == c.use
            && GetBool(r, Http(HSslClient), false) == GetBool(r, Http(HSslClient), true) == c.sslClient
            && GetBool(r, Http(HSslServer), false) == GetBool(r, Http(HSslServer), true) == c.sslServer
            && Http(HPeriod) in r && r[Http(HPeriod)] == JNum(c.period)
  {
    var j1 := j[Http(HUseRuuvi) := JBool(c.useRuuvi)][Http(HUse) := JBool(c.use)]
               [Http(HSslClient) := JBool(c.sslClient)][Http(HSslServer) := JBool(c.sslServer)]
               [Http(HUrl) := JStr(c.url)][Http(HPeriod) := JNum(c.period)]
               [Http(HDataFormat) := JStr(FormatStr(c.format))];
    HttpAuthKeeps(j1, c);
  }

  lemma HttpAuthKeeps(j: Json, c: HttpCfg)
    ensures forall k :: k !in {HAuth, HUser, HPass, HBearerToken, HApiKey} ==>
              (Http(k) in j <==> Http(k) in AddHttpAuth(j, c))
              && (Http(k) in j ==> j[Http(k)] == AddHttpAuth(j, c)[Http(k)])
  {
  }

  lemma CustomLoads(j: Json, c: HttpCfg, d: HttpCfg)
    requires HttpWf(c) && c.use && !IsRuuviTarget(c)
    ensures LoadHttp(AddHttp(j, c), d) == NormHttp(c, d)
  {
    var switches := j[Http(HUseRuuvi) := JBool(c.useRuuvi)][Http(HUse) := JBool(c.use)];
    var r := AddHttpCustom(switches, c);
    assert AddHttp(j, c) == r;
    CustomLookups(j, c);
    var d1 := d.(useRuuvi := c.useRuuvi, use := c.use);
    TargetLoads(switches, c, d1);
    var d2 := LoadHttpTarget(r, d1);
    assert !IsRuuviTarget(d2);
    assert GetU32(r, Http(HPeriod), d.period) == Narrowed(c.period);
  }

  /** MAIN RESULT. Saving and loading the HTTP section gives its normal form. */
  lemma HttpLoads(j: Json, c: HttpCfg, d: HttpCfg)
    requires HttpWf(c)
    ensures LoadHttp(AddHttp(j, c), d) == NormHttp(c, d)
  {
    if c.use && !IsRuuviTarget(c) {
      CustomLoads(j, c, d);
    } else if c.useRuuvi || c.use {
      DefaultLoads(j, d);
    }
  }

  lemma CustomStable(c: HttpCfg, d: HttpCfg)
    requires HttpWf(c) && c.use && !IsRuuviTarget(c)
    ensures HttpWf(NormHttp(c, d)) && NormHttp(NormHttp(c, d), d) == NormHttp(c, d)
  {
    StoredReadBack(c.authType, c.auth, d.auth);
    var n := NormHttp(c, d);
    assert !IsRuuviTarget(n) && n.use;
    assert CredentialsOf(n.authType, n.auth) == CredentialsOf(c.authType, c.auth);
    assert Narrowed(n.period) == n.period;
  }

  lemma HttpStable(c: HttpCfg, d: HttpCfg)
    requires HttpWf(c) && HttpWf(d)
    ensures HttpWf(NormHttp(c, d)) && NormHttp(NormHttp(c, d), d) == NormHttp(c, d)
  {
    if c.use && !IsRuuviTarget(c) {
      CustomStable(c, d);
    }
  }

  /** What came back, r, of the settings c. */
  predicate HttpCameBack(c: HttpCfg, r: HttpCfg) {
    var ruuvis := c.format == Ruuvi && c.authType == NoAuth && c.url == "https://network.ruuvi.com/record";
    && (c.use && !ruuvis ==>
          && r.(period := c.period, auth := c.auth) == c
          && CredentialsOf(r.authType, r.auth) == CredentialsOf(c.authType, c.auth)
          && (r.period == c.period <==> c.period < 0x1_0000))
    && ((c.useRuuvi && !c.use) || (c.use && ruuvis) ==> r.useRuuvi && !r.use)
    && (!c.useRuuvi && !c.use ==> !r.useRuuvi && !r.use)
  }

  lemma NormHttpCameBack(c: HttpCfg, d: HttpCfg)
    requires HttpWf(c)
    ensures HttpCameBack(c, NormHttp(c, d))
  {
    StoredReadBack(c.authType, c.auth, d.auth);
  }

  /** MAIN RESULT. The HTTP round trip: a custom target other than Ruuvi's comes back with all
      its settings and credentials exactly when its period is below 2^16; a configuration with
      only the Ruuvi target, or with a target equal to it, comes back as Ruuvi-only; one
      without targets stays without. */
  lemma HttpRoundTrip(j: Json, c: HttpCfg, d: HttpCfg)
    requires HttpWf(c)
    ensures HttpCameBack(c, LoadHttp(AddHttp(j, c), d))
  {
    HttpLoads(j, c, d);
    NormHttpCameBack(c, d);
  }

  // ---------------------------------------------------------------- remote configuration

  function NormRemoteType(t: AuthType): AuthType {
    if t == Basic || t == Bearer then t else NoAuth
  }

  /** Unsupported credentials are lost; a change of the type clears the memory. */
  function NormRemote(c: RemoteCfg, d: RemoteCfg): RemoteCfg {
    var t := NormRemoteType(c.authType);
    c.(authType := t,
       auth := Stored(if t == c.authType then CredentialsOf(t, c.auth) else Nothing, if d.authType != t then Zeroed()
         else d.auth))
  }

  lemma RemoteAuthLoads(j: Json, c: RemoteCfg, d: RemoteCfg)
    requires RemoteWf(c)
    ensures LoadRemoteAuth(AddRemoteAuth(j, c), d)
         == d.(authType := NormRemote(c, d).authType, auth := NormRemote(c, d).auth)
  {
    RemoteAuthReadBack(c.authType);
  }

  lemma RemoteLookups(j: Json, c: RemoteCfg)
    requires CStr(c.url, URL_CAP) && 0 <= c.refresh < 0x1_0000
    ensures var r := AddRemote(j, c);
            && GetBool(r, Remote(RUse), false) == GetBool(r, Remote(RUse), true) == c.use
            && GetStr(r, Remote(RUrl)) == Some(c.url)
            && GetBool(r, Remote(RSslClient), false) == GetBool(r, Remote(RSslClient), true) == c.sslClient
            && GetBool(r, Remote(RSslServer), false) == GetBool(r, Remote(RSslServer), true) == c.sslServer
            && Remote(RRefresh) in r && r[Remote(RRefresh)] == JNum(c.refresh)
  {
  }

  lemma RemoteAuthKept(j: Json, c: RemoteCfg)
    ensures var j1 := AddRemoteAuth(j[Remote(RUse) := JBool(c.use)][Remote(RUrl) := JStr(c.url)], c);
            forall k: RemoteKey :: k != RSslClient && k != RSslServer && k != RRefresh ==>
              GetStr(j1, Remote(k)) == GetStr(AddRemote(j, c), Remote(k))
  {
  }

  lemma RemoteLoads(j: Json, c: RemoteCfg, d: RemoteCfg)
    requires RemoteWf(c) && RemoteWf(d)
    ensures LoadRemote(AddRemote(j, c), d) == NormRemote(c, d)
  {
    var j1 := j[Remote(RUse) := JBool(c.use)][Remote(RUrl) := JStr(c.url)];
    var d1 := d.(use := c.use, url := c.url);
    RemoteLookups(j, c);
    RemoteAuthLoads(j1, c, d1);
    RemoteAuthKept(j, c);
    RemoteAuthSame(AddRemoteAuth(j1, c), AddRemote(j, c), d1);
    assert CopyStr(AddRemote(j, c), Remote(RUrl), URL_CAP, d.url) == c.url;
    assert LoadRemoteAuth(AddRemote(j, c), d1)
      == d1.(authType := NormRemote(c, d).authType, auth := NormRemote(c, d).auth);
    assert GetSmall(AddRemote(j, c), Remote(RRefresh), 0, 0xFFFF, d.refresh) == c.refresh;
  }

  lemma RemoteAuthSame(j: Json, j': Json, d: RemoteCfg)
    requires forall k: RemoteKey :: k != RSslClient && k != RSslServer && k != RRefresh ==>
               GetStr(j, Remote(k)) == GetStr(j', Remote(k))
    ensures LoadRemoteAuth(j, d) == LoadRemoteAuth(j', d)
  {
  }

  /** MAIN RESULT. The round trip of the remote section: everything comes back but a token and
      an API key, and the type with them; user and password, and a bearer token, survive. */
  lemma RemoteRoundTrip(j: Json, c: RemoteCfg, d: RemoteCfg)
    requires RemoteWf(c) && RemoteWf(d)
    ensures var r := LoadRemote(AddRemote(j, c), d);
            && r.(authType := c.authType, auth := c.auth) == c
            && (r.authType == c.authType && CredentialsOf(r.authType, r.auth) == CredentialsOf(c.authType, c.auth)
                <==> c.authType != TokenAuth && c.authType != ApiKey)
            && (c.authType == TokenAuth || c.authType == ApiKey ==> r.authType == NoAuth)
  {
    RemoteLoads(j, c, d);
    StoredReadBack(c.authType, c.auth, if d.authType != NormRemoteType(c.authType) then Zeroed() else d.auth);
  }

  lemma RemoteStable(c: RemoteCfg, d: RemoteCfg)
    requires RemoteWf(c)
    ensures RemoteWf(NormRemote(c, d)) && NormRemote(NormRemote(c, d), d) == NormRemote(c, d)
  {
    StoredReadBack(c.authType, c.auth, if d.authType != NormRemoteType(c.authType) then Zeroed() else d.auth);
  }

  // ---------------------------------------------------------------- MQTT

  function OrDefault(s: string, dflt: string): string {
    if s == [] then dflt else s
  }

  function NormMqtt(c: MqttCfg, d: MqttCfg, dflt: MqttCfg): MqttCfg {
    c.(sslClient := if c.use then c.sslClient else d.sslClient, sslServer := if c.use then c.sslServer else d.sslServer,
       interval := Narrowed(c.interval), prefix := OrDefault(c.prefix, dflt.prefix),
         clientId := OrDefault(c.clientId, dflt.clientId))
  }

  lemma MqttLookups(j: Json, c: MqttCfg)
    ensures var r := AddMqtt(j, c);
            && GetStr(r, Mqtt(MTransport)) == Some(c.transport) && GetStr(r, Mqtt(MServer)) == Some(c.server)
            && GetStr(r, Mqtt(MDataFormat)) == Some(MqttFormatStr(c.format))
            && GetStr(r, Mqtt(MPrefix)) == Some(c.prefix) && GetStr(r, Mqtt(MClientId)) == Some(c.clientId)
            && GetStr(r, Mqtt(MUser)) == Some(c.user) && GetStr(r, Mqtt(MPass)) == Some(c.pass)
            && Mqtt(MPort) in r && r[Mqtt(MPort)] == JNum(c.port)
            && Mqtt(MInterval) in r && r[Mqtt(MInterval)] == JNum(c.interval)
  {
  }

  lemma MqttFlags(j: Json, c: MqttCfg)
    ensures var r := AddMqtt(j, c);
            forall was ::
              && GetBool(r, Mqtt(MUse), was) == c.use && GetBool(r, Mqtt(MNoRetained), was) == c.noRetained
              && GetBool(r, Mqtt(MSslClient), was) == c.sslClient && GetBool(r, Mqtt(MSslServer), was) == c.sslServer
  {
  }

  lemma MqttLoads(j: Json, c: MqttCfg, d: MqttCfg, dflt: MqttCfg)
    requires MqttWf(c) && MqttWf(d)
    ensures LoadMqtt(AddMqtt(j, c), d, dflt) == NormMqtt(c, d, dflt)
  {
    var r := AddMqtt(j, c);
    MqttFormatReadBack(c.format);
    MqttLookups(j, c);
    MqttFlags(j, c);
    assert GetSmall(r, Mqtt(MPort), 0, 0xFFFF, d.port) == c.port;
    assert GetU32(r, Mqtt(MInterval), d.interval) == Narrowed(c.interval);
  }

  /** The MQTT round trip: everything comes back, but an interval of 2^16 or more, an empty
      prefix or client id, which become the default ones, and the certificates of a target that
      is not used. */
  lemma MqttRoundTrip(j: Json, c: MqttCfg, d: MqttCfg, dflt: MqttCfg)
    requires MqttWf(c) && MqttWf(d)
    ensures var r := LoadMqtt(AddMqtt(j, c), d, dflt);
            && r.(interval := c.interval, prefix := c.prefix, clientId := c.clientId,
                sslClient := c.sslClient, sslServer := c.sslServer) == c
            && (r.interval == c.interval <==> c.interval < 0x1_0000)
            && r.prefix == (if c.prefix == "" then dflt.prefix else c.prefix)
            && r.clientId == (if c.clientId == "" then dflt.clientId else c.clientId)
            && r.sslClient == (if c.use then c.sslClient else d.sslClient)
            && r.sslServer == (if c.use then c.sslServer else d.sslServer)
  {
    MqttLoads(j, c, d, dflt);
    NumbersNarrow(j, Mqtt(MInterval), c.interval, d.interval);
  }

  lemma MqttStable(c: MqttCfg, d: MqttCfg, dflt: MqttCfg)
    requires MqttWf(c) && MqttWf(dflt)
    ensures MqttWf(NormMqtt(c, d, dflt)) && NormMqtt(NormMqtt(c, d, dflt), d, dflt) == NormMqtt(c, d, dflt)
  {
  }

  // ---------------------------------------------------------------- LAN

  function NormLan(c: LanCfg, dflt: LanCfg): LanCfg {
    var t := SavedLanType(c, dflt);
    if t == LanDefault then c.(kind := LanDefault, user := dflt.user, pass := dflt.pass)
    else if SavesPassword(t) then c
    else c.(user := "", pass := "")
  }

  /** The default credentials are recognised on either way, and no others are. */
  lemma LanLoads(j: Json, c: LanCfg, d: LanCfg, dflt: LanCfg, unknown: LanType)
    requires LanWf(c)
    ensures LoadLan(AddLan(j, c, dflt), d, dflt, unknown) == NormLan(c, dflt)
  {
    LanReadBack(SavedLanType(c, dflt), unknown);
  }

  /** The LAN round trip: the credentials of a password type come back, and Ruuvi's
      are marked as the default exactly when they are the default ones; the default type takes
      the default credentials, and any other type comes back without; the API keys come back. */
  lemma LanRoundTrip(j: Json, c: LanCfg, d: LanCfg, dflt: LanCfg, unknown: LanType)
    requires LanWf(c)
    ensures var r := LoadLan(AddLan(j, c, dflt), d, dflt, unknown);
            && r.apiKey == c.apiKey && r.apiKeyRw == c.apiKeyRw
            && (c.kind == LanBasic || c.kind == LanDigest ==> r == c)
            && (c.kind == LanRuuvi ==>
                  r.user == c.user && r.pass == c.pass
                  && r.kind == if c.user == dflt.user && c.pass == dflt.pass then LanDefault else LanRuuvi)
            && (c.kind == LanDefault ==> r.kind == LanDefault && r.user == dflt.user && r.pass == dflt.pass)
            && (c.kind == LanAllow || c.kind == LanDeny || c.kind == LanBearer ==>
                  r.kind == c.kind && r.user == "" && r.pass == "")
  {
    LanLoads(j, c, d, dflt, unknown);
  }

  lemma LanStable(c: LanCfg, dflt: LanCfg)
    requires LanWf(c) && LanWf(dflt)
    ensures LanWf(NormLan(c, dflt)) && NormLan(NormLan(c, dflt), dflt) == NormLan(c, dflt)
  {
  }

  // ---------------------------------------------------------------- scanning

  function NormScan(c: ScanCfg, dflt: ScanCfg): ScanCfg {
    if c.isDefault then dflt else c
  }

  lemma ScanLoads(j: Json, c: ScanCfg, d: ScanCfg, dflt: ScanCfg)
    ensures LoadScan(AddScan(j, c), d, dflt) == NormScan(c, dflt)
  {
  }

  /** The settings themselves, without the mark that they are the default ones. */
  predicate SameSettings(c: ScanCfg, c': ScanCfg) {
    c.(isDefault := c'.isDefault) == c'
  }

  /** The section as versions before 1.16 saved it: it names neither the 2 Mbit/s setting nor
      the default. */
  function AddOldScan(j: Json, c: ScanCfg): Json
    requires Scan(CDefault) !in j && Scan(C2MbitPhy) !in j
  {
    j[Scan(CCodedPhy) := JBool(c.codedPhy)][Scan(C1MbitPhy) := JBool(c.phy1Mbit)]
     [Scan(CExtendedPayload) := JBool(c.phy2Mbit)][Scan(C37) := JBool(c.ch37)]
       [Scan(C38) := JBool(c.ch38)][Scan(C39) := JBool(c.ch39)]
  }

  lemma OldScanPhys(j: Json, c: ScanCfg, d: ScanCfg)
    requires Scan(CDefault) !in j && Scan(C2MbitPhy) !in j
    ensures var r := AddOldScan(j, c);
            && GetBool(r, Scan(CCodedPhy), d.codedPhy) == c.codedPhy
            && GetBool(r, Scan(C1MbitPhy), d.phy1Mbit) == c.phy1Mbit
            && GetBool(r, Scan(CExtendedPayload), d.phy2Mbit) == c.phy2Mbit && HasBool(r, Scan(CExtendedPayload))
            && Scan(C2MbitPhy) !in r && Scan(CDefault) !in r
  {
  }

  lemma OldScanChannels(j: Json, c: ScanCfg, d: ScanCfg)
    requires Scan(CDefault) !in j && Scan(C2MbitPhy) !in j
    ensures var r := AddOldScan(j, c);
            GetBool(r, Scan(C37), d.ch37) == c.ch37 && GetBool(r, Scan(C38), d.ch38) == c.ch38
            && GetBool(r, Scan(C39), d.ch39) == c.ch39
  {
  }

  lemma OldScanRead(j: Json, c: ScanCfg, d: ScanCfg)
    requires Scan(CDefault) !in j && Scan(C2MbitPhy) !in j
    ensures ReadScan(AddOldScan(j, c), d) == c.(isDefault := false)
  {
    OldScanPhys(j, c, d);
    OldScanChannels(j, c, d);
  }

  lemma OldScanLoads(j: Json, c: ScanCfg, d: ScanCfg, dflt: ScanCfg)
    requires Scan(CDefault) !in j && Scan(C2MbitPhy) !in j
    ensures LoadScan(AddOldScan(j, c), d, dflt)
         == if d.isDefault then dflt else if LooksDefault(c) then dflt.(isDefault := true) else c.(isDefault := false)
  {
    OldScanPhys(j, c, d);
    OldScanRead(j, c, d);
  }

  /** MAIN RESULT. Over which base the settings of an old document survive: exactly over one
      that does not bear the mark itself, unless they are taken for the default ones, or
      where they are the default ones anyway. */
  lemma OldScanSurvives(j: Json, c: ScanCfg, d: ScanCfg, dflt: ScanCfg)
    requires Scan(CDefault) !in j && Scan(C2MbitPhy) !in j
    ensures SameSettings(LoadScan(AddOldScan(j, c), d, dflt), c) <==>
              (!d.isDefault && !LooksDefault(c)) || SameSettings(dflt, c)
  {
    OldScanLoads(j, c, d, dflt);
  }

  /** The settings a gateway starts from before it reads the stored document. */
  const FACTORY_SCAN: ScanCfg := ScanCfg(false, true, true, true, true, true, true)

  /** The stored document is read over the default configuration, which bears the
      mark; so the first start after an update from an old version loses the scan settings of
      the document exactly when they are not the default ones, coded PHY for instance. */
  lemma OldScanLostAtStartup(j: Json, c: ScanCfg)
    requires Scan(CDefault) !in j && Scan(C2MbitPhy) !in j
    ensures SameSettings(LoadScan(AddOldScan(j, c), FACTORY_SCAN, FACTORY_SCAN), c) <==> LooksDefault(c)
    ensures var coded := ScanCfg(true, true, true, true, true, true, false);
            LoadScan(AddOldScan(j, coded), FACTORY_SCAN, FACTORY_SCAN) == FACTORY_SCAN
  {
    OldScanSurvives(j, c, FACTORY_SCAN, FACTORY_SCAN);
    OldScanLoads(j, ScanCfg(true, true, true, true, true, true, false), FACTORY_SCAN, FACTORY_SCAN);
  }

  // ---------------------------------------------------------------- the other sections

  function NormStat(c: StatCfg, d: StatCfg): StatCfg {
    if c.use then c else c.(sslClient := d.sslClient, sslServer := d.sslServer)
  }

  lemma StatLoads(j: Json, c: StatCfg, d: StatCfg)
    requires StatWf(c)
    ensures LoadStat(AddStat(j, c), d) == NormStat(c, d)
  {
  }

  lemma UpdateLoads(j: Json, c: UpdateCfg, d: UpdateCfg)
    requires UpdateWf(c) && UpdateWf(d)
    ensures LoadUpdate(AddUpdate(j, c), d) == c
  {
    CycleReadBack(c.cycle);
  }

  /** The servers are kept only when they are used. */
  function NormNtp(c: NtpCfg, d: NtpCfg): NtpCfg {
    if c.use && !c.useDhcp then c else d.(use := c.use, useDhcp := c.use)
  }

  lemma NtpLoads(j: Json, c: NtpCfg, d: NtpCfg)
    requires NtpWf(c)
    ensures LoadNtp(AddNtp(j, c), d) == NormNtp(c, d)
  {
  }

  lemma FilterLoads(j: Json, c: FilterCfg, d: FilterCfg)
    requires FilterWf(c) && FilterWf(d)
    ensures LoadFilter(AddFilter(j, c), d) == c
  {
  }

  function NormScanFilter(c: ScanFilterCfg, d: ScanFilterCfg): ScanFilterCfg
    requires ScanFilterWf(c) && ScanFilterWf(d)
  {
    c.(list := c.list[..c.length] + d.list[c.length..])
  }

  lemma ScanFilterLoads(j: Json, c: ScanFilterCfg, d: ScanFilterCfg)
    requires ScanFilterWf(c) && ScanFilterWf(d)
    ensures LoadScanFilter(AddScanFilter(j, c), d) == NormScanFilter(c, d)
  {
    assert LoadScanFilter(AddScanFilter(j, c), d).list == NormScanFilter(c, d).list;
  }

  lemma ScanFilterStable(c: ScanFilterCfg, d: ScanFilterCfg)
    requires ScanFilterWf(c) && ScanFilterWf(d)
    ensures ScanFilterWf(NormScanFilter(c, d)) && NormScanFilter(NormScanFilter(c, d), d) == NormScanFilter(c, d)
  {
  }

  function NormEth(c: EthCfg, d: EthCfg): EthCfg {
    if !c.use then d.(use := false) else if c.dhcp then d.(use := true, dhcp := true) else c
  }

  lemma EthLoads(j: Json, c: EthCfg, d: EthCfg)
    requires EthWf(c)
    ensures LoadEth(AddEth(j, c), d) == NormEth(c, d)
  {
  }

  function NormWifi(c: WifiCfg): WifiCfg {
    if c.channel == 0 then c.(channel := 1) else c
  }

  lemma WifiLoads(j: Json, c: WifiCfg, d: WifiCfg)
    requires WifiWf(c) && WifiWf(d)
    ensures LoadWifi(AddWifi(j, c), d) == NormWifi(c)
  {
    var ap := Members(AddWifi(j, c), WifiAp);
    assert ap == map[Wifi(WPassword) := JStr(c.apPassword),
      Wifi(WChannel) := JNum(if c.channel != 0 then c.channel else 1)];
  }

  // ---------------------------------------------------------------- documents with gaps

  /** MAIN RESULT. A document that comes back without the secrets, because they were never
      shown, leaves them as they are. */
  lemma HiddenHttpSecretsKept(j: Json, c: HttpCfg)
    requires HttpWf(c) && c.use && !IsRuuviTarget(c)
    requires Http(HPass) !in j && Http(HBearerToken) !in j && Http(HApiKey) !in j
    ensures var shown := AddHttp(j, c) - {Http(HPass), Http(HBearerToken), Http(HApiKey)};
            var r := LoadHttp(shown, c);
            r.(period := c.period, auth := c.auth) == c
              && CredentialsOf(r.authType, r.auth) == CredentialsOf(c.authType, c.auth)
  {
    var shown := AddHttp(j, c) - {Http(HPass), Http(HBearerToken), Http(HApiKey)};
    AuthReadBack(c.authType);
    FormatReadBack(c.format);
    if c.authType == Basic {
      ReadWritten(c.auth, 0, USER_CAP, User(c.auth));
      UserKeepsPassword(c.auth, User(c.auth));
    }
    HttpShown(j, c, shown);
    HttpFlagsShown(j, c, shown);
    assert LoadHttpAuth(shown, c.authType, c.auth)
        == if c.authType == Basic then WriteC(c.auth, 0, USER_CAP, User(c.auth)) else c.auth;
  }

  lemma HttpShown(j: Json, c: HttpCfg, shown: Json)
    requires c.use && !IsRuuviTarget(c) && shown == AddHttp(j, c) - {Http(HPass), Http(HBearerToken), Http(HApiKey)}
    ensures GetStr(shown, Http(HUrl)) == Some(c.url) && GetStr(shown, Http(HDataFormat)) == Some(FormatStr(c.format))
    ensures GetStr(shown, Http(HAuth)) == Some(AuthStr(c.authType))
    ensures c.authType == Basic ==> GetStr(shown, Http(HUser)) == Some(User(c.auth))
    ensures GetStr(shown, Http(HPass)) == GetStr(shown, Http(HBearerToken)) == GetStr(shown, Http(HApiKey)) == None
  {
  }

  lemma HttpFlagsShown(j: Json, c: HttpCfg, shown: Json)
    requires c.use && !IsRuuviTarget(c) && shown == AddHttp(j, c) - {Http(HPass), Http(HBearerToken), Http(HApiKey)}
    ensures GetBool(shown, Http(HUseRuuvi), c.useRuuvi) == c.useRuuvi && GetBool(shown, Http(HUse), c.use) == c.use
    ensures GetBool(shown, Http(HSslClient), c.sslClient) == c.sslClient
    ensures GetBool(shown, Http(HSslServer), c.sslServer) == c.sslServer
  {
    CustomLookups(j, c);
  }

  /** Writing the user does not reach into the password. */
  lemma UserKeepsPassword(m: Memory, user: string)
    requires CStr(user, USER_CAP)
    ensures Password(WriteC(m, 0, USER_CAP, user)) == Password(m)
  {
    var r := WriteC(m, 0, USER_CAP, user);
    assert r[USER_CAP..USER_CAP + USER_CAP] == m[USER_CAP..USER_CAP + USER_CAP];
  }

  /** What a document without entries of a section does to it. */
  lemma EmptyHttp(c: HttpCfg)
    ensures var http := c.(format := Ruuvi, authType := NoAuth);
            LoadHttp(map[], c) == if !c.use then c
                else if IsRuuviTarget(http) then http.(useRuuvi := true, use := false) else http
  {
  }

  lemma EmptyRemote(c: RemoteCfg)
    requires RemoteWf(c)
    ensures LoadRemote(map[], c) == c
  {
  }

  lemma EmptyMqtt(c: MqttCfg, dflt: MqttCfg)
    requires MqttWf(c)
    ensures LoadMqtt(map[], c, dflt) == c.(format := Raw, prefix := dflt.prefix, clientId := dflt.clientId)
  {
  }

  lemma EmptyOthers(c: Cfg, dflt: Cfg, unknown: LanType)
    requires CfgWf(c)
    ensures LoadStat(map[], c.stat) == c.stat && LoadLan(map[], c.lan, dflt.lan, unknown) == c.lan
    ensures LoadUpdate(map[], c.update) == c.update && LoadFilter(map[], c.filter) == c.filter
    ensures LoadNtp(map[], c.ntp) == if c.ntp.use then c.ntp else c.ntp.(useDhcp := false)
    ensures LoadScan(map[], c.scan, dflt.scan) == if c.scan.isDefault then dflt.scan else c.scan
    ensures LoadScanFilter(map[], c.scanFilter) == c.scanFilter
    ensures LoadEth(map[], c.eth) == c.eth && LoadWifi(map[], c.wifi) == c.wifi
  {
  }

  /** What a document without any entries does to a configuration: a target in use loses its
      format and credentials, and the MQTT names become the defaults. */
  lemma EmptyDocument(c: Cfg, dflt: Cfg, unknown: LanType)
    requires CfgWf(c)
    ensures var http := c.http.(format := Ruuvi, authType := NoAuth);
            Load(map[], c, dflt, unknown) == c.(
              http := if !c.http.use then c.http
                else if IsRuuviTarget(http) then http.(useRuuvi := true, use := false) else http,
              mqtt := c.mqtt.(format := Raw, prefix := dflt.mqtt.prefix, clientId := dflt.mqtt.clientId),
              ntp := if c.ntp.use then c.ntp else c.ntp.(useDhcp := false),
              scan := if c.scan.isDefault then dflt.scan else c.scan)
  {
    EmptyHttp(c.http);
    EmptyRemote(c.remote);
    EmptyMqtt(c.mqtt, dflt.mqtt);
    EmptyOthers(c, dflt, unknown);
  }
}
