/** Loading a document as the firmware does it: each section's structure is updated in place,
    field by field, as far as the document has something for it. */
module ConfigParser {
  import opened Common
  import opened ConfigJson
  import opened ConfigTypes
  import opened ConfigSave
  import opened ConfigLoad

  /** The memory of the union of credentials. */
  class AuthUnion {
    const buf: array<char>

    ghost predicate Valid() {
      buf.Length == 256
    }

    constructor (m: Memory)
      ensures Valid() && View() == m && fresh(buf)
    {
      buf := new char[256](i requires 0 <= i < 256 => m[i]);
      new;
      assert buf[..] == m;
    }

    function View(): Memory
      requires Valid()
      reads buf
    {
      buf[..]
    }

    method Clear()
      requires Valid()
      modifies buf
      ensures View() == Zeroed()
    {
      forall i | 0 <= i < 256 {
        buf[i] := NUL;
      }
    }

    /** Copies a text and its terminator, truncated to the buffer of `cap` bytes. */
    method CopyString(at: nat, cap: nat, s: string)
      requires Valid() && 0 < cap && at + cap <= 256
      modifies buf
      ensures View() == WriteC(old(View()), at, cap, s)
    {
      var t := Truncated(s, cap);
      forall i | 0 <= i < |t| {
        buf[at + i] := t[i];
      }
      buf[at + |t|] := NUL;
      assert buf[..] == old(buf[..])[..at] + t + [NUL] + old(buf[..])[at + |t| + 1..];
    }

    method CopyField(j: Json, k: Key, at: nat, cap: nat)
      requires Valid() && 0 < cap && at + cap <= 256
      modifies buf
      ensures View() == if GetStr(j, k).Some? then WriteC(old(View()), at, cap, GetStr(j, k).value) else old(View())
    {
      var s := GetStr(j, k);
      if s.Some? {
        CopyString(at, cap, s.value);
      }
    }
  }

  class HttpSection {
    var useRuuvi: bool
    var use: bool
    var sslClient: bool
    var sslServer: bool
    var url: string
    var period: u32
    var format: HttpFormat
    var authType: AuthType
    const auth: AuthUnion

    constructor (c: HttpCfg)
      ensures auth.Valid() && View() == c && fresh(auth) && fresh(auth.buf)
    {
      useRuuvi, use, sslClient, sslServer := c.useRuuvi, c.use, c.sslClient, c.sslServer;
      url, period, format, authType := c.url, c.period, c.format, c.authType;
      auth := new AuthUnion(c.auth);
    }

    function View(): HttpCfg
      requires auth.Valid()
      reads this, auth.buf
    {
      HttpCfg(useRuuvi, use, sslClient, sslServer, url, period, format, authType, auth.View())
    }

    method ParseAuth(j: Json)
      requires auth.Valid()
      modifies auth.buf
      ensures View() == old(View()).(auth := LoadHttpAuth(j, authType, old(auth.View())))
    {
      match authType {
        case NoAuth =>
        case Basic =>
          auth.CopyField(j, Http(HUser), 0, USER_CAP);
          auth.CopyField(j, Http(HPass), USER_CAP, USER_CAP);
        case Bearer => auth.CopyField(j, Http(HBearerToken), 0, TOKEN_CAP);
        case TokenAuth => auth.CopyField(j, Http(HApiKey), 0, TOKEN_CAP);
        case ApiKey => auth.CopyField(j, Http(HApiKey), 0, TOKEN_CAP);
      }
    }

    method ParseTarget(j: Json)
      requires auth.Valid()
      modifies this, auth.buf
      ensures View() == LoadHttpTarget(j, old(View()))
    {
      var f := GetStr(j, Http(HDataFormat));
      format := if f.None? then Ruuvi else FormatOf(Truncated(f.value, 22));
      var t := GetStr(j, Http(HAuth));
      authType := if t.None? then NoAuth else AuthOf(Truncated(t.value, 8));
      url := CopyStr(j, Http(HUrl), URL_CAP, url);
      ParseAuth(j);
    }

    /** A target like Ruuvi's turns into the switch for it. */
    method FoldTarget()
      requires auth.Valid()
      modifies `useRuuvi, `use
      ensures View() == if IsRuuviTarget(old(View())) then old(View()).(useRuuvi := true, use := false) else old(View())
    {
      if format == Ruuvi && authType == NoAuth && url == DEFAULT_URL {
        useRuuvi := true;
        use := false;
      }
    }

    method ParseOptions(j: Json)
      requires auth.Valid()
      modifies `period, `sslClient, `sslServer
      ensures View() == old(View()).(period := GetU32(j, Http(HPeriod), old(period)),
                                     sslClient := GetBool(j, Http(HSslClient), old(sslClient)),
                                     sslServer := GetBool(j, Http(HSslServer), old(sslServer)))
    {
      period := GetU32(j, Http(HPeriod), period);
      sslClient := GetBool(j, Http(HSslClient), sslClient);
      sslServer := GetBool(j, Http(HSslServer), sslServer);
    }

    method Parse(j: Json)
      requires auth.Valid()
      modifies this, auth.buf
      ensures View() == LoadHttp(j, old(View()))
    {
      useRuuvi := GetBool(j, Http(HUseRuuvi), useRuuvi);
      use := GetBool(j, Http(HUse), use);
      if !use { return; }
      ParseTarget(j);
      FoldTarget();
      if use {
        ParseOptions(j);
      }
    }
  }

  class RemoteSection {
    var use: bool
    var sslClient: bool
    var sslServer: bool
    var url: string
    var authType: AuthType
    const auth: AuthUnion
    var refresh: int

    constructor (c: RemoteCfg)
      ensures auth.Valid() && View() == c && fresh(auth) && fresh(auth.buf)
    {
      use, sslClient, sslServer, url, authType, refresh := c.use, c.sslClient, c.sslServer, c.url, c.authType,
        c.refresh;
      auth := new AuthUnion(c.auth);
    }

    function View(): RemoteCfg
      requires auth.Valid()
      reads this, auth.buf
    {
      RemoteCfg(use, sslClient, sslServer, url, authType, auth.View(), refresh)
    }

    method ParseAuth(j: Json)
      requires auth.Valid()
      modifies this, auth.buf
      ensures View() == LoadRemoteAuth(j, old(View()))
    {
      var text := GetStr(j, Remote(RAuthType));
      if text.None? { return; }
      var t := RemoteAuthOf(Truncated(text.value, 8));
      if authType != t {
        auth.Clear();
        authType := t;
        assert auth.View() == Zeroed();
      }
      match t {
        case Basic =>
          auth.CopyField(j, Remote(RBasicUser), 0, USER_CAP);
          auth.CopyField(j, Remote(RBasicPass), USER_CAP, USER_CAP);
        case Bearer => auth.CopyField(j, Remote(RBearerToken), 0, TOKEN_CAP);
        case _ =>
      }
    }

    method Parse(j: Json)
      requires auth.Valid() && 0 <= refresh < 0x1_0000
      modifies this, auth.buf
      ensures View() == LoadRemote(j, old(View()))
    {
      use := GetBool(j, Remote(RUse), use);
      url := CopyStr(j, Remote(RUrl), URL_CAP, url);
      ParseAuth(j);
      sslClient := GetBool(j, Remote(RSslClient), sslClient);
      sslServer := GetBool(j, Remote(RSslServer), sslServer);
      refresh := GetSmall(j, Remote(RRefresh), 0, 0xFFFF, refresh);
    }
  }

  class LanSection {
    var kind: LanType
    var user: string
    var pass: string
    var apiKey: string
    var apiKeyRw: string

    function View(): LanCfg
      reads this
    {
      LanCfg(kind, user, pass, apiKey, apiKeyRw)
    }

    method Parse(j: Json, dflt: LanCfg, unknown: LanType)
      modifies this
      ensures View() == LoadLan(j, old(View()), dflt, unknown)
    {
      var text := GetStr(j, Lan(LType));
      if text.Some? {
        kind := LanOf(text.value, unknown);
        if SavesPassword(kind) {
          user := CopyStr(j, Lan(LUser), LAN_CAP, user);
          pass := CopyStr(j, Lan(LPass), LAN_CAP, pass);
        } else if kind == LanDefault {
          user, pass := dflt.user, dflt.pass;
        } else {
          user, pass := "", "";
        }
        if kind == LanRuuvi && dflt.user == user && dflt.pass == pass {
          kind := LanDefault;
        }
      }
      apiKey := CopyStr(j, Lan(LApiKey), LAN_CAP, apiKey);
      apiKeyRw := CopyStr(j, Lan(LApiKeyRw), LAN_CAP, apiKeyRw);
    }
  }

  class ScanSection {
    var codedPhy: bool
    var phy1Mbit: bool
    var phy2Mbit: bool
    var ch37: bool
    var ch38: bool
    var ch39: bool
    var isDefault: bool

    function View(): ScanCfg
      reads this
    {
      ScanCfg(codedPhy, phy1Mbit, phy2Mbit, ch37, ch38, ch39, isDefault)
    }

    method CopyPhysAndChannels(dflt: ScanCfg)
      modifies this
      ensures View() == dflt.(isDefault := old(isDefault))
    {
      codedPhy, phy1Mbit, phy2Mbit := dflt.codedPhy, dflt.phy1Mbit, dflt.phy2Mbit;
      ch37, ch38, ch39 := dflt.ch37, dflt.ch38, dflt.ch39;
    }

    method ReadExplicit(j: Json)
      requires !isDefault
      modifies this
      ensures View() == ReadScan(j, old(View()))
    {
      codedPhy := GetBool(j, Scan(CCodedPhy), codedPhy);
      phy1Mbit := GetBool(j, Scan(C1MbitPhy), phy1Mbit);
      phy2Mbit := GetBool(j, Scan(CExtendedPayload), phy2Mbit);
      phy2Mbit := GetBool(j, Scan(C2MbitPhy), phy2Mbit);
      ch37 := GetBool(j, Scan(C37), ch37);
      ch38 := GetBool(j, Scan(C38), ch38);
      ch39 := GetBool(j, Scan(C39), ch39);
    }

    method Convert(dflt: ScanCfg)
      requires !isDefault
      modifies this
      ensures View() == if LooksDefault(old(View())) then dflt.(isDefault := true) else old(View())
    {
      var looksDefault := true;
      if codedPhy || !phy1Mbit || !phy2Mbit {
        looksDefault := false;
      }
      if !ch37 || !ch38 || !ch39 {
        looksDefault := false;
      }
      isDefault := looksDefault;
      if looksDefault {
        CopyPhysAndChannels(dflt);
      }
    }

    method Parse(j: Json, dflt: ScanCfg)
      modifies this
      ensures View() == LoadScan(j, old(View()), dflt)
    {
      isDefault := GetBool(j, Scan(CDefault), isDefault);
      if isDefault {
        CopyPhysAndChannels(dflt);
        isDefault := dflt.isDefault;
      } else {
        ReadExplicit(j);
        if HasBool(j, Scan(CExtendedPayload)) && !HasBool(j, Scan(CDefault)) {
          Convert(dflt);
        }
      }
    }
  }

  class MqttSection {
    var use: bool
    var noRetained: bool
    var sslClient: bool
    var sslServer: bool
    var transport: string
    var format: MqttFormat
    var server: string
    var port: int
    var interval: u32
    var prefix: string
    var clientId: string
    var user: string
    var pass: string

    function View(): MqttCfg
      reads this
    {
      MqttCfg(use, noRetained, sslClient, sslServer, transport, format, server, port, interval, prefix, clientId,
        user, pass)
    }

    /** A text that may be missing or empty. */
    method ParseName(j: Json, k: Key, cap: nat, dflt: string) returns (name: string)
      requires cap > 0
      ensures name == CopyOrDefault(j, k, cap, dflt)
    {
      var text := GetStr(j, k);
      name := if text.None? then dflt else Truncated(text.value, cap);
      if |name| == 0 {
        name := dflt;
      }
    }

    method ParseBroker(j: Json)
      requires 0 <= port < 0x1_0000
      modifies `use, `noRetained, `transport, `format, `server, `port, `interval
      ensures use == GetBool(j, Mqtt(MUse), old(use)) && noRetained == GetBool(j, Mqtt(MNoRetained), old(noRetained))
      ensures transport == CopyStr(j, Mqtt(MTransport), 8, old(transport))
        && server == CopyStr(j, Mqtt(MServer), 256, old(server))
      ensures format == LoadMqttFormat(j)
      ensures port == GetSmall(j, Mqtt(MPort), 0, 0xFFFF, old(port))
        && interval == GetU32(j, Mqtt(MInterval), old(interval))
    {
      use := GetBool(j, Mqtt(MUse), use);
      noRetained := GetBool(j, Mqtt(MNoRetained), noRetained);
      transport := CopyStr(j, Mqtt(MTransport), 8, transport);
      var f := GetStr(j, Mqtt(MDataFormat));
      format := if f.None? then Raw else MqttFormatOf(Truncated(f.value, 22));
      server := CopyStr(j, Mqtt(MServer), 256, server);
      port := GetSmall(j, Mqtt(MPort), 0, 0xFFFF, port);
      interval := GetU32(j, Mqtt(MInterval), interval);
    }

    method ParseAccount(j: Json, dflt: MqttCfg)
      modifies `prefix, `clientId, `user, `pass
      ensures prefix == CopyOrDefault(j, Mqtt(MPrefix), 257, dflt.prefix)
      ensures clientId == CopyOrDefault(j, Mqtt(MClientId), 51, dflt.clientId)
      ensures user == CopyStr(j, Mqtt(MUser), 129, old(user)) && pass == CopyStr(j, Mqtt(MPass), 257, old(pass))
    {
      prefix := ParseName(j, Mqtt(MPrefix), 257, dflt.prefix);
      clientId := ParseName(j, Mqtt(MClientId), 51, dflt.clientId);
      user := CopyStr(j, Mqtt(MUser), 129, user);
      pass := CopyStr(j, Mqtt(MPass), 257, pass);
    }

    method Parse(j: Json, dflt: MqttCfg)
      requires 0 <= port < 0x1_0000
      modifies this
      ensures View() == LoadMqtt(j, old(View()), dflt)
    {
      ParseBroker(j);
      ParseAccount(j, dflt);
      ParseSsl(j);
    }

    method ParseSsl(j: Json)
      modifies `sslClient, `sslServer
      ensures sslClient == if use then GetBool(j, Mqtt(MSslClient), old(sslClient)) else old(sslClient)
      ensures sslServer == if use then GetBool(j, Mqtt(MSslServer), old(sslServer)) else old(sslServer)
    {
      if use {
        sslClient := GetBool(j, Mqtt(MSslClient), sslClient);
        sslServer := GetBool(j, Mqtt(MSslServer), sslServer);
      }
    }
  }

  class NtpSection {
    var use: bool
    var useDhcp: bool
    var server1: string
    var server2: string
    var server3: string
    var server4: string

    function View(): NtpCfg
      reads this
    {
      NtpCfg(use, useDhcp, server1, server2, server3, server4)
    }

    method Parse(j: Json)
      modifies this
      ensures View() == LoadNtp(j, old(View()))
    {
      use := GetBool(j, Ntp(NUse), use);
      if use {
        useDhcp := GetBool(j, Ntp(NUseDhcp), useDhcp);
        if !useDhcp {
          server1 := CopyStr(j, Ntp(NServer1), 32, server1);
          server2 := CopyStr(j, Ntp(NServer2), 32, server2);
          server3 := CopyStr(j, Ntp(NServer3), 32, server3);
          server4 := CopyStr(j, Ntp(NServer4), 32, server4);
        }
      } else {
        useDhcp := false;
      }
    }
  }
}
