/** JSON objects, the decoding of their values, and strings in fixed-size C buffers. */
module ConfigJson {
  import opened Common
  import opened AdvCache

  datatype RemoteKey = RUse | RUrl | RAuthType | RBasicUser | RBasicPass | RBearerToken | RToken | RApiKey
    | RSslClient | RSslServer | RRefresh
  datatype HttpKey = HUseRuuvi | HUse | HUrl | HDataFormat | HAuth | HUser | HPass | HBearerToken | HApiKey
    | HPeriod | HSslClient | HSslServer
  datatype StatKey = SUse | SUrl | SUser | SPass | SSslClient | SSslServer
  datatype MqttKey = MUse | MNoRetained | MTransport | MDataFormat | MServer | MPort | MInterval | MPrefix
    | MClientId | MUser | MPass | MSslClient | MSslServer
  datatype LanKey = LType | LUser | LPass | LApiKey | LApiKeyRw
  datatype UpdateKey = UCycle | UWeekdays | UFrom | UTo | UTimeZone
  datatype NtpKey = NUse | NUseDhcp | NServer1 | NServer2 | NServer3 | NServer4
  datatype FilterKey = FCompanyId | FUse
  datatype ScanKey = CCodedPhy | C1MbitPhy | C2MbitPhy | CExtendedPayload | C37 | C38 | C39 | CDefault
  datatype EthKey = EUse | EDhcp | EIp | ENetmask | EGw | EDns1 | EDns2
  datatype WifiKey = WSsid | WPassword | WChannel

  /** The names of a configuration document; those of one section share a constructor. */
  datatype Key =
    | Remote(r: RemoteKey) | Http(h: HttpKey) | Stat(s: StatKey) | Mqtt(m: MqttKey) | Lan(l: LanKey)
    | Update(u: UpdateKey) | Ntp(n: NtpKey) | Filter(f: FilterKey) | Scan(c: ScanKey) | FilterAllow | FilterList
    | Coordinates | FwUpdateUrl | Eth(e: EthKey) | WifiSta | WifiAp | Wifi(w: WifiKey)

  /** `JMacs` is a list of strings that are the texts of sensor addresses, or are not. */
  datatype Value = JBool(b: bool) | JNum(n: int) | JStr(s: string) | JMacs(macs: seq<Option<Mac>>)
    | JObj(obj: map<Key, Value>) | JNull

  type Json = map<Key, Value>

  const NUL: char := 0 as char

  /** A text that a C string of the given buffer size can hold. */
  predicate CStr(s: string, cap: nat) {
    |s| < cap && NUL !in s
  }

  function Truncated(s: string, cap: nat): (r: string)
    requires cap > 0
    ensures CStr(s, cap) ==> r == s
    ensures r <= s && |r| == if |s| < cap then |s| else cap - 1
    ensures NUL !in s ==> CStr(r, cap)
  {
    if |s| < cap then s else s[..cap - 1]
  }

  // ---------------------------------------------------------------- getters

  function GetStr(j: Json, k: Key): Option<string> {
    if k in j && j[k].JStr? then Some(j[k].s) else None
  }

  function CopyStr(j: Json, k: Key, cap: nat, was: string): string
    requires cap > 0
  {
    if GetStr(j, k).Some? then Truncated(GetStr(j, k).value, cap) else was
  }

  function GetBool(j: Json, k: Key, was: bool): bool {
    if k in j && j[k].JBool? then j[k].b else was
  }

  const INT_MAX: int := 0x7FFF_FFFF
  const INT_MIN: int := -0x8000_0000

  /** The integer reading of a number is saturated. */
  function ValueInt(n: int): int {
    if n > INT_MAX then INT_MAX else if n < INT_MIN then INT_MIN else n
  }

  function HexDigit(c: char): Option<nat> {
    if '0' <= c <= '9' then Some(c as nat - '0' as nat)
    else if 'a' <= c <= 'f' then Some(c as nat - 'a' as nat + 10)
    else if 'A' <= c <= 'F' then Some(c as nat - 'A' as nat + 10)
    else None
  }

  /** The number that the leading digits denote, and how many there are. */
  function Digits(s: string, base: nat, acc: nat): (nat, nat) {
    if s == [] || HexDigit(s[0]).None? || HexDigit(s[0]).value >= base then (acc, 0)
    else
      var (v, n) := Digits(s[1..], base, acc * base + HexDigit(s[0]).value);
      (v, n + 1)
  }

  predicate HasHexPrefix(s: string) {
    |s| >= 2 && s[0] == '0' && s[1] == 'x'
  }

  /** Texts are read as decimal or hexadecimal numbers that must end with the text. */
  function TextU32(s: string): Option<u32> {
    var (v, n) := if HasHexPrefix(s) then Digits(s[2..], 16, 0) else Digits(s, 10, 0);
    var all := if HasHexPrefix(s) then n == |s| - 2 && n > 0 else n == |s|;
    if all then Some(if v < TWO_TO_32 then v else TWO_TO_32 - 1) else None
  }

  /** A number is narrowed to 16 bits, a text is not. */
  function GetU32(j: Json, k: Key, was: u32): u32 {
    if k !in j then was
    else
      match j[k]
      case JNum(n) => if ValueInt(n) >= 0 then ValueInt(n) % 0x1_0000 else was
      case JStr(s) => if TextU32(s).Some? then TextU32(s).value else was
      case _ => was
  }

  /** Smaller numbers must be in range; texts must be hexadecimal. */
  function GetSmall(j: Json, k: Key, lo: int, hi: nat, was: int): (r: int)
    requires lo <= was <= hi && lo <= 0
    ensures lo <= r <= hi
    ensures k !in j ==> r == was
    ensures k in j && j[k].JNum? && INT_MIN < lo && hi < INT_MAX ==> r == if lo <= j[k].n <= hi then j[k].n else was
  {
    if k !in j then was
    else
      match j[k]
      case JNum(n) => if lo <= ValueInt(n) <= hi then ValueInt(n) else was
      case JStr(s) => if HasHexPrefix(s) && Digits(s[2..], 16, 0).0 <= hi then Digits(s[2..], 16, 0).0 else was
      case _ => was
  }

  /** What any number is read as: it is limited to 31 bits, and then narrowed to 16. */
  lemma NumberReadAs(j: Json, k: Key, n: int, was: u32)
    ensures GetU32(j[k := JNum(n)], k, was)
         == if n < 0 then was else if n < 0x8000_0000 then n % 0x1_0000 else 0xFFFF
  {
  }

  /** A number that was written as a uint32_t is read back exactly when it is
      below 2^16; reading narrows once, and what it gives is stable. */
  lemma NumbersNarrow(j: Json, k: Key, n: u32, was: u32)
    ensures GetU32(j[k := JNum(n)], k, was) == n <==> n < 0x1_0000
    ensures var r := GetU32(j[k := JNum(n)], k, was); GetU32(j[k := JNum(r)], k, was) == r
  {
  }

  // ---------------------------------------------------------------- the union of credentials

  /** The memory of the union; user and password share it with the tokens. */
  type Memory = m: string | |m| == 256 witness seq(256, _ => 0 as char)

  function Zeroed(): (m: Memory)
    ensures forall i :: 0 <= i < 256 ==> m[i] == NUL
  {
    seq(256, _ => NUL)
  }

  const USER_CAP: nat := 51
  const TOKEN_CAP: nat := 256

  /** The C string at the beginning of a buffer. */
  function CString(buf: string): (s: string)
    ensures |s| <= |buf| && NUL !in s
  {
    if buf == [] || buf[0] == NUL then [] else [buf[0]] + CString(buf[1..])
  }

  function ReadC(m: Memory, at: nat, cap: nat): (s: string)
    requires at + cap <= 256
    ensures |s| <= cap && NUL !in s
  {
    CString(m[at..at + cap])
  }

  /** Writing a C string leaves the bytes behind its terminator as they are. */
  function WriteC(m: Memory, at: nat, cap: nat, s: string): Memory
    requires 0 < cap && at + cap <= 256
  {
    var t := Truncated(s, cap);
    m[..at] + t + [NUL] + m[at + |t| + 1..]
  }

  lemma {:induction false} CStringOf(s: string, rest: string)
    requires NUL !in s
    ensures CString(s + [NUL] + rest) == s
  {
    if s != [] {
      CStringOf(s[1..], rest);
      assert (s + [NUL] + rest)[1..] == s[1..] + [NUL] + rest;
    } else {
      assert (s + [NUL] + rest)[0] == NUL;
    }
  }

  lemma ReadWritten(m: Memory, at: nat, cap: nat, s: string)
    requires 0 < cap && at + cap <= 256 && CStr(s, cap)
    ensures ReadC(WriteC(m, at, cap, s), at, cap) == s
    ensures WriteC(m, at, cap, s)[..at] == m[..at]
  {
    var r := WriteC(m, at, cap, s);
    assert r[at..at + cap] == s + [NUL] + m[at + |s| + 1..at + cap];
    CStringOf(s, m[at + |s| + 1..at + cap]);
  }

  lemma ReadElsewhere(m: Memory, at: nat, cap: nat, s: string, below: nat)
    requires 0 < cap && at + cap <= 256 && CStr(s, cap) && below <= at
    ensures ReadC(WriteC(m, at, cap, s), 0, below) == ReadC(m, 0, below)
  {
    ReadWritten(m, at, cap, s);
    assert WriteC(m, at, cap, s)[0..below] == WriteC(m, at, cap, s)[..at][0..below];
    assert m[0..below] == m[..at][0..below];
  }

  function User(m: Memory): (s: string)
    ensures |s| <= USER_CAP && NUL !in s
  {
    ReadC(m, 0, USER_CAP)
  }

  function Password(m: Memory): (s: string)
    ensures |s| <= USER_CAP && NUL !in s
  {
    ReadC(m, USER_CAP, USER_CAP)
  }

  function Token(m: Memory): (s: string)
    ensures |s| <= TOKEN_CAP && NUL !in s
  {
    ReadC(m, 0, TOKEN_CAP)
  }

  function WithBasic(m: Memory, user: string, pass: string): Memory {
    WriteC(WriteC(m, 0, USER_CAP, user), USER_CAP, USER_CAP, pass)
  }

  function WithToken(m: Memory, token: string): Memory {
    WriteC(m, 0, TOKEN_CAP, token)
  }

  lemma BasicReadBack(m: Memory, user: string, pass: string)
    requires |user| <= 50 && |pass| <= 50 && NUL !in user && NUL !in pass
    ensures User(WithBasic(m, user, pass)) == user && Password(WithBasic(m, user, pass)) == pass
  {
    var m1 := WriteC(m, 0, USER_CAP, user);
    ReadWritten(m, 0, USER_CAP, user);
    ReadWritten(m1, USER_CAP, USER_CAP, pass);
    ReadElsewhere(m1, USER_CAP, USER_CAP, pass, USER_CAP);
  }

  lemma TokenReadBack(m: Memory, token: string)
    requires |token| <= 255 && NUL !in token
    ensures Token(WithToken(m, token)) == token
  {
    ReadWritten(m, 0, TOKEN_CAP, token);
  }
}
