/** Endpoint and CIDR text of src/netlink/NlAttr.cpp, and the interface-name check of
    src/helpers/IfName.cpp. */
module Address {
  import opened Core
  import opened WireGuard
  import opened Text
  import opened Inet

  /** The sockaddr an endpoint stands for; flow info and scope are zero throughout. */
  datatype SockAddr = In4(addr4: Addr4, port: u16) | In6(addr6: Addr6, port: u16)

  function ParsePort(s: string): Result<u16> {
    match Stoi(s)
    case Err(_) => Err(InvalidArgument)
    case Ok(n) =>
      if n.consumed != |s| || n.value < 0 || n.value > 65535 then Err(InvalidArgument) else Ok(n.value)
  }

  function ParseBracketed(endpoint: string): Result<SockAddr>
    requires endpoint != "" && endpoint[0] == '['
  {
    match Find(endpoint, ']')
    case None => Err(InvalidArgument)
    case Some(close) =>
      if close + 1 >= |endpoint| || endpoint[close + 1] != ':' then Err(InvalidArgument)
      else
        var port :- ParsePort(endpoint[close + 2..]);
        match Pton6(CStr(endpoint[1..close]))
        case None => Err(InvalidArgument)
        case Some(a) => Ok(In6(a, port))
  }

  function ParsePlain(endpoint: string): Result<SockAddr> {
    match RFind(endpoint, ':')
    case None => Err(InvalidArgument)
    case Some(sep) =>
      var port :- ParsePort(endpoint[sep + 1..]);
      match Pton4(CStr(endpoint[..sep]))
      case None => Err(InvalidArgument)
      case Some(a) => Ok(In4(a, port))
  }

  function ParseEndpoint(endpoint: string): Result<SockAddr> {
    if endpoint != "" && endpoint[0] == '[' then ParseBracketed(endpoint) else ParsePlain(endpoint)
  }

  function FormatEndpoint(sa: SockAddr): string {
    match sa
    case In4(a, port) => Ntop4(a) + ":" + Dec(port)
    case In6(a, port) => "[" + Ntop6(a) + "]:" + Dec(port)
  }

  function ParseMask(s: string): Result<int> {
    match Stoi(s)
    case Err(_) => Err(InvalidArgument)
    case Ok(n) => if n.consumed != |s| then Err(InvalidArgument) else Ok(n.value)
  }

  function ParseCIDR(cidr: string): Result<AllowedIP> {
    match Find(cidr, '/')
    case None => Err(InvalidArgument)
    case Some(slash) =>
      var ip := cidr[..slash];
      var mask :- ParseMask(cidr[slash + 1..]);
      if Pton6(CStr(ip)).Some? then
        if mask < 0 || mask > 128 then Err(InvalidArgument) else Ok(AllowedIP(ip, AF_INET6, mask))
      else if Pton4(CStr(ip)).None? then Err(InvalidArgument)
      else if mask < 0 || mask > 32 then Err(InvalidArgument)
      else Ok(AllowedIP(ip, AF_INET, mask))
  }

  function FormatCIDR(aip: AllowedIP): string {
    aip.ip + "/" + Dec(aip.cidr)
  }

  // ----- numbers -----

  lemma {:induction false} StoiDigits(s: string)
    requires s != "" && AllDigits(s) && DecVal(s) <= 0x7FFF_FFFF
    ensures Stoi(s) == Ok(Scanned(DecVal(s), |s|))
  {
    ScanDigits(s);
  }

  lemma {:induction false} PortRoundTrip(p: u16)
    ensures ParsePort(Dec(p)) == Ok(p)
  {
    StoiDigits(Dec(p));
  }

  /** The comment above `ParsePort` promises a strict decimal parser. That holds exactly for
      text whose first character is a digit: then the accepted texts are the digit strings up
      to 65535. Leading white space or a sign get through (see below). */
  lemma {:induction false} PortStrict(s: string, p: u16)
    ensures ParsePort(s) == Ok(p) && IsDigit(s[0]) <==> s != "" && AllDigits(s) && DecVal(s) == p
  {
    if ParsePort(s) == Ok(p) {
      if IsDigit(s[0]) {
        ScanWhole(s);
        ScanDigits(s);
      }
    }
    if s != "" && AllDigits(s) && DecVal(s) == p {
      StoiDigits(s);
    }
  }

  /** Against the comment, whose example is " 51820": a space in front of any port is let by. */
  lemma {:induction false} PortSkipsLeadingSpace(s: string)
    requires s != "" && AllDigits(s) && DecVal(s) <= 65535
    ensures ParsePort(" " + s) == Ok(DecVal(s))
  {
    var t := " " + s;
    assert forall i :: 1 <= i < |t| ==> t[i] == s[i - 1];
    assert t[1..] == s && t[1..|t|] == s;
    assert SkipSpaces(t, 0) == 1;
    assert DigitsEnd(t, 1) == |t|;
  }

  /** Any blanks, an optional sign, and digits that stand for p: a minus sign goes with zero only. */
  predicate IsPort(s: string, p: u16, blanks: string, sign: string, digits: string) {
    IsNumber(s, blanks, sign, digits) && DecVal(digits) == p && (sign == "-" ==> p == 0)
  }

  /** The whole language of `ParsePort`. */
  lemma {:induction false} PortLanguage(s: string, p: u16)
    ensures ParsePort(s) == Ok(p) <==> exists blanks, sign, digits :: IsPort(s, p, blanks, sign, digits)
  {
    hide ScanNumber;
    if ParsePort(s) == Ok(p) {
      var blanks, sign, digits := WholeScanIsNumber(s);
      PortOfParts(s, blanks, sign, digits);
      assert IsPort(s, p, blanks, sign, digits);
    }
    if blanks, sign, digits :| IsPort(s, p, blanks, sign, digits) {
      PortOfParts(s, blanks, sign, digits);
    }
  }

  lemma {:induction false} PortOfParts(s: string, blanks: string, sign: string, digits: string)
    requires IsNumber(s, blanks, sign, digits)
    ensures AllDigits(digits)
    ensures ParsePort(s) == if DecVal(digits) <= 65535 && (sign == "-" ==> DecVal(digits) == 0) then Ok(DecVal(digits))
                            else Err(InvalidArgument)
  {
    hide ScanNumber;
    ScanNumberText(s, blanks, sign, digits);
  }

  // ----- endpoints -----

  lemma {:induction false} PlainParts(host: string, p: string, a: Addr4, port: u16)
    requires ':' !in p && ParsePort(p) == Ok(port) && Pton4(CStr(host)) == Some(a)
    ensures ParsePlain(host + ":" + p) == Ok(In4(a, port))
  {
    hide ParsePort, Pton4, CStr, RFind;
    var e := host + ":" + p;
    assert e == host + [':'] + p;
    RFindSplit(host, ':', p);
    assert e[..|host|] == host && e[|host| + 1..] == p;
  }

  lemma {:induction false} BracketedParts(host: string, p: string, a: Addr6, port: u16)
    requires ']' !in host && ParsePort(p) == Ok(port) && Pton6(CStr(host)) == Some(a)
    ensures ParseBracketed("[" + host + "]:" + p) == Ok(In6(a, port))
  {
    hide ParsePort, Pton6, CStr, Find;
    var e := "[" + host + "]:" + p;
    assert e == ("[" + host) + [']'] + (":" + p);
    FindSplit("[" + host, ']', ":" + p);
    assert e[1..|host| + 1] == host && e[|host| + 3..] == p;
  }

  lemma {:induction false} PortSkipsLineFeed()
    ensures ParsePort("\n80") == Ok(80)
  {
    var s := "\n80";
    assert SkipSpaces(s, 0) == 1;
    assert DigitsEnd(s, 1) == 3;
    assert s[1..3] == "80";
    assert "80" == Dec(80) by {
      assert Dec(80) == Dec(8) + "0" && Dec(8) == "8";
    }
  }

  /** An endpoint with a line feed in it passes validation. */
  lemma {:induction false} LineFeedEndpoint()
    ensures ParseEndpoint("1.2.3.4:\n80") == Ok(In4([1, 2, 3, 4], 80))
  {
    hide ParsePort, ParsePlain, ParseBracketed, Ntop4, Pton4, CStr;
    PortSkipsLineFeed();
    DottedOneToFour();
    Pton4Ntop4([1, 2, 3, 4]);
    Ntop4Text([1, 2, 3, 4]);
    HostText();
    PlainParts("1.2.3.4", "\n80", [1, 2, 3, 4], 80);
    Spelling();
  }

  lemma {:induction false} HostText()
    ensures CStr("1.2.3.4") == "1.2.3.4" && ':' !in "\n80"
  {
  }

  lemma {:induction false} Spelling()
    ensures "1.2.3.4" + ":" + "\n80" == "1.2.3.4:\n80" && "1.2.3.4:\n80"[0] != '['
  {
  }

  lemma {:induction false} DottedOneToFour()
    ensures Ntop4([1, 2, 3, 4]) == "1.2.3.4"
  {
    assert Dec(1) == "1" && Dec(2) == "2" && Dec(3) == "3" && Dec(4) == "4";
  }

  lemma {:induction false} Endpoint4RoundTrip(a: Addr4, port: u16)
    ensures ParseEndpoint(FormatEndpoint(In4(a, port))) == Ok(In4(a, port))
  {
    hide ParsePlain, ParseBracketed, ParsePort, Pton4, Dec;
    Ntop4Text(a);
    Pton4Ntop4(a);
    PortRoundTrip(port);
    PlainParts(Ntop4(a), Dec(port), a, port);
    assert IsDigit(Ntop4(a)[0]);
  }

  lemma {:induction false} Endpoint6RoundTrip(a: Addr6, port: u16)
    ensures ParseEndpoint(FormatEndpoint(In6(a, port))) == Ok(In6(a, port))
  {
    Ntop6Text(a);
    Pton6Ntop6(a);
    PortRoundTrip(port);
    BracketedParts(Ntop6(a), Dec(port), a, port);
  }

  /** Reading a printed endpoint gives it back: every IPv4 address, every IPv6 address with
      zero flow info and scope, every port. */
  lemma {:induction false} EndpointRoundTrip(sa: SockAddr)
    ensures ParseEndpoint(FormatEndpoint(sa)) == Ok(sa)
  {
    match sa
    case In4(a, port) => Endpoint4RoundTrip(a, port);
    case In6(a, port) => Endpoint6RoundTrip(a, port);
  }

  /** The parts of an endpoint text: "[", a host without ']' that parses as IPv6, "]:" and a port,
      or a host that does not start with '[' and parses as IPv4, ':' and a port without ':'. */
  predicate IsEndpointText(t: string, sa: SockAddr, host: string, port: string, blanks: string, sign: string, digits: string) {
    && IsPort(port, sa.port, blanks, sign, digits)
    && match sa
       case In6(a, _) => t == "[" + host + "]:" + port && ']' !in host && Pton6(CStr(host)) == Some(a)
       case In4(a, _) => t == host + ":" + port && t[0] != '[' && ':' !in port && Pton4(CStr(host)) == Some(a)
  }

  lemma {:induction false} PortParses(s: string, p: u16, blanks: string, sign: string, digits: string)
    requires IsPort(s, p, blanks, sign, digits)
    ensures ParsePort(s) == Ok(p)
  {
    PortOfParts(s, blanks, sign, digits);
  }

  lemma {:induction false} EndpointTextParses(t: string, sa: SockAddr, host: string, port: string, blanks: string, sign: string, digits: string)
    requires IsEndpointText(t, sa, host, port, blanks, sign, digits)
    ensures ParseEndpoint(t) == Ok(sa)
  {
    hide ParsePort, ParsePlain, ParseBracketed, Pton4, Pton6, CStr, IsPort;
    PortParses(port, sa.port, blanks, sign, digits);
    match sa
    case In6(a, p) => BracketedParts(host, port, a, p);
    case In4(a, p) => PlainParts(host, port, a, p);
  }

  lemma {:induction false} PortIsText(s: string, p: u16) returns (blanks: string, sign: string, digits: string)
    requires ParsePort(s) == Ok(p)
    ensures IsPort(s, p, blanks, sign, digits)
  {
    hide ScanNumber;
    blanks, sign, digits := WholeScanIsNumber(s);
    PortOfParts(s, blanks, sign, digits);
  }

  lemma {:induction false} ParsedEndpointIsText(t: string, sa: SockAddr)
    returns (host: string, port: string, blanks: string, sign: string, digits: string)
    requires ParseEndpoint(t) == Ok(sa)
    ensures IsEndpointText(t, sa, host, port, blanks, sign, digits)
  {
    hide ParsePort, Pton4, Pton6, CStr, IsPort;
    if t != "" && t[0] == '[' {
      var close := Find(t, ']').value;
      host, port := t[1..close], t[close + 2..];
      assert t == "[" + host + "]:" + port;
      assert forall k :: 0 <= k < |host| ==> host[k] == t[..close][k + 1];
    } else {
      var sep := RFind(t, ':').value;
      host, port := t[..sep], t[sep + 1..];
      assert t == host + ":" + port;
    }
    blanks, sign, digits := PortIsText(port, sa.port);
  }

  /** The whole language of `ParseEndpoint`. */
  lemma {:induction false} EndpointLanguage(t: string, sa: SockAddr)
    ensures ParseEndpoint(t) == Ok(sa)
       <==> exists host, port, blanks, sign, digits :: IsEndpointText(t, sa, host, port, blanks, sign, digits)
  {
    hide ParseEndpoint, IsEndpointText;
    if ParseEndpoint(t) == Ok(sa) {
      var host, port, blanks, sign, digits := ParsedEndpointIsText(t, sa);
    }
    if host, port, blanks, sign, digits :| IsEndpointText(t, sa, host, port, blanks, sign, digits) {
      EndpointTextParses(t, sa, host, port, blanks, sign, digits);
    }
  }

  // ----- CIDR -----

  predicate KnownFamily(aip: AllowedIP) {
    aip.family == AF_INET || aip.family == AF_INET6
  }

  /** The values `ParseCIDR` can return (see CidrValues). */
  predicate IsCidr(a: AllowedIP) {
    && '/' !in a.ip
    && (if Pton6(CStr(a.ip)).Some? then a.family == AF_INET6 && a.cidr <= 128
        else Pton4(CStr(a.ip)).Some? && a.family == AF_INET && a.cidr <= 32)
  }

  lemma {:induction false} CidrParts(a: AllowedIP)
    requires '/' !in a.ip
    ensures var t := FormatCIDR(a);
            && Find(t, '/') == Some(|a.ip|) && t[..|a.ip|] == a.ip
            && ParseMask(t[|a.ip| + 1..]) == Ok(a.cidr)
  {
    var s, m := a.ip, Dec(a.cidr);
    var t := FormatCIDR(a);
    assert t == s + ['/'] + m;
    FindSplit(s, '/', m);
    assert t[..|s|] == s && t[|s| + 1..] == m;
    StoiDigits(m);
  }

  /** Reading what `FormatCIDR` prints gives the value back exactly for the values some text
      parses to. */
  lemma {:induction false} CidrRoundTrip(a: AllowedIP)
    ensures ParseCIDR(FormatCIDR(a)) == Ok(a) <==> IsCidr(a)
  {
    hide Pton4, Pton6, FormatCIDR, ParseMask, CStr, Find;
    if '/' !in a.ip {
      CidrParts(a);
    }
  }

  /** Every parsed value is one of those. */
  lemma {:induction false} CidrValues(t: string)
    requires ParseCIDR(t).Ok?
    ensures IsCidr(ParseCIDR(t).value)
  {
  }

  /** The parts of a CIDR text: an address without '/', and a mask of any blanks, an optional sign and
      digits, a minus sign with zero only. An address that parses as IPv6 has family 10 and a mask
      up to 128; any other must parse as IPv4, with family 2 and a mask up to 32. */
  predicate IsCidrText(t: string, a: AllowedIP, mask: string, blanks: string, sign: string, digits: string) {
    && t == a.ip + "/" + mask && '/' !in a.ip
    && IsNumber(mask, blanks, sign, digits) && DecVal(digits) == a.cidr && (sign == "-" ==> a.cidr == 0)
    && (if Pton6(CStr(a.ip)).Some? then a.family == 10 && a.cidr <= 128
        else Pton4(CStr(a.ip)).Some? && a.family == 2 && a.cidr <= 32)
  }

  lemma {:induction false} MaskOfParts(s: string, blanks: string, sign: string, digits: string)
    requires IsNumber(s, blanks, sign, digits)
    ensures AllDigits(digits)
    ensures ParseMask(s) == (
      var v: int := if sign == "-" then 0 - DecVal(digits) else DecVal(digits);
      if -0x8000_0000 <= v <= 0x7FFF_FFFF then Ok(v) else Err(InvalidArgument))
  {
    hide ScanNumber;
    ScanNumberText(s, blanks, sign, digits);
  }

  lemma {:induction false} CidrTextParses(t: string, a: AllowedIP, mask: string, blanks: string, sign: string, digits: string)
    requires IsCidrText(t, a, mask, blanks, sign, digits)
    ensures ParseCIDR(t) == Ok(a)
  {
    hide Pton4, Pton6, CStr, ParseMask, IsNumber, Find;
    MaskOfParts(mask, blanks, sign, digits);
    assert t == a.ip + ['/'] + mask;
    FindSplit(a.ip, '/', mask);
    assert t[..|a.ip|] == a.ip && t[|a.ip| + 1..] == mask;
  }

  lemma {:induction false} ParsedCidrIsText(t: string, a: AllowedIP) returns (mask: string, blanks: string, sign: string, digits: string)
    requires ParseCIDR(t) == Ok(a)
    ensures IsCidrText(t, a, mask, blanks, sign, digits)
  {
    hide Pton4, Pton6, CStr, ScanNumber, IsNumber;
    var slash := Find(t, '/').value;
    mask := t[slash + 1..];
    assert t == t[..slash] + [t[slash]] + mask;
    blanks, sign, digits := WholeScanIsNumber(mask);
    MaskOfParts(mask, blanks, sign, digits);
  }

  /** The whole language of `ParseCIDR`. */
  lemma {:induction false} CidrLanguage(t: string, a: AllowedIP)
    ensures ParseCIDR(t) == Ok(a)
       <==> exists mask, blanks, sign, digits :: IsCidrText(t, a, mask, blanks, sign, digits)
  {
    hide ParseCIDR, IsCidrText;
    if ParseCIDR(t) == Ok(a) {
      var mask, blanks, sign, digits := ParsedCidrIsText(t, a);
    }
    if mask, blanks, sign, digits :| IsCidrText(t, a, mask, blanks, sign, digits) {
      CidrTextParses(t, a, mask, blanks, sign, digits);
    }
  }

  /** Whatever is refused, it is with `std::invalid_argument`. */
  lemma {:induction false} Refusals(s: string)
    ensures ParsePort(s).Err? ==> ParsePort(s).error == InvalidArgument
    ensures ParseEndpoint(s).Err? ==> ParseEndpoint(s).error == InvalidArgument
    ensures ParseCIDR(s).Err? ==> ParseCIDR(s).error == InvalidArgument
  {
    hide Stoi, Pton4, Pton6, CStr, ParsePort, ParseMask;
    PortRefusals(s);
    if ParseEndpoint(s).Err? {
      EndpointRefusals(s);
    }
    if Find(s, '/').Some? {
      PortRefusals(s[Find(s, '/').value + 1..]);
    }
  }

  lemma {:induction false} PortRefusals(s: string)
    ensures ParsePort(s).Err? ==> ParsePort(s).error == InvalidArgument
    ensures ParseMask(s).Err? ==> ParseMask(s).error == InvalidArgument
  {
    hide Stoi;
  }

  lemma {:induction false} EndpointRefusals(s: string)
    requires ParseEndpoint(s).Err?
    ensures ParseEndpoint(s).error == InvalidArgument
  {
    hide ParsePort, Pton4, Pton6, CStr;
    if s != "" && s[0] == '[' {
      if Find(s, ']').Some? && Find(s, ']').value + 2 <= |s| {
        PortRefusals(s[Find(s, ']').value + 2..]);
      }
    } else if RFind(s, ':').Some? {
      PortRefusals(s[RFind(s, ':').value + 1..]);
    }
  }

  // ----- endpoints of a configuration -----

  predicate EndpointOk(p: PeerConfig) {
    p.endpoint.Some? ==> ParseEndpoint(p.endpoint.value).Ok?
  }

  predicate EndpointsOk(peers: seq<PeerConfig>) {
    peers == [] || (EndpointOk(peers[0]) && EndpointsOk(peers[1..]))
  }

  /** A configuration builds only if every endpoint it gives parses, whichever peer gives it. */
  lemma {:induction false} WhichEndpointsBuild(peers: seq<PeerConfig>)
    ensures EndpointsOk(peers)
       <==> forall i :: 0 <= i < |peers| && peers[i].endpoint.Some? ==> ParseEndpoint(peers[i].endpoint.value).Ok?
    decreases |peers|
  {
    hide ParseEndpoint;
    if peers != [] {
      WhichEndpointsBuild(peers[1..]);
      assert forall i :: 1 <= i < |peers| ==> peers[i] == peers[1..][i - 1];
    }
  }

  // ----- interface names -----

  const IFNAMSIZ: nat := 16

  /** `helpers::ValidateIfName` returning normally. */
  predicate IsIfName(name: string) {
    && name != "" && name != "." && name != ".."
    && |name| <= IFNAMSIZ - 1
    && forall i :: 0 <= i < |name| ==> name[i] != '\0' && name[i] != '/' && name[i] > ' '
  }

  /** Which names are refused, on their characters. */
  lemma {:induction false} RefusedNames(name: string)
    ensures !IsIfName(name)
       <==> |name| == 0 || |name| > 15 || name == "." || name == ".."
            || exists i :: 0 <= i < |name| && (name[i] == '/' || name[i] as int <= 32)
  {
    assert '\0' as int == 0 && ' ' as int == 32;
  }

  /** Text whose characters are single bytes, as those of a `std::string` are. */
  predicate IsByteText(s: string) {
    forall i :: 0 <= i < |s| ==> s[i] < 256 as char
  }

  function TextBytes(s: string): (b: seq<byte>)
    requires IsByteText(s)
    ensures |b| == |s|
    ensures forall i :: 0 <= i < |s| ==> b[i] == s[i] as int
  {
    seq(|s|, i requires 0 <= i < |s| => s[i] as int)
  }

  /** Bytes up to the first NUL, as text. */
  function BytesText(b: seq<byte>): (s: string)
  {
    if b == [] || b[0] == 0 then "" else [b[0] as char] + BytesText(b[1..])
  }

  /** A valid name survives being stored with a terminating NUL and read as a C string. */
  lemma {:induction false} NameBytes(name: string, rest: seq<byte>)
    requires IsByteText(name) && forall i :: 0 <= i < |name| ==> name[i] != '\0'
    ensures BytesText(TextBytes(name) + [0] + rest) == name
  {
    if name != "" {
      var b := TextBytes(name) + [0] + rest;
      NameBytes(name[1..], rest);
      assert b[1..] == TextBytes(name[1..]) + [0] + rest;
      assert name == [name[0]] + name[1..];
    }
  }
}
