/** The cross-platform userspace protocol codec (src/uapi/UapiCodec.cpp). */
module Uapi {
  import opened Core
  import opened WireGuard
  import opened Text
  import opened KeyText
  import opened Address

  // ----- numbers -----

  function ParseUnsignedInRange(value: string, max: nat): Result<nat> {
    match Stoul(value)
    case Err(_) => Err(InvalidArgument)
    case Ok(n) => if n.consumed != |value| || n.value > max then Err(InvalidArgument) else Ok(n.value)
  }

  lemma {:induction false} StoulDigits(s: string)
    requires s != "" && AllDigits(s) && DecVal(s) < 0x1_0000_0000_0000_0000
    ensures Stoul(s) == Ok(Scanned(DecVal(s), |s|))
  {
    ScanDigits(s);
  }

  /** The "strict unsigned decimal parser" is strict exactly on text that starts with a digit:
      there it accepts the digit strings up to `max` and nothing else. */
  lemma {:induction false} UnsignedStrict(s: string, max: nat, n: nat)
    requires max < 0x1_0000_0000_0000_0000
    ensures ParseUnsignedInRange(s, max) == Ok(n) && IsDigit(s[0])
       <==> s != "" && AllDigits(s) && DecVal(s) == n && n <= max
  {
    if ParseUnsignedInRange(s, max) == Ok(n) && IsDigit(s[0]) {
      ScanWhole(s);
      ScanDigits(s);
    }
    if s != "" && AllDigits(s) && DecVal(s) == n && n <= max {
      StoulDigits(s);
    }
  }

  lemma {:induction false} UnsignedRefusals(s: string, max: nat)
    requires ParseUnsignedInRange(s, max).Err?
    ensures ParseUnsignedInRange(s, max).error == InvalidArgument
  {
    hide Stoul;
  }

  lemma {:induction false} ScanNegative(d: string)
    requires d != "" && AllDigits(d)
    ensures ScanNumber("-" + d) == Some(Number(true, DecVal(d), |d| + 1))
  {
    var s := "-" + d;
    assert SkipSpaces(s, 0) == 0;
    assert forall k :: 1 <= k < |s| ==> s[k] == d[k - 1];
    assert DigitsEnd(s, 1) == |s|;
    assert s[1..|s|] == d;
  }

  /** A negative number is accepted when its negation wraps into range modulo 2^64. */
  lemma {:induction false} UnsignedAcceptsNegative(n: u64, max: nat)
    requires n > 0
    ensures ParseUnsignedInRange("-" + Dec(n), max)
         == if 0x1_0000_0000_0000_0000 - n <= max then Ok(0x1_0000_0000_0000_0000 - n) else Err(InvalidArgument)
  {
    ScanNegative(Dec(n));
  }

  const TWO64: nat := 0x1_0000_0000_0000_0000

  /** What a number text stands for: a minus sign negates modulo 2^64. */
  function NumberOf(sign: string, digits: string): (n: nat)
    requires AllDigits(digits) && DecVal(digits) < TWO64
  {
    if sign == "-" then (TWO64 - DecVal(digits)) % TWO64 else DecVal(digits)
  }

  /** Any blanks, an optional sign, and digits of a value below 2^64, the number within the bound. */
  predicate IsUnsigned(s: string, max: nat, n: nat, blanks: string, sign: string, digits: string) {
    IsNumber(s, blanks, sign, digits) && DecVal(digits) < TWO64 && NumberOf(sign, digits) == n && n <= max
  }

  /** The whole language of the parser. */
  lemma {:induction false} UnsignedLanguage(s: string, max: nat, n: nat)
    ensures ParseUnsignedInRange(s, max) == Ok(n)
       <==> exists blanks, sign, digits :: IsUnsigned(s, max, n, blanks, sign, digits)
  {
    hide ScanNumber, NumberOf;
    if ParseUnsignedInRange(s, max) == Ok(n) {
      var blanks, sign, digits := WholeScanIsNumber(s);
      UnsignedOfParts(s, blanks, sign, digits, max);
      assert IsUnsigned(s, max, n, blanks, sign, digits);
    }
    if blanks, sign, digits :| IsUnsigned(s, max, n, blanks, sign, digits) {
      UnsignedOfParts(s, blanks, sign, digits, max);
    }
  }

  lemma {:induction false} UnsignedOfParts(s: string, blanks: string, sign: string, digits: string, max: nat)
    requires IsNumber(s, blanks, sign, digits)
    ensures AllDigits(digits)
    ensures ParseUnsignedInRange(s, max)
         == if DecVal(digits) < TWO64 && NumberOf(sign, digits) <= max then Ok(NumberOf(sign, digits)) else Err(InvalidArgument)
  {
    hide ScanNumber;
    ScanNumberText(s, blanks, sign, digits);
  }

  // ----- field names -----

  datatype Name =
    | Errno | PublicKeyName | PresharedKeyName | EndpointName | HandshakeName | RxName | TxName
    | KeepaliveName | AllowedIpName | ProtocolName | PrivateKeyName | ListenPortName | FwmarkName | OtherName

  function NameOf(key: string): Name {
    if key == "errno" then Errno
    else if key == "public_key" then PublicKeyName
    else if key == "preshared_key" then PresharedKeyName
    else if key == "endpoint" then EndpointName
    else if key == "last_handshake_time_sec" then HandshakeName
    else if key == "rx_bytes" then RxName
    else if key == "tx_bytes" then TxName
    else if key == "persistent_keepalive_interval" then KeepaliveName
    else if key == "allowed_ip" then AllowedIpName
    else if key == "protocol_version" then ProtocolName
    else if key == "private_key" then PrivateKeyName
    else if key == "listen_port" then ListenPortName
    else if key == "fwmark" then FwmarkName
    else OtherName
  }

  // ----- reading a GET response, line by line -----

  /** What one line of a peer section does to the peer. */
  datatype PeerUpdate =
    | SetPresharedKey(key: Key) | SetEndpoint(text: string) | SetHandshake(time: i64) | SetRx(rx: u64) | SetTx(tx: u64)
    | SetKeepalive(seconds: u16) | AddAllowedIP(aip: AllowedIP) | SetProtocol(version: u32) | LeavePeer

  /** What one line before the first peer section does to the device. */
  datatype DeviceUpdate = SetPrivateKey(key: Key) | SetListenPort(port: u16) | SetFwmark(mark: u32) | LeaveDevice

  function ReadPeerField(name: Name, value: string): Result<PeerUpdate> {
    match name
    case PresharedKeyName => var k :- HexKey(value); Ok(SetPresharedKey(k))
    case EndpointName => Ok(SetEndpoint(value))
    case HandshakeName => var n :- Stoll(value); Ok(SetHandshake(n.value))
    case RxName => var n :- Stoul(value); Ok(SetRx(n.value))
    case TxName => var n :- Stoul(value); Ok(SetTx(n.value))
    case KeepaliveName => var n :- ParseUnsignedInRange(value, 65535); Ok(SetKeepalive(n))
    case AllowedIpName => var a :- ParseCIDR(value); Ok(AddAllowedIP(a))
    case ProtocolName => var n :- ParseUnsignedInRange(value, 0xFFFF_FFFF); Ok(SetProtocol(n))
    case _ => Ok(LeavePeer)
  }

  function ReadDeviceField(name: Name, value: string): Result<DeviceUpdate> {
    match name
    case PrivateKeyName => var k :- HexKey(value); Ok(SetPrivateKey(k))
    case ListenPortName => var n :- ParseUnsignedInRange(value, 65535); Ok(SetListenPort(n))
    case FwmarkName => var n :- ParseUnsignedInRange(value, 0xFFFF_FFFF); Ok(SetFwmark(n))
    case _ => Ok(LeaveDevice)
  }

  function UpdatePeer(p: Peer, u: PeerUpdate): Peer {
    match u
    case SetPresharedKey(k) => p.(presharedKey := Some(k))
    case SetEndpoint(t) => p.(endpoint := Some(t))
    case SetHandshake(t) => p.(lastHandshakeTimeSec := t)
    case SetRx(n) => p.(receiveBytes := n)
    case SetTx(n) => p.(transmitBytes := n)
    case SetKeepalive(n) => p.(persistentKeepaliveInterval := n)
    case AddAllowedIP(a) => p.(allowedIPs := p.allowedIPs + [a])
    case SetProtocol(n) => p.(protocolVersion := n)
    case LeavePeer => p
  }

  function UpdateDevice(d: Device, u: DeviceUpdate): Device {
    match u
    case SetPrivateKey(k) => d.(privateKey := Some(k))
    case SetListenPort(n) => d.(listenPort := n)
    case SetFwmark(n) => d.(firewallMark := n)
    case LeaveDevice => d
  }

  /** A device whose current peer is q. */
  function On(d: Device, q: Peer): Device {
    d.(peers := d.peers + [q])
  }

  datatype Field = Field(key: string, value: string)

  /** The field a line holds; None for an empty line and for one without '='. */
  function FieldOf(line: string): Option<Field> {
    match Find(line, '=')
    case None => None
    case Some(eq) => Some(Field(line[..eq], line[eq + 1..]))
  }

  /** `errno=`: zero is fine, anything else ends the parse. */
  function CheckErrno(value: string): Result<()> {
    var n :- Stoi(value);
    if n.value != 0 then Err(SystemError(n.value)) else Ok(())
  }

  /** The number in an errno value: blanks, a sign and digits, then anything that is no digit. */
  predicate IsErrno(value: string, n: int, number: string, rest: string, blanks: string, sign: string, digits: string) {
    && value == number + rest && (rest == "" || !IsDigit(rest[0]))
    && IsNumber(number, blanks, sign, digits)
    && n == (if sign == "-" then 0 - DecVal(digits) else DecVal(digits)) && -0x8000_0000 <= n <= 0x7FFF_FFFF
  }

  lemma {:induction false} ErrnoRaises(value: string, n: int, number: string, rest: string, blanks: string, sign: string, digits: string)
    requires IsErrno(value, n, number, rest, blanks, sign, digits)
    ensures CheckErrno(value) == if n == 0 then Ok(()) else Err(SystemError(n))
  {
    hide ScanNumber, IsNumber;
    assert AllDigits(digits) by {
      assert IsNumber(number, blanks, sign, digits);
      NumberPieces(value, number, rest, blanks, sign, digits);
    }
    ScanNumberPrefix(value, number, rest, blanks, sign, digits);
  }

  /** A number outside an `int` raises `std::out_of_range`, a value that does not begin with a number
      `std::invalid_argument`. */
  lemma {:induction false} ErrnoTooLarge(value: string, number: string, rest: string, blanks: string, sign: string, digits: string)
    requires value == number + rest && (rest == "" || !IsDigit(rest[0])) && IsNumber(number, blanks, sign, digits)
    requires DecVal(digits) > 0x8000_0000
    ensures CheckErrno(value) == Err(OutOfRange)
  {
    hide IsNumber, DecVal, ScanNumber;
    ScanNumberPrefix(value, number, rest, blanks, sign, digits);
  }

  lemma {:induction false} ErrnoNoNumber(value: string)
    requires value == "" || (value[0] > ' ' && value[0] != '+' && value[0] != '-' && !IsDigit(value[0]))
    ensures CheckErrno(value) == Err(InvalidArgument)
  {
  }

  function ReplaceLast(peers: seq<Peer>, p: Peer): seq<Peer>
    requires peers != []
  {
    peers[..|peers| - 1] + [p]
  }

  /** One line with the current-peer cursor, which is always the last peer. */
  function ApplyField(d: Device, f: Field): Result<Device> {
    var name := NameOf(f.key);
    if name == Errno then var _ :- CheckErrno(f.value); Ok(d)
    else if name == PublicKeyName then
      var k :- HexKey(f.value);
      Ok(d.(peers := d.peers + [BlankPeer(k)]))
    else if d.peers != [] then
      var u :- ReadPeerField(name, f.value);
      Ok(d.(peers := ReplaceLast(d.peers, UpdatePeer(d.peers[|d.peers| - 1], u))))
    else
      var u :- ReadDeviceField(name, f.value);
      Ok(UpdateDevice(d, u))
  }

  function ApplyLine(d: Device, line: string): Result<Device> {
    match FieldOf(line)
    case None => Ok(d)
    case Some(f) => ApplyField(d, f)
  }

  function ApplyLines(d: Device, lines: seq<string>): Result<Device>
    decreases |lines|
  {
    if lines == [] then Ok(d)
    else
      var d' :- ApplyLine(d, lines[0]);
      ApplyLines(d', lines[1..])
  }

  /** The lines `std::getline` yields. */
  function Lines(text: string): (lines: seq<string>)
    ensures forall i :: 0 <= i < |lines| ==> '\n' !in lines[i]
    decreases |text|
  {
    if text == "" then []
    else
      match Find(text, '\n')
      case None => [text]
      case Some(i) => [text[..i]] + Lines(text[i + 1..])
  }

  function WithPublicKey(d: Device, derive: Key -> Key): Device {
    if d.privateKey.Some? && !IsZeroKey(d.privateKey.value) then d.(publicKey := Some(derive(d.privateKey.value))) else d
  }

  /** `ParseGetResponse`; `derive` stands for the X25519 public-key derivation. */
  function GetResponse(name: string, response: string, derive: Key -> Key): Result<Device> {
    var d :- ApplyLines(BlankDevice(name, true), Lines(response));
    Ok(WithPublicKey(d, derive))
  }

  /** The public key goes with the private key: derived from it if some byte of it is not zero, and
      left out otherwise. */
  ghost predicate GoesWithPrivateKey(d: Device, derive: Key -> Key) {
    match d.privateKey
    case None => d.publicKey == None
    case Some(k) => d.publicKey == if exists i :: 0 <= i < 32 && k[i] != 0 then Some(derive(k)) else None
  }

  lemma {:induction false} LinesLeave(d: Device, lines: seq<string>)
    requires ApplyLines(d, lines).Ok?
    ensures var e := ApplyLines(d, lines).value; e.publicKey == d.publicKey && e.name == d.name && e.userspace == d.userspace
    decreases |lines|
  {
    hide ApplyLine;
    if lines != [] {
      LineLeaves(d, lines[0]);
      LinesLeave(ApplyLine(d, lines[0]).value, lines[1..]);
    }
  }

  lemma {:induction false} LineLeaves(d: Device, line: string)
    requires ApplyLine(d, line).Ok?
    ensures var e := ApplyLine(d, line).value; e.publicKey == d.publicKey && e.name == d.name && e.userspace == d.userspace
  {
    hide NameOf, FieldOf, HexKey, ReadPeerField, ReadDeviceField, CheckErrno, UpdatePeer;
  }

  /** The public key of every response that parses. */
  lemma {:induction false} PublicKeyDerived(name: string, response: string, derive: Key -> Key)
    requires GetResponse(name, response, derive).Ok?
    ensures var d := GetResponse(name, response, derive).value;
      GoesWithPrivateKey(d, derive) && d.name == name && d.userspace
  {
    hide ApplyLines, Lines;
    LinesLeave(BlankDevice(name, true), Lines(response));
  }

  /** One pass of the parser's loop body: the device is updated in place, the cursor is the
      index of the current peer. */
  method ReadLine(line: string, device0: Device, currentPeer0: int) returns (device: Device, currentPeer: int, error: Option<Error>)
    requires currentPeer0 == |device0.peers| - 1
    ensures currentPeer == |device.peers| - 1
    ensures match ApplyLine(device0, line)
            case Ok(d) => error == None && device == d
            case Err(e) => error == Some(e)
  {
    hide NameOf, ReadPeerField, ReadDeviceField;
    device, currentPeer, error := device0, currentPeer0, None;
    if line == "" {
      return;
    }
    var eq := Find(line, '=');
    if eq.None? {
      return;
    }
    var name := NameOf(line[..eq.value]);
    var value := line[eq.value + 1..];
    if name == Errno {
      var code := Stoi(value);
      if code.Err? {
        error := Some(code.error);
      } else if code.value.value != 0 {
        error := Some(SystemError(code.value.value));
      }
      return;
    }
    if name == PublicKeyName {
      var key := KeyFromHex(value);
      if key.Err? {
        error := Some(key.error);
        return;
      }
      device := device.(peers := device.peers + [BlankPeer(key.value)]);
      currentPeer := |device.peers| - 1;
      return;
    }
    if currentPeer >= 0 {
      var u := ReadPeerField(name, value);
      if u.Err? {
        error := Some(u.error);
        return;
      }
      device := device.(peers := device.peers[currentPeer := UpdatePeer(device.peers[currentPeer], u.value)]);
      assert device.peers == ReplaceLast(device0.peers, UpdatePeer(device0.peers[currentPeer], u.value));
      return;
    }
    var u := ReadDeviceField(name, value);
    if u.Err? {
      error := Some(u.error);
      return;
    }
    device := UpdateDevice(device, u.value);
  }

  method ParseGetResponse(name: string, response: string, derive: Key -> Key) returns (r: Result<Device>)
    ensures r == GetResponse(name, response, derive)
    ensures r.Ok? ==> GoesWithPrivateKey(r.value, derive) && r.value.name == name && r.value.userspace
  {
    hide ApplyLine, IsZeroKey, GoesWithPrivateKey;
    var device := BlankDevice(name, true);
    var currentPeer := -1;
    var rest := response;
    while rest != ""
      invariant currentPeer == |device.peers| - 1
      invariant ApplyLines(device, Lines(rest)) == ApplyLines(BlankDevice(name, true), Lines(response))
      decreases |rest|
    {
      var end := Find(rest, '\n');
      var line := if end.Some? then rest[..end.value] else rest;
      var next := if end.Some? then rest[end.value + 1..] else "";
      assert Lines(rest) == [line] + Lines(next);
      var error;
      device, currentPeer, error := ReadLine(line, device, currentPeer);
      if error.Some? {
        return Err(error.value);
      }
      rest := next;
    }
    if device.privateKey.Some? && !IsZeroKey(device.privateKey.value) {
      device := device.(publicKey := Some(derive(device.privateKey.value)));
    }
    r := Ok(device);
    PublicKeyDerived(name, response, derive);
  }

  /** The error a line of a SET response raises, if any. */
  function Complaint(line: string): Option<Error> {
    match FieldOf(line)
    case Some(f) =>
      if f.key == "errno" && CheckErrno(f.value).Err? then Some(CheckErrno(f.value).error) else None
    case None => None
  }

  /** A line "errno=" with a number that is not zero complains with that number; zero does not, nor
      does any line without '=' or with another key. */
  lemma {:induction false} ErrnoComplains(line: string, value: string, n: int,
      number: string, rest: string, blanks: string, sign: string, digits: string)
    requires line == "errno=" + value && IsErrno(value, n, number, rest, blanks, sign, digits)
    ensures Complaint(line) == if n == 0 then None else Some(SystemError(n))
  {
    hide CheckErrno, IsErrno, Find;
    ErrnoField(value);
    ErrnoRaises(value, n, number, rest, blanks, sign, digits);
  }

  lemma {:induction false} ErrnoField(value: string)
    ensures FieldOf("errno=" + value) == Some(Field("errno", value))
  {
    var line := "errno=" + value;
    assert line == "errno" + ['='] + value;
    FindSplit("errno", '=', value);
    assert line[..5] == "errno" && line[6..] == value;
  }

  lemma {:induction false} OtherLinesPass(line: string)
    requires '=' !in line || !("errno=" <= line)
    ensures Complaint(line) == None
  {
  }

  /** A GET response ends with the number of the first errno line that is not zero, if the lines
      before it parse. */
  lemma {:induction false} GetErrnoRaises(name: string, response: string, i: nat, value: string, n: int,
      number: string, rest: string, blanks: string, sign: string, digits: string, derive: Key -> Key)
    requires i < |Lines(response)| && Lines(response)[i] == "errno=" + value
    requires ApplyLines(BlankDevice(name, true), Lines(response)[..i]).Ok?
    requires IsErrno(value, n, number, rest, blanks, sign, digits) && n != 0
    ensures GetResponse(name, response, derive) == Err(SystemError(n))
  {
    hide CheckErrno, IsErrno, Lines, FieldOf;
    var lines := Lines(response);
    ErrnoField(value);
    ErrnoRaises(value, n, number, rest, blanks, sign, digits);
    RaisesAt(BlankDevice(name, true), lines, i, value, SystemError(n));
  }

  lemma {:induction false} RaisesAt(d: Device, lines: seq<string>, i: nat, value: string, e: Error)
    requires i < |lines| && FieldOf(lines[i]) == Some(Field("errno", value)) && CheckErrno(value) == Err(e)
    requires ApplyLines(d, lines[..i]).Ok?
    ensures ApplyLines(d, lines) == Err(e)
    decreases i
  {
    hide CheckErrno, FieldOf, ApplyField;
    if i == 0 {
      ErrnoApplies(d, value);
    } else {
      assert lines[..i][1..] == lines[1..][..i - 1] && lines[..i][0] == lines[0];
      RaisesAt(ApplyLine(d, lines[0]).value, lines[1..], i - 1, value, e);
    }
  }

  lemma {:induction false} ErrnoApplies(d: Device, value: string)
    ensures ApplyField(d, Field("errno", value)) == if CheckErrno(value).Err? then Err(CheckErrno(value).error) else Ok(d)
  {
    hide CheckErrno;
  }

  /** `ParseSetResponse`: accepted exactly when no line complains; else the first complaint. */
  method ParseSetResponse(response: string) returns (r: Result<()>)
    ensures r.Ok? <==> forall i :: 0 <= i < |Lines(response)| ==> Complaint(Lines(response)[i]) == None
    ensures r.Err? ==> exists i :: 0 <= i < |Lines(response)| && Complaint(Lines(response)[i]) == Some(r.error)
                                && forall j :: 0 <= j < i ==> Complaint(Lines(response)[j]) == None
  {
    hide Complaint, Lines;
    ghost var lines, i := Lines(response), 0;
    var rest := response;
    while rest != ""
      invariant 0 <= i <= |lines| && Lines(rest) == lines[i..]
      invariant forall j :: 0 <= j < i ==> Complaint(lines[j]) == None
      decreases |rest|
    {
      var end := Find(rest, '\n');
      var line := if end.Some? then rest[..end.value] else rest;
      var next := if end.Some? then rest[end.value + 1..] else "";
      LinesStep(rest);
      assert lines[i] == lines[i..][0] == line && lines[i..][1..] == lines[i + 1..];
      var code := ErrnoOf(line);
      if code.Err? {
        return Err(code.error);
      }
      rest := next;
      i := i + 1;
    }
    LinesStep(rest);
    r := Ok(());
  }

  lemma {:induction false} LinesStep(text: string)
    ensures text == "" ==> Lines(text) == []
    ensures text != "" ==> Lines(text) != []
    ensures text != "" ==> Lines(text)[0] == if Find(text, '\n').Some? then text[..Find(text, '\n').value] else text
    ensures text != "" ==> Lines(text)[1..] == Lines(if Find(text, '\n').Some? then text[Find(text, '\n').value + 1..] else "")
  {
  }

  /** The loop body of `ParseSetResponse`. */
  method ErrnoOf(line: string) returns (r: Result<()>)
    ensures r == match Complaint(line) { case None => Ok(()) case Some(e) => Err(e) }
  {
    var eq := Find(line, '=');
    if eq.None? {
      return Ok(());
    }
    if line[..eq.value] == "errno" {
      var code := Stoi(line[eq.value + 1..]);
      if code.Err? {
        return Err(code.error);
      }
      if code.value.value != 0 {
        return Err(SystemError(code.value.value));
      }
    }
    r := Ok(());
  }

  // ----- writing a SET request -----

  function When(on: bool, f: Field): seq<Field> {
    if on then [f] else []
  }

  function OptKey(key: string, v: Option<Key>): seq<Field> {
    match v
    case None => []
    case Some(k) => [Field(key, Hex(k))]
  }

  function OptU16(key: string, v: Option<u16>): seq<Field> {
    match v
    case None => []
    case Some(n) => [Field(key, Dec(n))]
  }

  function OptU32(key: string, v: Option<u32>): seq<Field> {
    match v
    case None => []
    case Some(n) => [Field(key, Dec(n))]
  }

  function OptText(key: string, v: Option<string>): seq<Field> {
    match v
    case None => []
    case Some(t) => [Field(key, t)]
  }

  function IpFields(ips: seq<AllowedIP>): (fs: seq<Field>)
    ensures |fs| == |ips|
  {
    seq(|ips|, i requires 0 <= i < |ips| => Field("allowed_ip", FormatCIDR(ips[i])))
  }

  function PeerHead(p: PeerConfig): seq<Field> {
    [Field("public_key", Hex(p.publicKey))]
    + When(p.remove, Field("remove", "true"))
    + When(p.updateOnly, Field("update_only", "true"))
    + OptKey("preshared_key", p.presharedKey)
    + OptText("endpoint", p.endpoint)
    + OptU16("persistent_keepalive_interval", p.persistentKeepaliveInterval)
    + When(p.replaceAllowedIPs, Field("replace_allowed_ips", "true"))
  }

  function PeerFields(p: PeerConfig): seq<Field> {
    PeerHead(p) + IpFields(p.allowedIPs)
  }

  function DeviceFields(c: Config): seq<Field> {
    [Field("set", "1")]
    + OptKey("private_key", c.privateKey)
    + OptU16("listen_port", c.listenPort)
    + OptU32("fwmark", c.firewallMark)
    + When(c.replacePeers, Field("replace_peers", "true"))
  }

  function AllPeerFields(peers: seq<PeerConfig>): seq<Field> {
    if peers == [] then [] else PeerFields(peers[0]) + AllPeerFields(peers[1..])
  }

  function LineOf(f: Field): string {
    f.key + "=" + f.value
  }

  function Render(fs: seq<Field>): string {
    if fs == [] then "" else Render(fs[..|fs| - 1]) + (LineOf(fs[|fs| - 1]) + "\n")
  }

  /** `BuildSetRequest`: fails when an endpoint is invalid. */
  function SetRequest(c: Config): Result<string> {
    if EndpointsOk(c.peers) then
      Ok(Render(DeviceFields(c) + AllPeerFields(c.peers)) + "\n")
    else Err(InvalidArgument)
  }

  /** `oss << key << "=" << value << "\n"`. */
  method Emit(oss0: string, ghost fs0: seq<Field>, key: string, value: string) returns (oss: string, ghost fs: seq<Field>)
    requires oss0 == Render(fs0)
    ensures fs == fs0 + [Field(key, value)] && oss == Render(fs)
  {
    oss := oss0 + key + "=" + value + "\n";
    fs := fs0 + [Field(key, value)];
    assert fs[..|fs| - 1] == fs0;
    assert oss == oss0 + (LineOf(Field(key, value)) + "\n");
  }

  method EmitWhen(on: bool, oss0: string, ghost fs0: seq<Field>, key: string) returns (oss: string, ghost fs: seq<Field>)
    requires oss0 == Render(fs0)
    ensures fs == fs0 + When(on, Field(key, "true")) && oss == Render(fs)
  {
    oss, fs := oss0, fs0;
    if on {
      oss, fs := Emit(oss, fs, key, "true");
    }
  }

  method EmitKey(v: Option<Key>, oss0: string, ghost fs0: seq<Field>, key: string) returns (oss: string, ghost fs: seq<Field>)
    requires oss0 == Render(fs0)
    ensures fs == fs0 + OptKey(key, v) && oss == Render(fs)
  {
    oss, fs := oss0, fs0;
    if v.Some? {
      var hex := KeyToHex(v.value);
      oss, fs := Emit(oss, fs, key, hex);
    }
  }

  method EmitU32(v: Option<u32>, oss0: string, ghost fs0: seq<Field>, key: string) returns (oss: string, ghost fs: seq<Field>)
    requires oss0 == Render(fs0)
    ensures fs == fs0 + OptU32(key, v) && oss == Render(fs)
  {
    oss, fs := oss0, fs0;
    if v.Some? {
      oss, fs := Emit(oss, fs, key, Dec(v.value));
    }
  }

  method EmitU16(v: Option<u16>, oss0: string, ghost fs0: seq<Field>, key: string) returns (oss: string, ghost fs: seq<Field>)
    requires oss0 == Render(fs0)
    ensures fs == fs0 + OptU16(key, v) && oss == Render(fs)
  {
    oss, fs := oss0, fs0;
    if v.Some? {
      oss, fs := Emit(oss, fs, key, Dec(v.value));
    }
  }

  method WriteDevice(cfg: Config) returns (oss: string)
    ensures oss == Render(DeviceFields(cfg))
  {
    ghost var fs: seq<Field> := [];
    oss, fs := Emit("", [], "set", "1");
    assert fs == [Field("set", "1")];
    oss, fs := EmitKey(cfg.privateKey, oss, fs, "private_key");
    oss, fs := EmitU16(cfg.listenPort, oss, fs, "listen_port");
    oss, fs := EmitU32(cfg.firewallMark, oss, fs, "fwmark");
    oss, fs := EmitWhen(cfg.replacePeers, oss, fs, "replace_peers");
  }

  lemma {:induction false} IpFieldsStep(ips: seq<AllowedIP>, i: nat)
    requires i < |ips|
    ensures IpFields(ips)[..i + 1] == IpFields(ips)[..i] + [Field("allowed_ip", FormatCIDR(ips[i]))]
  {
  }

  method WriteIps(oss0: string, ghost fs0: seq<Field>, ips: seq<AllowedIP>) returns (oss: string, ghost fs: seq<Field>)
    requires oss0 == Render(fs0)
    ensures fs == fs0 + IpFields(ips) && oss == Render(fs)
  {
    hide Render, FormatCIDR;
    oss, fs := oss0, fs0;
    var i := 0;
    while i < |ips|
      invariant 0 <= i <= |ips|
      invariant fs == fs0 + IpFields(ips)[..i] && oss == Render(fs)
    {
      IpFieldsStep(ips, i);
      ghost var f := Field("allowed_ip", FormatCIDR(ips[i]));
      assert fs + [f] == fs0 + (IpFields(ips)[..i] + [f]);
      oss, fs := Emit(oss, fs, "allowed_ip", FormatCIDR(ips[i]));
      i := i + 1;
    }
  }

  method WriteFlags(oss0: string, ghost fs0: seq<Field>, peer: PeerConfig) returns (oss: string, ghost fs: seq<Field>)
    requires oss0 == Render(fs0)
    ensures fs == fs0 + [Field("public_key", Hex(peer.publicKey))] + When(peer.remove, Field("remove", "true"))
               + When(peer.updateOnly, Field("update_only", "true")) + OptKey("preshared_key", peer.presharedKey)
    ensures oss == Render(fs)
  {
    var hex := KeyToHex(peer.publicKey);
    oss, fs := Emit(oss0, fs0, "public_key", hex);
    oss, fs := EmitWhen(peer.remove, oss, fs, "remove");
    oss, fs := EmitWhen(peer.updateOnly, oss, fs, "update_only");
    oss, fs := EmitKey(peer.presharedKey, oss, fs, "preshared_key");
  }

  method EmitText(v: Option<string>, oss0: string, ghost fs0: seq<Field>, key: string) returns (oss: string, ghost fs: seq<Field>)
    requires oss0 == Render(fs0)
    ensures fs == fs0 + OptText(key, v) && oss == Render(fs)
  {
    oss, fs := oss0, fs0;
    if v.Some? {
      oss, fs := Emit(oss, fs, key, v.value);
    }
  }

  method WritePeer(oss0: string, ghost fs0: seq<Field>, peer: PeerConfig) returns (ok: bool, oss: string, ghost fs: seq<Field>)
    requires oss0 == Render(fs0)
    ensures ok <==> EndpointOk(peer)
    ensures ok ==> fs == fs0 + PeerFields(peer) && oss == Render(fs)
  {
    PeerFieldsAfter(fs0, peer);
    oss, fs := WriteFlags(oss0, fs0, peer);
    ok := EndpointOk(peer);
    if !ok {
      return;
    }
    oss, fs := EmitText(peer.endpoint, oss, fs, "endpoint");
    oss, fs := EmitU16(peer.persistentKeepaliveInterval, oss, fs, "persistent_keepalive_interval");
    oss, fs := EmitWhen(peer.replaceAllowedIPs, oss, fs, "replace_allowed_ips");
    oss, fs := WriteIps(oss, fs, peer.allowedIPs);
  }

  /** Concatenation in the order the peer section is written. */
  lemma {:induction false} PeerFieldsAfter(fs0: seq<Field>, p: PeerConfig)
    ensures fs0 + PeerFields(p)
         == fs0 + [Field("public_key", Hex(p.publicKey))]
            + When(p.remove, Field("remove", "true"))
            + When(p.updateOnly, Field("update_only", "true"))
            + OptKey("preshared_key", p.presharedKey)
            + OptText("endpoint", p.endpoint)
            + OptU16("persistent_keepalive_interval", p.persistentKeepaliveInterval)
            + When(p.replaceAllowedIPs, Field("replace_allowed_ips", "true"))
            + IpFields(p.allowedIPs)
  {
    hide PeerHead, When, OptKey, OptText, OptU16, IpFields, Hex;
    assert fs0 + PeerFields(p) == fs0 + PeerHead(p) + IpFields(p.allowedIPs);
    PeerHeadAfter(fs0, p);
  }

  lemma {:induction false} PeerHeadAfter(fs0: seq<Field>, p: PeerConfig)
    ensures fs0 + PeerHead(p)
         == fs0 + [Field("public_key", Hex(p.publicKey))]
            + When(p.remove, Field("remove", "true"))
            + When(p.updateOnly, Field("update_only", "true"))
            + OptKey("preshared_key", p.presharedKey)
            + OptText("endpoint", p.endpoint)
            + OptU16("persistent_keepalive_interval", p.persistentKeepaliveInterval)
            + When(p.replaceAllowedIPs, Field("replace_allowed_ips", "true"))
  {
    hide When, OptKey, OptText, OptU16, Hex;
    Assoc7(fs0, [Field("public_key", Hex(p.publicKey))], When(p.remove, Field("remove", "true")),
      When(p.updateOnly, Field("update_only", "true")), OptKey("preshared_key", p.presharedKey),
      OptText("endpoint", p.endpoint), OptU16("persistent_keepalive_interval", p.persistentKeepaliveInterval),
      When(p.replaceAllowedIPs, Field("replace_allowed_ips", "true")));
  }

  lemma {:induction false} Assoc7<T>(s: seq<T>, a: seq<T>, b: seq<T>, c: seq<T>, d: seq<T>, e: seq<T>, f: seq<T>, g: seq<T>)
    ensures s + (a + b + c + d + e + f + g) == s + a + b + c + d + e + f + g
  {
    assert s + (a + b) == s + a + b;
    assert s + (a + b + c) == s + (a + b) + c;
    assert s + (a + b + c + d) == s + (a + b + c) + d;
    assert s + (a + b + c + d + e) == s + (a + b + c + d) + e;
    assert s + (a + b + c + d + e + f) == s + (a + b + c + d + e) + f;
    assert s + (a + b + c + d + e + f + g) == s + (a + b + c + d + e + f) + g;
  }

  lemma {:induction false} RestFields(fs: seq<Field>, peers: seq<PeerConfig>)
    requires peers != []
    ensures fs + PeerFields(peers[0]) + AllPeerFields(peers[1..]) == fs + AllPeerFields(peers)
  {
    hide PeerFields;
    var first, rest := PeerFields(peers[0]), AllPeerFields(peers[1..]);
    assert AllPeerFields(peers) == first + rest;
    assert fs + first + rest == fs + (first + rest);
  }

  method WritePeers(oss0: string, ghost ds: seq<Field>, peers: seq<PeerConfig>) returns (ok: bool, oss: string)
    requires oss0 == Render(ds)
    ensures ok <==> EndpointsOk(peers)
    ensures ok ==> oss == Render(ds + AllPeerFields(peers))
  {
    oss := oss0;
    ghost var fs := ds;
    var i := 0;
    while i < |peers|
      invariant 0 <= i <= |peers|
      invariant EndpointsOk(peers) == EndpointsOk(peers[i..])
      invariant fs + AllPeerFields(peers[i..]) == ds + AllPeerFields(peers) && oss == Render(fs)
    {
      assert peers[i..][1..] == peers[i + 1..];
      RestFields(fs, peers[i..]);
      ok, oss, fs := WritePeer(oss, fs, peers[i]);
      if !ok {
        return;
      }
      i := i + 1;
    }
    ok := true;
    assert fs + AllPeerFields(peers[i..]) == fs;
  }

  method BuildSetRequest(cfg: Config) returns (r: Result<string>)
    ensures r == SetRequest(cfg)
    ensures r.Ok? <==> forall i :: 0 <= i < |cfg.peers| && cfg.peers[i].endpoint.Some? ==>
      ParseEndpoint(cfg.peers[i].endpoint.value).Ok?
    ensures r.Err? ==> r.error == InvalidArgument
  {
    WhichEndpointsBuild(cfg.peers);
    var oss := WriteDevice(cfg);
    var ok;
    ok, oss := WritePeers(oss, DeviceFields(cfg), cfg.peers);
    r := if ok then Ok(oss + "\n") else Err(InvalidArgument);
  }
}
