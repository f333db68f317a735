/** A strict reader of SET requests, written from the protocol's side (the "Configuration Protocol"
    section of the WireGuard cross-platform userspace protocol): it accepts every request built
    from a clean configuration and recovers the configuration, so no two share a request. */
module UapiSetReader {
  import opened Core
  import opened WireGuard
  import opened Text
  import opened KeyText
  import opened Address
  import opened Uapi
  import opened UapiRoundTrip

  function BlankConfig(): Config {
    Config(None, None, None, false, [])
  }

  function BlankPeerConfig(k: Key): PeerConfig {
    PeerConfig(k, false, false, None, None, None, false, [])
  }

  /** A value of digits only, within the bound. */
  function Digits(value: string, max: nat): (r: Option<nat>)
    ensures r.Some? ==> r.value <= max
  {
    if value != "" && AllDigits(value) && DecVal(value) <= max then Some(DecVal(value)) else None
  }

  /** A field of a peer section; None refuses the request. */
  function SetPeer(p: PeerConfig, f: Field): Option<PeerConfig> {
    if f.key == "remove" then if f.value == "true" then Some(p.(remove := true)) else None
    else if f.key == "update_only" then if f.value == "true" then Some(p.(updateOnly := true)) else None
    else if f.key == "replace_allowed_ips" then if f.value == "true" then Some(p.(replaceAllowedIPs := true)) else None
    else if f.key == "preshared_key" then SetPeerKey(p, HexKey(f.value))
    else if f.key == "endpoint" then if ParseEndpoint(f.value).Ok? then Some(p.(endpoint := Some(f.value))) else None
    else if f.key == "persistent_keepalive_interval" then SetPeerInterval(p, Digits(f.value, 65535))
    else if f.key == "allowed_ip" then SetPeerIp(p, ParseCIDR(f.value))
    else None
  }

  function SetPeerKey(p: PeerConfig, k: Result<Key>): Option<PeerConfig> {
    if k.Ok? then Some(p.(presharedKey := Some(k.value))) else None
  }

  function SetPeerInterval(p: PeerConfig, n: Option<nat>): Option<PeerConfig>
    requires n.Some? ==> n.value <= 65535
  {
    if n.Some? then Some(p.(persistentKeepaliveInterval := Some(n.value))) else None
  }

  function SetPeerIp(p: PeerConfig, a: Result<AllowedIP>): Option<PeerConfig> {
    if a.Ok? then Some(p.(allowedIPs := p.allowedIPs + [a.value])) else None
  }

  /** A field before the first peer section. */
  function SetDevice(c: Config, f: Field): Option<Config> {
    if f.key == "private_key" then SetDeviceKey(c, HexKey(f.value))
    else if f.key == "listen_port" then SetDevicePort(c, Digits(f.value, 65535))
    else if f.key == "fwmark" then SetDeviceMark(c, Digits(f.value, 0xFFFF_FFFF))
    else if f.key == "replace_peers" then if f.value == "true" then Some(c.(replacePeers := true)) else None
    else None
  }

  function SetDeviceKey(c: Config, k: Result<Key>): Option<Config> {
    if k.Ok? then Some(c.(privateKey := Some(k.value))) else None
  }

  function SetDevicePort(c: Config, n: Option<nat>): Option<Config>
    requires n.Some? ==> n.value <= 65535
  {
    if n.Some? then Some(c.(listenPort := Some(n.value))) else None
  }

  function SetDeviceMark(c: Config, n: Option<nat>): Option<Config>
    requires n.Some? ==> n.value <= 0xFFFF_FFFF
  {
    if n.Some? then Some(c.(firewallMark := Some(n.value))) else None
  }

  function Set(c: Config, f: Field): Option<Config> {
    if f.key == "public_key" then
      match HexKey(f.value)
      case Ok(k) => Some(With(c, BlankPeerConfig(k)))
      case Err(_) => None
    else if c.peers != [] then
      var k := |c.peers| - 1;
      match SetPeer(c.peers[k], f)
      case Some(p) => Some(c.(peers := c.peers[..k] + [p]))
      case None => None
    else SetDevice(c, f)
  }

  function SetAll(c: Config, fs: seq<Field>): Option<Config>
    decreases |fs|
  {
    if fs == [] then Some(c)
    else if Set(c, fs[0]).None? then None
    else SetAll(Set(c, fs[0]).value, fs[1..])
  }

  /** The fields of some lines, in order, if every line holds one. */
  function FieldsOf(lines: seq<string>): Option<seq<Field>> {
    if lines == [] then Some([])
    else if FieldOf(lines[0]).None? || FieldsOf(lines[1..]).None? then None
    else Some([FieldOf(lines[0]).value] + FieldsOf(lines[1..]).value)
  }

  /** The whole text: "set=1" on the first line, fields, and an empty line at the end. */
  function ReadSetRequest(text: string): Option<Config> {
    var lines := Lines(text);
    var n := |lines| - 1;
    if n < 1 || lines[0] != "set=1" || lines[n] != "" then None
    else if FieldsOf(lines[1..n]).None? then None
    else SetAll(BlankConfig(), FieldsOf(lines[1..n]).value)
  }

  function With(c: Config, p: PeerConfig): Config {
    c.(peers := c.peers + [p])
  }

  // ----- what the reader refuses -----

  predicate IsFlag(key: string) {
    key == "remove" || key == "update_only" || key == "replace_allowed_ips" || key == "replace_peers"
  }

  predicate IsPeerKey(key: string) {
    || key == "remove" || key == "update_only" || key == "replace_allowed_ips" || key == "preshared_key"
    || key == "endpoint" || key == "persistent_keepalive_interval" || key == "allowed_ip"
  }

  predicate IsDeviceKey(key: string) {
    key == "private_key" || key == "listen_port" || key == "fwmark" || key == "replace_peers"
  }

  /** A field that may stand where it does: a known key, a peer key only behind a public key, a
      device key only before any, and flags with the value "true". */
  predicate FieldInPlace(f: Field, behindKey: bool) {
    && (f.key == "public_key" || (if behindKey then IsPeerKey(f.key) else IsDeviceKey(f.key)))
    && (IsFlag(f.key) ==> f.value == "true")
  }

  predicate HasPublicKey(fs: seq<Field>) {
    exists j :: 0 <= j < |fs| && fs[j].key == "public_key"
  }

  /** The lines between the first and the last hold these fields, each in its place. */
  predicate HoldsInPlace(lines: seq<string>, fs: seq<Field>) {
    && |lines| == |fs| + 2
    && forall i :: 0 <= i < |fs| ==>
         FieldOf(lines[i + 1]) == Some(fs[i]) && FieldInPlace(fs[i], HasPublicKey(fs[..i]))
  }

  lemma {:induction false} SetInPlace(c: Config, f: Field)
    requires Set(c, f).Some?
    ensures FieldInPlace(f, c.peers != [])
    ensures Set(c, f).value.peers != [] <==> c.peers != [] || f.key == "public_key"
  {
    hide HexKey, ParseEndpoint, ParseCIDR, Digits;
  }

  lemma {:induction false} AllInPlace(c: Config, fs: seq<Field>, i: nat)
    requires SetAll(c, fs).Some? && i < |fs|
    ensures FieldInPlace(fs[i], c.peers != [] || HasPublicKey(fs[..i]))
    decreases |fs|
  {
    hide Set, FieldInPlace;
    SetInPlace(c, fs[0]);
    if i > 0 {
      AllInPlace(Set(c, fs[0]).value, fs[1..], i - 1);
      KeyAhead(fs[0], fs[1..][..i - 1]);
      assert fs[..i] == [fs[0]] + fs[1..][..i - 1];
    } else {
      assert !HasPublicKey(fs[..0]);
    }
  }

  lemma {:induction false} KeyAhead(f: Field, fs: seq<Field>)
    ensures HasPublicKey([f] + fs) <==> f.key == "public_key" || HasPublicKey(fs)
  {
    var all := [f] + fs;
    assert all[0] == f && all[1..] == fs;
    if HasPublicKey(fs) {
      var j :| 0 <= j < |fs| && fs[j].key == "public_key";
      assert all[j + 1].key == "public_key";
    }
    if HasPublicKey(all) {
      var j :| 0 <= j < |all| && all[j].key == "public_key";
      assert j > 0 ==> fs[j - 1].key == "public_key";
    }
  }

  lemma {:induction false} FieldsOfEach(lines: seq<string>)
    requires FieldsOf(lines).Some?
    ensures |FieldsOf(lines).value| == |lines|
    ensures forall i :: 0 <= i < |lines| ==> FieldOf(lines[i]) == Some(FieldsOf(lines).value[i])
    decreases |lines|
  {
    hide FieldOf;
    if lines != [] {
      FieldsOfEach(lines[1..]);
      assert forall i :: 1 <= i < |lines| ==> lines[i] == lines[1..][i - 1];
    }
  }

  lemma {:induction false} EmptyLastLine(text: string)
    requires Lines(text) != [] && Lines(text)[|Lines(text)| - 1] == ""
    ensures text[|text| - 1] == '\n' && (|Lines(text)| > 1 ==> |text| > 1 && text[|text| - 2] == '\n')
    decreases |text|
  {
    var lines := Lines(text);
    LinesStep(text);
    if Find(text, '\n').Some? {
      var i := Find(text, '\n').value;
      var rest := text[i + 1..];
      assert rest == "" ==> Lines(rest) == [];
      if rest != "" {
        LinesStep(rest);
        assert lines[|lines| - 1] == lines[1..][|lines| - 2];
        EmptyLastLine(rest);
        LastOfRest(text, i);
      }
    }
  }

  lemma {:induction false} LastOfRest(text: string, i: nat)
    requires i + 1 < |text| && text[i] == '\n'
    ensures var rest := text[i + 1..];
      text[|text| - 1] == rest[|rest| - 1] && text[|text| - 2] == if |rest| > 1 then rest[|rest| - 2] else '\n'
  {
  }

  /** Whatever the reader accepts starts with "set=1" and a line feed, ends with an empty line, and
      has nothing but known fields in their places in between. */
  lemma {:induction false} AcceptedIsStrict(text: string)
    requires ReadSetRequest(text).Some?
    ensures "set=1\n" <= text && text[|text| - 2..] == "\n\n"
    ensures exists fs :: HoldsInPlace(Lines(text), fs)
  {
    hide Lines, FieldsOf, SetAll, FieldOf, FieldInPlace, HasPublicKey;
    var lines := Lines(text);
    var n := |lines| - 1;
    var fs := FieldsOf(lines[1..n]).value;
    FieldsOfEach(lines[1..n]);
    forall i | 0 <= i < |fs|
      ensures FieldOf(lines[i + 1]) == Some(fs[i]) && FieldInPlace(fs[i], HasPublicKey(fs[..i]))
    {
      assert lines[1..n][i] == lines[i + 1];
      AllInPlace(BlankConfig(), fs, i);
    }
    assert HoldsInPlace(lines, fs);
    EmptyLastLine(text);
    FirstLine(text);
  }

  lemma {:induction false} FirstLine(text: string)
    requires |Lines(text)| > 1
    ensures Lines(text)[0] + "\n" <= text
  {
    LinesStep(text);
    LinesStep("");
  }

  // ----- what it recovers -----

  lemma {:induction false} SetAllAppend(c: Config, a: seq<Field>, b: seq<Field>)
    requires SetAll(c, a).Some?
    ensures SetAll(c, a + b) == SetAll(SetAll(c, a).value, b)
    decreases |a|
  {
    hide Set;
    if a == [] {
      assert a + b == b;
    } else {
      assert (a + b)[1..] == a[1..] + b;
      SetAllAppend(Set(c, a[0]).value, a[1..], b);
    }
  }

  lemma {:induction false} SetOne(c: Config, f: Field)
    ensures SetAll(c, [f]) == Set(c, f)
  {
    hide Set;
    assert [f][1..] == [];
  }

  lemma {:induction false} SetNothing(c: Config)
    ensures SetAll(c, []) == Some(c)
  {
  }

  lemma {:induction false} SetWith(c: Config, p: PeerConfig, f: Field)
    requires f.key != "public_key" && SetPeer(p, f).Some?
    ensures SetAll(With(c, p), [f]) == Some(With(c, SetPeer(p, f).value))
  {
    hide SetPeer;
    SetOne(With(c, p), f);
    var ps := With(c, p).peers;
    assert ps[..|ps| - 1] == c.peers && ps[|ps| - 1] == p;
  }

  lemma {:induction false} DigitsOfDec(n: nat, max: nat)
    requires n <= max
    ensures Digits(Dec(n), max) == Some(n)
  {
  }

  lemma {:induction false} SetRemove(c: Config, p: PeerConfig, on: bool)
    requires !p.remove
    ensures SetAll(With(c, p), When(on, Field("remove", "true"))) == Some(With(c, p.(remove := on)))
  {
    hide SetAll, With;
    SetNothing(With(c, p));
    if on {
      SetWith(c, p, Field("remove", "true"));
    }
  }

  lemma {:induction false} SetUpdateOnly(c: Config, p: PeerConfig, on: bool)
    requires !p.updateOnly
    ensures SetAll(With(c, p), When(on, Field("update_only", "true"))) == Some(With(c, p.(updateOnly := on)))
  {
    hide SetAll, With;
    SetNothing(With(c, p));
    if on {
      SetWith(c, p, Field("update_only", "true"));
    }
  }

  lemma {:induction false} SetReplaceIps(c: Config, p: PeerConfig, on: bool)
    requires !p.replaceAllowedIPs
    ensures SetAll(With(c, p), When(on, Field("replace_allowed_ips", "true"))) == Some(With(c, p.(replaceAllowedIPs := on)))
  {
    hide SetAll, With;
    SetNothing(With(c, p));
    if on {
      SetWith(c, p, Field("replace_allowed_ips", "true"));
    }
  }

  lemma {:induction false} SetPsk(c: Config, p: PeerConfig, v: Option<Key>)
    requires p.presharedKey == None
    ensures SetAll(With(c, p), OptKey("preshared_key", v)) == Some(With(c, p.(presharedKey := v)))
  {
    hide SetAll, With, Hex, HexKey;
    SetNothing(With(c, p));
    if v.Some? {
      HexRoundTrip(v.value);
      SetWith(c, p, Field("preshared_key", Hex(v.value)));
    }
  }

  lemma {:induction false} SetEndpointText(c: Config, p: PeerConfig, v: Option<string>)
    requires p.endpoint == None && (v.Some? ==> ParseEndpoint(v.value).Ok?)
    ensures SetAll(With(c, p), OptText("endpoint", v)) == Some(With(c, p.(endpoint := v)))
  {
    hide SetAll, With, ParseEndpoint;
    SetNothing(With(c, p));
    if v.Some? {
      SetWith(c, p, Field("endpoint", v.value));
    }
  }

  lemma {:induction false} SetInterval(c: Config, p: PeerConfig, v: Option<u16>)
    requires p.persistentKeepaliveInterval == None
    ensures SetAll(With(c, p), OptU16("persistent_keepalive_interval", v)) == Some(With(c, p.(persistentKeepaliveInterval := v)))
  {
    hide SetAll, With, Dec, Digits;
    SetNothing(With(c, p));
    if v.Some? {
      DigitsOfDec(v.value, 65535);
      SetWith(c, p, Field("persistent_keepalive_interval", Dec(v.value)));
    }
  }

  lemma {:induction false} SetIp(c: Config, p: PeerConfig, a: AllowedIP)
    requires IsCidr(a)
    ensures SetAll(With(c, p), [Field("allowed_ip", FormatCIDR(a))]) == Some(With(c, p.(allowedIPs := p.allowedIPs + [a])))
  {
    hide SetAll, With, IsCidr, ParseCIDR, FormatCIDR;
    CidrRoundTrip(a);
    assert "allowed_ip"[0] == 'a' && "public_key"[0] == 'p';
    SetWith(c, p, Field("allowed_ip", FormatCIDR(a)));
  }

  lemma {:induction false} SetIps(c: Config, p: PeerConfig, ips: seq<AllowedIP>)
    requires AllCidr(ips)
    ensures SetAll(With(c, p), IpFields(ips)) == Some(With(c, p.(allowedIPs := p.allowedIPs + ips)))
    decreases |ips|
  {
    hide Set, With, IsCidr, FormatCIDR;
    if ips == [] {
      assert p.allowedIPs + ips == p.allowedIPs;
    } else {
      var first := [Field("allowed_ip", FormatCIDR(ips[0]))];
      assert IpFields(ips) == first + IpFields(ips[1..]);
      SetIp(c, p, ips[0]);
      SetAllAppend(With(c, p), first, IpFields(ips[1..]));
      SetIps(c, p.(allowedIPs := p.allowedIPs + [ips[0]]), ips[1..]);
      assert p.allowedIPs + [ips[0]] + ips[1..] == p.allowedIPs + ips;
    }
  }

  lemma {:induction false} SetHeadFlags(c: Config, p: PeerConfig)
    ensures SetAll(c, [Field("public_key", Hex(p.publicKey))]
                      + When(p.remove, Field("remove", "true"))
                      + When(p.updateOnly, Field("update_only", "true")))
         == Some(With(c, BlankPeerConfig(p.publicKey).(remove := p.remove, updateOnly := p.updateOnly)))
  {
    hide When, SetAll, HexKey, With;
    var a, b := [Field("public_key", Hex(p.publicKey))], When(p.remove, Field("remove", "true"));
    var q := BlankPeerConfig(p.publicKey);
    HexRoundTrip(p.publicKey);
    SetOne(c, a[0]);
    SetAllAppend(c, a, b);
    SetRemove(c, q, p.remove);
    SetAllAppend(c, a + b, When(p.updateOnly, Field("update_only", "true")));
    SetUpdateOnly(c, q.(remove := p.remove), p.updateOnly);
  }

  lemma {:induction false} SetHead(c: Config, p: PeerConfig)
    requires EndpointOk(p)
    ensures SetAll(c, PeerHead(p)) == Some(With(c, p.(allowedIPs := [])))
  {
    hide SetAll, OptKey, OptText, OptU16, When, With, ParseEndpoint;
    var a := [Field("public_key", Hex(p.publicKey))]
             + When(p.remove, Field("remove", "true"))
             + When(p.updateOnly, Field("update_only", "true"));
    var b := a + OptKey("preshared_key", p.presharedKey);
    var e := b + OptText("endpoint", p.endpoint);
    var f := e + OptU16("persistent_keepalive_interval", p.persistentKeepaliveInterval);
    var q0 := BlankPeerConfig(p.publicKey).(remove := p.remove, updateOnly := p.updateOnly);
    var q1 := q0.(presharedKey := p.presharedKey);
    var q2 := q1.(endpoint := p.endpoint);
    var q3 := q2.(persistentKeepaliveInterval := p.persistentKeepaliveInterval);
    SetHeadFlags(c, p);
    SetAllAppend(c, a, OptKey("preshared_key", p.presharedKey));
    SetPsk(c, q0, p.presharedKey);
    SetAllAppend(c, b, OptText("endpoint", p.endpoint));
    SetEndpointText(c, q1, p.endpoint);
    SetAllAppend(c, e, OptU16("persistent_keepalive_interval", p.persistentKeepaliveInterval));
    SetInterval(c, q2, p.persistentKeepaliveInterval);
    SetAllAppend(c, f, When(p.replaceAllowedIPs, Field("replace_allowed_ips", "true")));
    SetReplaceIps(c, q3, p.replaceAllowedIPs);
  }

  lemma {:induction false} SetWhole(c: Config, p: PeerConfig)
    requires AllCidr(p.allowedIPs) && EndpointOk(p)
    ensures SetAll(c, PeerFields(p)) == Some(With(c, p))
  {
    hide SetAll, PeerHead, IpFields, AllCidr, With, EndpointOk;
    SetHead(c, p);
    SetAllAppend(c, PeerHead(p), IpFields(p.allowedIPs));
    SetIps(c, p.(allowedIPs := []), p.allowedIPs);
    assert [] + p.allowedIPs == p.allowedIPs;
  }

  lemma {:induction false} SetPeers(c: Config, peers: seq<PeerConfig>)
    requires AllPeersCidr(peers) && EndpointsOk(peers)
    ensures SetAll(c, AllPeerFields(peers)) == Some(c.(peers := c.peers + peers))
    decreases |peers|
  {
    hide SetAll, PeerFields, AllCidr, EndpointOk;
    if peers == [] {
      SetNothing(c);
      assert c.peers + peers == c.peers;
    } else {
      var p := peers[0];
      SetWhole(c, p);
      SetAllAppend(c, PeerFields(p), AllPeerFields(peers[1..]));
      SetPeers(With(c, p), peers[1..]);
      assert c.peers + [p] + peers[1..] == c.peers + peers;
    }
  }

  lemma {:induction false} SetOnDevice(c: Config, f: Field)
    requires c.peers == [] && f.key != "public_key"
    ensures SetAll(c, [f]) == SetDevice(c, f)
  {
    hide SetDevice;
    SetOne(c, f);
  }

  lemma {:induction false} SetKey(c: Config, k: Option<Key>)
    requires c.peers == [] && c.privateKey == None
    ensures SetAll(c, OptKey("private_key", k)) == Some(c.(privateKey := k))
  {
    hide HexKey, SetAll, Hex;
    SetNothing(c);
    if k.Some? {
      HexRoundTrip(k.value);
      SetOnDevice(c, Field("private_key", Hex(k.value)));
    }
  }

  lemma {:induction false} SetPort(c: Config, p: Option<u16>)
    requires c.peers == [] && c.listenPort == None
    ensures SetAll(c, OptU16("listen_port", p)) == Some(c.(listenPort := p))
  {
    hide SetAll, Dec, Digits;
    SetNothing(c);
    if p.Some? {
      DigitsOfDec(p.value, 65535);
      assert "listen_port"[0] == 'l' && "private_key"[0] == 'p';
      SetOnDevice(c, Field("listen_port", Dec(p.value)));
    }
  }

  lemma {:induction false} SetMark(c: Config, m: Option<u32>)
    requires c.peers == [] && c.firewallMark == None
    ensures SetAll(c, OptU32("fwmark", m)) == Some(c.(firewallMark := m))
  {
    hide SetAll, Dec, Digits;
    SetNothing(c);
    if m.Some? {
      DigitsOfDec(m.value, 0xFFFF_FFFF);
      SetOnDevice(c, Field("fwmark", Dec(m.value)));
    }
  }

  lemma {:induction false} SetReplacePeers(c: Config, on: bool)
    requires c.peers == [] && !c.replacePeers
    ensures SetAll(c, When(on, Field("replace_peers", "true"))) == Some(c.(replacePeers := on))
  {
    hide SetAll;
    SetNothing(c);
    if on {
      SetOnDevice(c, Field("replace_peers", "true"));
    }
  }

  /** The device's own fields, behind "set=1". */
  function OwnFields(c: Config): seq<Field> {
    OptKey("private_key", c.privateKey)
    + OptU16("listen_port", c.listenPort)
    + OptU32("fwmark", c.firewallMark)
    + When(c.replacePeers, Field("replace_peers", "true"))
  }

  lemma {:induction false} SetHeader(c: Config)
    ensures SetAll(BlankConfig(), OwnFields(c)) == Some(c.(peers := []))
  {
    hide SetAll, OptKey, OptU16, OptU32, When;
    var c0 := BlankConfig();
    var c1 := c0.(privateKey := c.privateKey);
    var c2 := c1.(listenPort := c.listenPort);
    var c3 := c2.(firewallMark := c.firewallMark);
    var b := OptKey("private_key", c.privateKey);
    var e := b + OptU16("listen_port", c.listenPort);
    var f := e + OptU32("fwmark", c.firewallMark);
    SetKey(c0, c.privateKey);
    SetAllAppend(c0, b, OptU16("listen_port", c.listenPort));
    SetPort(c1, c.listenPort);
    SetAllAppend(c0, e, OptU32("fwmark", c.firewallMark));
    SetMark(c2, c.firewallMark);
    SetAllAppend(c0, f, When(c.replacePeers, Field("replace_peers", "true")));
    SetReplacePeers(c3, c.replacePeers);
  }

  lemma {:induction false} OwnBehindSet(c: Config)
    ensures DeviceFields(c) == [Field("set", "1")] + OwnFields(c)
  {
    hide OptKey, OptU16, OptU32, When;
    var a, k, p, m, r := [Field("set", "1")], OptKey("private_key", c.privateKey), OptU16("listen_port", c.listenPort),
      OptU32("fwmark", c.firewallMark), When(c.replacePeers, Field("replace_peers", "true"));
    assert a + k + p == a + (k + p);
    assert a + k + p + m == a + (k + p + m);
  }

  lemma {:induction false} FieldsOfLines(fs: seq<Field>)
    requires OneLineEach(fs)
    ensures FieldsOf(LineTexts(fs)) == Some(fs)
    decreases |fs|
  {
    hide FieldOf, LineOf;
    if fs != [] {
      assert OneLine(fs[0]);
      FieldOfLine(fs[0]);
      assert LineTexts(fs)[1..] == LineTexts(fs[1..]);
      FieldsOfLines(fs[1..]);
      assert [fs[0]] + fs[1..] == fs;
    }
  }

  /** The lines of a request with these fields behind "set=1". */
  lemma {:induction false} LinesOfRequest(fs: seq<Field>)
    requires OneLineEach([Field("set", "1")] + fs)
    ensures Lines(Render([Field("set", "1")] + fs) + "\n") == ["set=1"] + LineTexts(fs) + [""]
  {
    hide OneLineEach, Render, Lines;
    var all := [Field("set", "1")] + fs;
    LinesOfRender(all, "\n");
    LastLine();
    assert all[1..] == fs && LineOf(all[0]) == "set=1";
  }

  lemma {:induction false} BehindFirst(f: Field, fs: seq<Field>)
    requires OneLineEach([f] + fs)
    ensures OneLineEach(fs)
  {
    hide OneLine;
    assert forall i :: 0 <= i < |fs| ==> fs[i] == ([f] + fs)[i + 1];
  }

  /** Every clean configuration can be read back from its request, flags and the difference
      between "omitted" and "set to zero" included. */
  lemma {:induction false} SetRequestReadsBack(c: Config)
    requires SetRequest(c).Ok? && Clean(c)
    ensures ReadSetRequest(SetRequest(c).value) == Some(c)
  {
    hide OneLineEach, SetAll, DeviceFields, AllPeerFields, CleanPeers;
    hide AllPeersCidr, Render, Lines, FieldsOf, EndpointsOk, OwnFields;
    var first := Field("set", "1");
    var fs := OwnFields(c) + AllPeerFields(c.peers);
    OwnBehindSet(c);
    assert DeviceFields(c) + AllPeerFields(c.peers) == [first] + fs;
    DeviceFieldsOneLine(c);
    PeerFieldsOneLine(c.peers);
    OneLineAppend(DeviceFields(c), AllPeerFields(c.peers));
    BehindFirst(first, fs);
    LinesOfRequest(fs);
    FieldsOfLines(fs);
    var lines := ["set=1"] + LineTexts(fs) + [""];
    assert lines[1..|lines| - 1] == LineTexts(fs);
    SetHeader(c);
    SetAllAppend(BlankConfig(), OwnFields(c), AllPeerFields(c.peers));
    CleanIsCidr(c);
    SetPeers(c.(peers := []), c.peers);
    assert [] + c.peers == c.peers;
  }

  /** Equal requests come from equal configurations. */
  lemma {:induction false} SetRequestInjective(a: Config, b: Config)
    requires SetRequest(a).Ok? && Clean(a) && Clean(b)
    requires SetRequest(a) == SetRequest(b)
    ensures a == b
  {
    hide SetRequest, Clean, ReadSetRequest;
    SetRequestReadsBack(a);
    SetRequestReadsBack(b);
  }
}
