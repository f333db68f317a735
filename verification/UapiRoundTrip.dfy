/** What a SET request says, read back by the GET-response parser. */
module UapiRoundTrip {
  import opened Core
  import opened WireGuard
  import opened Text
  import opened KeyText
  import opened Address
  import Inet
  import opened Uapi

  // ----- lines of a rendered request -----

  predicate OneLine(f: Field) {
    '\n' !in f.key && '\n' !in f.value && '=' !in f.key
  }

  predicate OneLineEach(fs: seq<Field>) {
    forall i :: 0 <= i < |fs| ==> OneLine(fs[i])
  }

  function LineTexts(fs: seq<Field>): seq<string> {
    if fs == [] then [] else [LineOf(fs[0])] + LineTexts(fs[1..])
  }

  lemma {:induction false} LinesFirst(line: string, rest: string)
    requires '\n' !in line
    ensures Lines(line + "\n" + rest) == [line] + Lines(rest)
  {
    var t := line + "\n" + rest;
    assert t == line + ['\n'] + rest;
    FindSplit(line, '\n', rest);
    assert t[..|line|] == line && t[|line| + 1..] == rest;
  }

  lemma {:induction false} RenderAppend(a: seq<Field>, b: seq<Field>)
    ensures Render(a + b) == Render(a) + Render(b)
    decreases |b|
  {
    hide LineOf;
    if b == [] {
      assert a + b == a;
    } else {
      var n := |b|;
      RenderAppend(a, b[..n - 1]);
      assert (a + b)[..|a| + n - 1] == a + b[..n - 1];
    }
  }

  lemma {:induction false} RenderOne(f: Field)
    ensures Render([f]) == LineOf(f) + "\n"
  {
    assert [f][..0] == [];
  }

  lemma {:induction false} LineHasNoNewline(f: Field)
    requires OneLine(f)
    ensures '\n' !in LineOf(f)
  {
  }

  lemma {:induction false} LinesOfRender(fs: seq<Field>, tail: string)
    requires OneLineEach(fs)
    ensures Lines(Render(fs) + tail) == LineTexts(fs) + Lines(tail)
    decreases |fs|
  {
    hide Lines, LineOf;
    if fs == [] {
      assert Render(fs) + tail == tail;
    } else {
      var f, rest := fs[0], fs[1..];
      RenderAppend([f], rest);
      assert [f] + rest == fs;
      RenderOne(f);
      LinesOfRender(rest, tail);
      LineHasNoNewline(f);
      assert Render(fs) + tail == LineOf(f) + "\n" + (Render(rest) + tail);
      LinesFirst(LineOf(f), Render(rest) + tail);
    }
  }

  lemma {:induction false} FieldOfLine(f: Field)
    requires '=' !in f.key
    ensures FieldOf(LineOf(f)) == Some(f)
  {
    assert LineOf(f) == f.key + ['='] + f.value;
    FindSplit(f.key, '=', f.value);
    assert LineOf(f)[..|f.key|] == f.key && LineOf(f)[|f.key| + 1..] == f.value;
  }

  function ApplyFields(d: Device, fs: seq<Field>): Result<Device>
    decreases |fs|
  {
    if fs == [] then Ok(d)
    else
      var d' :- ApplyField(d, fs[0]);
      ApplyFields(d', fs[1..])
  }

  lemma {:induction false} ApplyLinesOfFields(d: Device, fs: seq<Field>)
    requires OneLineEach(fs)
    ensures ApplyLines(d, LineTexts(fs) + [""]) == ApplyFields(d, fs)
    decreases |fs|
  {
    var lines := LineTexts(fs) + [""];
    if fs == [] {
      assert lines == [""];
      assert ApplyLines(d, lines[1..]) == Ok(d);
    } else {
      assert OneLine(fs[0]);
      FieldOfLine(fs[0]);
      assert lines[1..] == LineTexts(fs[1..]) + [""];
      var r := ApplyField(d, fs[0]);
      if r.Ok? {
        ApplyLinesOfFields(r.value, fs[1..]);
      }
    }
  }

  lemma {:induction false} ApplyFieldsAppend(d: Device, a: seq<Field>, b: seq<Field>)
    ensures ApplyFields(d, a + b)
         == if ApplyFields(d, a).Err? then ApplyFields(d, a) else ApplyFields(ApplyFields(d, a).value, b)
    decreases |a|
  {
    if a == [] {
      assert a + b == b;
    } else {
      assert (a + b)[1..] == a[1..] + b;
      var r := ApplyField(d, a[0]);
      if r.Ok? {
        ApplyFieldsAppend(r.value, a[1..], b);
      }
    }
  }

  lemma {:induction false} ApplyOne(d: Device, f: Field)
    ensures ApplyFields(d, [f]) == ApplyField(d, f)
  {
    assert [f][1..] == [];
  }

  // ----- the names a request uses -----

  lemma {:induction false} DeviceNames()
    ensures NameOf("set") == OtherName
    ensures NameOf("private_key") == PrivateKeyName
    ensures NameOf("listen_port") == ListenPortName
    ensures NameOf("fwmark") == FwmarkName
    ensures NameOf("replace_peers") == OtherName
  {
    hide NameOf;
    DeviceFieldNames();
    DeviceFlagNames();
  }

  lemma {:induction false} DeviceFieldNames()
    ensures NameOf("private_key") == PrivateKeyName
    ensures NameOf("listen_port") == ListenPortName
    ensures NameOf("fwmark") == FwmarkName
  {
    assert "private_key"[0] == 'p' && "listen_port"[0] == 'l';
  }

  lemma {:induction false} DeviceFlagNames()
    ensures NameOf("set") == OtherName
    ensures NameOf("replace_peers") == OtherName
  {
    assert "replace_peers"[0] == 'r';
  }

  lemma {:induction false} PeerNames()
    ensures NameOf("public_key") == PublicKeyName
    ensures NameOf("preshared_key") == PresharedKeyName
    ensures NameOf("endpoint") == EndpointName
    ensures NameOf("persistent_keepalive_interval") == KeepaliveName
    ensures NameOf("allowed_ip") == AllowedIpName
  {
    assert "public_key"[0] == 'p' && "preshared_key"[0] == 'p' && "allowed_ip"[0] == 'a';
    assert "endpoint"[0] == 'e' && "rx_bytes"[0] == 'r' && "tx_bytes"[0] == 't';
  }

  lemma {:induction false} FlagNames()
    ensures NameOf("remove") == OtherName
    ensures NameOf("update_only") == OtherName
    ensures NameOf("replace_allowed_ips") == OtherName
  {
    assert "remove"[0] == 'r' && "fwmark"[0] == 'f';
    assert "update_only"[0] == 'u' && "private_key"[0] == 'p' && "listen_port"[0] == 'l';
  }

  // ----- one peer section -----

  function Updated(d: Device, q: Peer, u: Result<PeerUpdate>): Result<Device> {
    if u.Err? then Err(u.error) else Ok(On(d, UpdatePeer(q, u.value)))
  }

  lemma {:induction false} OnPeer(d: Device, q: Peer, f: Field)
    requires NameOf(f.key) != Errno && NameOf(f.key) != PublicKeyName
    ensures ApplyFields(On(d, q), [f])
         == Updated(d, q, ReadPeerField(NameOf(f.key), f.value))
  {
    ApplyOne(On(d, q), f);
    var ps := On(d, q).peers;
    assert ps[..|ps| - 1] == d.peers && ps[|ps| - 1] == q;
  }

  lemma {:induction false} NoFields(d: Device)
    ensures ApplyFields(d, []) == Ok(d)
  {
  }

  lemma {:induction false} PlainReads(value: string)
    ensures ReadPeerField(EndpointName, value) == Ok(SetEndpoint(value))
    ensures ReadPeerField(OtherName, value) == Ok(LeavePeer)
    ensures ReadDeviceField(OtherName, value) == Ok(LeaveDevice)
  {
    hide HexKey, Stoll, Stoul, ParseUnsignedInRange, ParseCIDR;
  }

  lemma {:induction false} KeyReads(k: Key)
    ensures ReadPeerField(PresharedKeyName, Hex(k)) == Ok(SetPresharedKey(k))
    ensures ReadDeviceField(PrivateKeyName, Hex(k)) == Ok(SetPrivateKey(k))
  {
    hide HexKey, Hex;
    HexRoundTrip(k);
  }

  lemma {:induction false} OnFlag(d: Device, q: Peer, on: bool, key: string)
    requires NameOf(key) == OtherName
    ensures ApplyFields(On(d, q), When(on, Field(key, "true"))) == Ok(On(d, q))
  {
    hide ApplyFields, NameOf, ReadPeerField;
    NoFields(On(d, q));
    PlainReads("true");
    if on {
      OnPeer(d, q, Field(key, "true"));
    }
  }

  lemma {:induction false} OnPresharedKey(d: Device, q: Peer, v: Option<Key>)
    ensures ApplyFields(On(d, q), OptKey("preshared_key", v)) == Ok(On(d, if v.Some? then q.(presharedKey := v) else q))
  {
    hide ApplyFields, NameOf, ReadPeerField, Hex;
    NoFields(On(d, q));
    if v.Some? {
      PeerNames();
      KeyReads(v.value);
      OnPeer(d, q, Field("preshared_key", Hex(v.value)));
    }
  }

  lemma {:induction false} OnEndpoint(d: Device, q: Peer, v: Option<string>)
    ensures ApplyFields(On(d, q), OptText("endpoint", v)) == Ok(On(d, if v.Some? then q.(endpoint := v) else q))
  {
    hide ApplyFields, NameOf, ReadPeerField;
    NoFields(On(d, q));
    if v.Some? {
      PeerNames();
      PlainReads(v.value);
      OnPeer(d, q, Field("endpoint", v.value));
    }
  }

  lemma {:induction false} Unsigned(n: nat, max: nat)
    requires n <= max < 0x1_0000_0000_0000_0000
    ensures ParseUnsignedInRange(Dec(n), max) == Ok(n)
  {
    StoulDigits(Dec(n));
  }

  lemma {:induction false} PortReads(n: u16)
    ensures ReadPeerField(KeepaliveName, Dec(n)) == Ok(SetKeepalive(n))
    ensures ReadDeviceField(ListenPortName, Dec(n)) == Ok(SetListenPort(n))
  {
    hide ParseUnsignedInRange;
    Unsigned(n, 65535);
  }

  lemma {:induction false} MarkReads(n: u32)
    ensures ReadDeviceField(FwmarkName, Dec(n)) == Ok(SetFwmark(n))
  {
    hide ParseUnsignedInRange;
    Unsigned(n, 0xFFFF_FFFF);
  }

  lemma {:induction false} OnKeepalive(d: Device, q: Peer, v: Option<u16>)
    ensures ApplyFields(On(d, q), OptU16("persistent_keepalive_interval", v))
         == Ok(On(d, if v.Some? then q.(persistentKeepaliveInterval := v.value) else q))
  {
    hide ApplyFields, NameOf, ReadPeerField, Dec;
    NoFields(On(d, q));
    if v.Some? {
      PeerNames();
      PortReads(v.value);
      OnPeer(d, q, Field("persistent_keepalive_interval", Dec(v.value)));
    }
  }

  predicate AllCidr(ips: seq<AllowedIP>) {
    forall i :: 0 <= i < |ips| ==> IsCidr(ips[i])
  }

  lemma {:induction false} OnIp(d: Device, q: Peer, a: AllowedIP)
    requires IsCidr(a)
    ensures ApplyFields(On(d, q), [Field("allowed_ip", FormatCIDR(a))]) == Ok(On(d, q.(allowedIPs := q.allowedIPs + [a])))
  {
    hide ParseCIDR, FormatCIDR, IsCidr;
    PeerNames();
    CidrRoundTrip(a);
    OnPeer(d, q, Field("allowed_ip", FormatCIDR(a)));
  }

  lemma {:induction false} OnIps(d: Device, q: Peer, ips: seq<AllowedIP>)
    requires AllCidr(ips)
    ensures ApplyFields(On(d, q), IpFields(ips)) == Ok(On(d, q.(allowedIPs := q.allowedIPs + ips)))
    decreases |ips|
  {
    hide IsCidr, FormatCIDR, ApplyField;
    if ips == [] {
      assert q.allowedIPs + ips == q.allowedIPs;
    } else {
      var first := [Field("allowed_ip", FormatCIDR(ips[0]))];
      assert IpFields(ips) == first + IpFields(ips[1..]);
      OnIp(d, q, ips[0]);
      ApplyFieldsAppend(On(d, q), first, IpFields(ips[1..]));
      var q' := q.(allowedIPs := q.allowedIPs + [ips[0]]);
      OnIps(d, q', ips[1..]);
      assert q.allowedIPs + [ips[0]] + ips[1..] == q.allowedIPs + ips;
    }
  }

  /** The peer a configuration entry reads back as. */
  function Reported(p: PeerConfig): Peer {
    Peer(p.publicKey, p.presharedKey, p.endpoint,
         if p.persistentKeepaliveInterval.Some? then p.persistentKeepaliveInterval.value else 0,
         0, 0, 0, p.allowedIPs, 0)
  }

  lemma {:induction false} ReadFlags(d: Device, p: PeerConfig)
    ensures ApplyFields(d, [Field("public_key", Hex(p.publicKey))]
                           + When(p.remove, Field("remove", "true"))
                           + When(p.updateOnly, Field("update_only", "true")))
         == Ok(On(d, BlankPeer(p.publicKey)))
  {
    hide NameOf, When;
    PeerNames();
    FlagNames();
    HexRoundTrip(p.publicKey);
    var a, b := [Field("public_key", Hex(p.publicKey))], When(p.remove, Field("remove", "true"));
    var q := BlankPeer(p.publicKey);
    ApplyOne(d, a[0]);
    ApplyFieldsAppend(d, a, b);
    OnFlag(d, q, p.remove, "remove");
    ApplyFieldsAppend(d, a + b, When(p.updateOnly, Field("update_only", "true")));
    OnFlag(d, q, p.updateOnly, "update_only");
  }

  lemma {:induction false} ReadHead(d: Device, p: PeerConfig)
    ensures ApplyFields(d, PeerHead(p)) == Ok(On(d, Reported(p).(allowedIPs := [])))
  {
    hide ApplyFields, OptKey, OptText, OptU16, When;
    var a := [Field("public_key", Hex(p.publicKey))]
             + When(p.remove, Field("remove", "true"))
             + When(p.updateOnly, Field("update_only", "true"));
    var b := a + OptKey("preshared_key", p.presharedKey);
    var c := b + OptText("endpoint", p.endpoint);
    var e := c + OptU16("persistent_keepalive_interval", p.persistentKeepaliveInterval);
    var q0 := BlankPeer(p.publicKey);
    var q1 := q0.(presharedKey := p.presharedKey);
    var q2 := q1.(endpoint := p.endpoint);
    var q3 := Reported(p).(allowedIPs := []);
    ReadFlags(d, p);
    ApplyFieldsAppend(d, a, OptKey("preshared_key", p.presharedKey));
    OnPresharedKey(d, q0, p.presharedKey);
    ApplyFieldsAppend(d, b, OptText("endpoint", p.endpoint));
    OnEndpoint(d, q1, p.endpoint);
    ApplyFieldsAppend(d, c, OptU16("persistent_keepalive_interval", p.persistentKeepaliveInterval));
    OnKeepalive(d, q2, p.persistentKeepaliveInterval);
    ApplyFieldsAppend(d, e, When(p.replaceAllowedIPs, Field("replace_allowed_ips", "true")));
    FlagNames();
    OnFlag(d, q3, p.replaceAllowedIPs, "replace_allowed_ips");
  }

  lemma {:induction false} ReadPeer(d: Device, p: PeerConfig)
    requires AllCidr(p.allowedIPs)
    ensures ApplyFields(d, PeerFields(p)) == Ok(On(d, Reported(p)))
  {
    hide AllCidr, PeerHead, IpFields, ApplyFields;
    var q := Reported(p).(allowedIPs := []);
    ReadHead(d, p);
    ApplyFieldsAppend(d, PeerHead(p), IpFields(p.allowedIPs));
    OnIps(d, q, p.allowedIPs);
    assert [] + p.allowedIPs == p.allowedIPs;
  }

  function ReportedAll(peers: seq<PeerConfig>): (r: seq<Peer>)
    ensures |r| == |peers|
    ensures forall i :: 0 <= i < |peers| ==> r[i] == Reported(peers[i])
  {
    seq(|peers|, i requires 0 <= i < |peers| => Reported(peers[i]))
  }

  predicate AllPeersCidr(peers: seq<PeerConfig>) {
    forall i :: 0 <= i < |peers| ==> AllCidr(peers[i].allowedIPs)
  }

  lemma {:induction false} ReadPeers(d: Device, peers: seq<PeerConfig>)
    requires AllPeersCidr(peers)
    ensures ApplyFields(d, AllPeerFields(peers)) == Ok(d.(peers := d.peers + ReportedAll(peers)))
    decreases |peers|
  {
    hide AllCidr, PeerFields, Reported, ApplyField;
    if peers == [] {
      assert d.peers + ReportedAll(peers) == d.peers;
    } else {
      ReadPeer(d, peers[0]);
      ApplyFieldsAppend(d, PeerFields(peers[0]), AllPeerFields(peers[1..]));
      ReadPeers(On(d, Reported(peers[0])), peers[1..]);
      assert d.peers + [Reported(peers[0])] + ReportedAll(peers[1..]) == d.peers + ReportedAll(peers);
    }
  }

  // ----- the device section -----

  function UpdatedDevice(d: Device, u: Result<DeviceUpdate>): Result<Device> {
    if u.Err? then Err(u.error) else Ok(UpdateDevice(d, u.value))
  }

  lemma {:induction false} OnDevice(d: Device, f: Field)
    requires d.peers == [] && NameOf(f.key) != Errno && NameOf(f.key) != PublicKeyName
    ensures ApplyFields(d, [f])
         == UpdatedDevice(d, ReadDeviceField(NameOf(f.key), f.value))
  {
    ApplyOne(d, f);
  }

  lemma {:induction false} DevicePrivateKey(d: Device, v: Option<Key>)
    requires d.peers == [] && d.privateKey == None
    ensures ApplyFields(d, OptKey("private_key", v)) == Ok(d.(privateKey := v))
  {
    hide ApplyFields, NameOf, ReadDeviceField, Hex;
    NoFields(d);
    if v.Some? {
      DeviceNames();
      KeyReads(v.value);
      OnDevice(d, Field("private_key", Hex(v.value)));
    }
  }

  lemma {:induction false} DevicePort(d: Device, v: Option<u16>)
    requires d.peers == [] && d.listenPort == 0
    ensures ApplyFields(d, OptU16("listen_port", v)) == Ok(d.(listenPort := if v.Some? then v.value else 0))
  {
    hide ApplyFields, NameOf, ReadDeviceField, Dec;
    NoFields(d);
    if v.Some? {
      DeviceNames();
      PortReads(v.value);
      OnDevice(d, Field("listen_port", Dec(v.value)));
    }
  }

  lemma {:induction false} DeviceMark(d: Device, v: Option<u32>)
    requires d.peers == [] && d.firewallMark == 0
    ensures ApplyFields(d, OptU32("fwmark", v)) == Ok(d.(firewallMark := if v.Some? then v.value else 0))
  {
    hide ApplyFields, NameOf, ReadDeviceField, Dec;
    NoFields(d);
    if v.Some? {
      DeviceNames();
      MarkReads(v.value);
      OnDevice(d, Field("fwmark", Dec(v.value)));
    }
  }

  lemma {:induction false} DeviceFlags(d: Device, on: bool)
    requires d.peers == []
    ensures ApplyFields(d, [Field("set", "1")]) == Ok(d)
    ensures ApplyFields(d, When(on, Field("replace_peers", "true"))) == Ok(d)
  {
    hide ApplyFields, NameOf, ReadDeviceField;
    NoFields(d);
    DeviceNames();
    PlainReads("1");
    PlainReads("true");
    OnDevice(d, Field("set", "1"));
    OnDevice(d, Field("replace_peers", "true"));
  }

  lemma {:induction false} ReadDevice(name: string, c: Config)
    ensures ApplyFields(BlankDevice(name, true), DeviceFields(c)) == Ok(ReportedDevice(name, c).(peers := []))
  {
    hide ApplyFields, OptKey, OptU16, OptU32, When;
    var a := [Field("set", "1")];
    var b := a + OptKey("private_key", c.privateKey);
    var e := b + OptU16("listen_port", c.listenPort);
    var f := e + OptU32("fwmark", c.firewallMark);
    var d0 := BlankDevice(name, true);
    var d1 := d0.(privateKey := c.privateKey);
    var d2 := d1.(listenPort := if c.listenPort.Some? then c.listenPort.value else 0);
    var d3 := d2.(firewallMark := if c.firewallMark.Some? then c.firewallMark.value else 0);
    DeviceFlags(d0, c.replacePeers);
    ApplyFieldsAppend(d0, a, OptKey("private_key", c.privateKey));
    DevicePrivateKey(d0, c.privateKey);
    ApplyFieldsAppend(d0, b, OptU16("listen_port", c.listenPort));
    DevicePort(d1, c.listenPort);
    ApplyFieldsAppend(d0, e, OptU32("fwmark", c.firewallMark));
    DeviceMark(d2, c.firewallMark);
    ApplyFieldsAppend(d0, f, When(c.replacePeers, Field("replace_peers", "true")));
    DeviceFlags(d3, c.replacePeers);
  }

  /** The device a configuration reads back as, its derived public key aside. */
  function ReportedDevice(name: string, c: Config): Device {
    Device(name, true, c.privateKey, None,
           if c.listenPort.Some? then c.listenPort.value else 0,
           if c.firewallMark.Some? then c.firewallMark.value else 0,
           ReportedAll(c.peers))
  }

  // ----- the whole request -----

  /** What a configuration must satisfy to survive the round trip: every address text is on one
      line, and every allowed ip is a value `ParseCIDR` can return. */
  predicate CleanIp(a: AllowedIP) {
    '\n' !in a.ip && IsCidr(a)
  }

  predicate CleanPeer(q: Peer) {
    && (q.endpoint.Some? ==> '\n' !in q.endpoint.value)
    && forall i :: 0 <= i < |q.allowedIPs| ==> CleanIp(q.allowedIPs[i])
  }

  predicate CleanPeers(peers: seq<Peer>) {
    forall i :: 0 <= i < |peers| ==> CleanPeer(peers[i])
  }

  predicate Clean(c: Config) {
    CleanPeers(ReportedAll(c.peers))
  }

  lemma {:induction false} HexIsOneLine(k: Key)
    ensures '\n' !in Hex(k)
  {
    var s := Hex(k);
    forall i | 0 <= i < |s|
      ensures s[i] != '\n'
    {
      var j := i / 2;
      assert s[2 * j] == HexChar(k[j] / 16) && s[2 * j + 1] == HexChar(k[j] % 16);
    }
  }

  lemma {:induction false} KeyFieldsOneLine(key: string, v: Option<Key>)
    requires '\n' !in key && '=' !in key
    ensures OneLineEach(OptKey(key, v))
  {
    if v.Some? {
      HexIsOneLine(v.value);
    }
  }

  lemma {:induction false} DeviceFieldsOneLine(c: Config)
    ensures OneLineEach(DeviceFields(c))
  {
    hide OneLineEach, OptKey, OptU16, OptU32, When;
    var a := [Field("set", "1")];
    var b := a + OptKey("private_key", c.privateKey);
    var d := b + OptU16("listen_port", c.listenPort);
    var e := d + OptU32("fwmark", c.firewallMark);
    SetOneLine();
    KeyFieldsOneLine("private_key", c.privateKey);
    NumFieldsOneLine("listen_port", c.listenPort, None);
    NumFieldsOneLine("fwmark", None, c.firewallMark);
    FlagOneLine(c.replacePeers, "replace_peers");
    OneLineAppend(a, OptKey("private_key", c.privateKey));
    OneLineAppend(b, OptU16("listen_port", c.listenPort));
    OneLineAppend(d, OptU32("fwmark", c.firewallMark));
    OneLineAppend(e, When(c.replacePeers, Field("replace_peers", "true")));
  }

  lemma {:induction false} SetOneLine()
    ensures OneLineEach([Field("set", "1")])
  {
  }

  lemma {:induction false} NumFieldsOneLine(key: string, v: Option<u16>, w: Option<u32>)
    requires '\n' !in key && '=' !in key
    ensures OneLineEach(OptU16(key, v)) && OneLineEach(OptU32(key, w))
  {
  }

  lemma {:induction false} FlagOneLine(on: bool, key: string)
    requires '\n' !in key && '=' !in key
    ensures OneLineEach(When(on, Field(key, "true")))
  {
  }

  lemma {:induction false} OneLineAppend(a: seq<Field>, b: seq<Field>)
    requires OneLineEach(a) && OneLineEach(b)
    ensures OneLineEach(a + b)
  {
    hide OneLine;
  }

  lemma {:induction false} FlagFieldsOneLine(p: PeerConfig)
    ensures OneLineEach(When(p.remove, Field("remove", "true")))
    ensures OneLineEach(When(p.updateOnly, Field("update_only", "true")))
    ensures OneLineEach(When(p.replaceAllowedIPs, Field("replace_allowed_ips", "true")))
  {
    hide OneLineEach, When;
    FlagOneLine(p.remove, "remove");
    FlagOneLine(p.updateOnly, "update_only");
    FlagOneLine(p.replaceAllowedIPs, "replace_allowed_ips");
  }

  lemma {:induction false} ValueFieldsOneLine(p: PeerConfig)
    ensures OneLineEach(OptKey("preshared_key", p.presharedKey))
    ensures OneLineEach(OptU16("persistent_keepalive_interval", p.persistentKeepaliveInterval))
  {
    hide OneLineEach, OptKey, OptU16;
    PresharedKeyIsPlain();
    KeyFieldsOneLine("preshared_key", p.presharedKey);
    KeepaliveIsPlain();
    NumFieldsOneLine("persistent_keepalive_interval", p.persistentKeepaliveInterval, None);
  }

  lemma {:induction false} PresharedKeyIsPlain()
    ensures '\n' !in "preshared_key" && '=' !in "preshared_key"
  {
  }

  lemma {:induction false} KeepaliveIsPlain()
    ensures '\n' !in "persistent_keepalive_interval" && '=' !in "persistent_keepalive_interval"
  {
  }

  lemma {:induction false} PeerHeadOneLine(p: PeerConfig)
    requires p.endpoint.Some? ==> '\n' !in p.endpoint.value
    ensures OneLineEach(PeerHead(p))
  {
    hide OneLineEach, When, OptKey, OptU16, OptText, Hex;
    var a := [Field("public_key", Hex(p.publicKey))];
    var b := a + When(p.remove, Field("remove", "true"));
    var c := b + When(p.updateOnly, Field("update_only", "true"));
    var d := c + OptKey("preshared_key", p.presharedKey);
    var e := d + OptText("endpoint", p.endpoint);
    var f := e + OptU16("persistent_keepalive_interval", p.persistentKeepaliveInterval);
    FlagFieldsOneLine(p);
    ValueFieldsOneLine(p);
    PublicKeyOneLine(p.publicKey);
    EndpointOneLine(p.endpoint);
    OneLineAppend(a, When(p.remove, Field("remove", "true")));
    OneLineAppend(b, When(p.updateOnly, Field("update_only", "true")));
    OneLineAppend(c, OptKey("preshared_key", p.presharedKey));
    OneLineAppend(d, OptText("endpoint", p.endpoint));
    OneLineAppend(e, OptU16("persistent_keepalive_interval", p.persistentKeepaliveInterval));
    OneLineAppend(f, When(p.replaceAllowedIPs, Field("replace_allowed_ips", "true")));
  }

  lemma {:induction false} PublicKeyOneLine(k: Key)
    ensures OneLineEach([Field("public_key", Hex(k))])
  {
    HexIsOneLine(k);
  }

  lemma {:induction false} EndpointOneLine(v: Option<string>)
    requires v.Some? ==> '\n' !in v.value
    ensures OneLineEach(OptText("endpoint", v))
  {
  }

  lemma {:induction false} IpFieldsOneLine(ips: seq<AllowedIP>)
    requires forall i :: 0 <= i < |ips| ==> '\n' !in ips[i].ip
    ensures OneLineEach(IpFields(ips))
  {
    forall i | 0 <= i < |ips|
      ensures OneLine(IpFields(ips)[i])
    {
      assert IpFields(ips)[i] == Field("allowed_ip", FormatCIDR(ips[i]));
    }
  }

  lemma {:induction false} PeerFieldsOneLine(peers: seq<PeerConfig>)
    requires CleanPeers(ReportedAll(peers))
    ensures OneLineEach(AllPeerFields(peers))
    decreases |peers|
  {
    hide OneLine, IsCidr, PeerHead, IpFields;
    if peers != [] {
      var q := ReportedAll(peers)[0];
      assert CleanPeer(q);
      assert forall i :: 0 <= i < |q.allowedIPs| ==> CleanIp(q.allowedIPs[i]);
      PeerHeadOneLine(peers[0]);
      IpFieldsOneLine(peers[0].allowedIPs);
      assert ReportedAll(peers)[1..] == ReportedAll(peers[1..]);
      PeerFieldsOneLine(peers[1..]);
    }
  }

  /** A clean configuration reads back field for field. */
  lemma {:induction false} CleanReadsBack(name: string, c: Config)
    requires Clean(c)
    ensures ApplyLines(BlankDevice(name, true), Lines(Render(DeviceFields(c) + AllPeerFields(c.peers)) + "\n"))
         == Ok(ReportedDevice(name, c))
  {
    hide OneLine, ApplyFields, DeviceFields, AllPeerFields, CleanPeers, AllPeersCidr, Render, ApplyLines;
    var fs := DeviceFields(c) + AllPeerFields(c.peers);
    var d0, d1 := BlankDevice(name, true), ReportedDevice(name, c).(peers := []);
    DeviceFieldsOneLine(c);
    PeerFieldsOneLine(c.peers);
    LinesOfRender(fs, "\n");
    LastLine();
    ApplyLinesOfFields(d0, fs);
    ApplyFieldsAppend(d0, DeviceFields(c), AllPeerFields(c.peers));
    ReadDevice(name, c);
    CleanIsCidr(c);
    ReadPeers(d1, c.peers);
    assert [] + ReportedAll(c.peers) == ReportedAll(c.peers);
  }

  lemma {:induction false} LastLine()
    ensures Lines("\n") == [""]
  {
    LinesFirst("", "");
    assert "" + "\n" + "" == "\n";
  }

  lemma {:induction false} CleanIsCidr(c: Config)
    requires Clean(c)
    ensures AllPeersCidr(c.peers)
  {
    hide IsCidr;
    forall i | 0 <= i < |c.peers|
      ensures AllCidr(c.peers[i].allowedIPs)
    {
      assert CleanPeer(ReportedAll(c.peers)[i]);
      forall k | 0 <= k < |c.peers[i].allowedIPs|
        ensures IsCidr(c.peers[i].allowedIPs[k])
      {
        assert CleanIp(ReportedAll(c.peers)[i].allowedIPs[k]);
      }
    }
  }

  // ----- whatever a response parses to is clean -----

  lemma {:induction false} ParsedIpClean(value: string)
    requires '\n' !in value && ParseCIDR(value).Ok?
    ensures CleanIp(ParseCIDR(value).value)
  {
    hide Inet.Pton6, Inet.Pton4, CStr;
    CidrValues(value);
    var slash := Find(value, '/').value;
    assert forall i :: 0 <= i < slash ==> value[..slash][i] == value[i];
  }

  lemma {:induction false} UpdateKeepsClean(q: Peer, name: Name, value: string)
    requires CleanPeer(q) && '\n' !in value && ReadPeerField(name, value).Ok?
    ensures CleanPeer(UpdatePeer(q, ReadPeerField(name, value).value))
  {
    hide HexKey, Stoll, Stoul, ParseUnsignedInRange, ParseCIDR, CleanIp;
    if name == AllowedIpName {
      ParsedIpClean(value);
    }
  }

  lemma {:induction false} AddedClean(peers: seq<Peer>, p: Peer)
    requires CleanPeers(peers) && CleanPeer(p)
    ensures CleanPeers(peers + [p])
    ensures peers != [] ==> CleanPeers(ReplaceLast(peers, p))
  {
    hide CleanPeer;
  }

  lemma {:induction false} LastClean(peers: seq<Peer>)
    requires CleanPeers(peers) && peers != []
    ensures CleanPeer(peers[|peers| - 1])
  {
    hide CleanPeer;
  }

  lemma {:induction false} FieldKeepsClean(d: Device, f: Field)
    requires CleanPeers(d.peers) && '\n' !in f.value && ApplyField(d, f).Ok?
    ensures CleanPeers(ApplyField(d, f).value.peers)
  {
    hide ReadPeerField, ReadDeviceField, UpdatePeer, NameOf, CheckErrno, HexKey, CleanPeer, CleanPeers, ReplaceLast;
    var name := NameOf(f.key);
    if name == PublicKeyName {
      BlankIsClean(HexKey(f.value).value);
      AddedClean(d.peers, BlankPeer(HexKey(f.value).value));
    } else if name != Errno && d.peers != [] {
      var last := d.peers[|d.peers| - 1];
      LastClean(d.peers);
      UpdateKeepsClean(last, name, f.value);
      AddedClean(d.peers, UpdatePeer(last, ReadPeerField(name, f.value).value));
    }
  }

  lemma {:induction false} BlankIsClean(k: Key)
    ensures CleanPeer(BlankPeer(k))
  {
  }

  lemma {:induction false} LineKeepsClean(d: Device, line: string)
    requires CleanPeers(d.peers) && '\n' !in line && ApplyLine(d, line).Ok?
    ensures CleanPeers(ApplyLine(d, line).value.peers)
  {
    hide ApplyField, CleanPeers;
    var f := FieldOf(line);
    if f.Some? {
      assert forall i :: 0 <= i < |f.value.value| ==> f.value.value[i] in line;
      FieldKeepsClean(d, f.value);
    }
  }

  lemma {:induction false} ParseIsClean(d: Device, lines: seq<string>)
    requires CleanPeers(d.peers) && forall i :: 0 <= i < |lines| ==> '\n' !in lines[i]
    requires ApplyLines(d, lines).Ok?
    ensures CleanPeers(ApplyLines(d, lines).value.peers)
    decreases |lines|
  {
    hide ApplyLine, CleanPeers;
    if lines != [] {
      LineKeepsClean(d, lines[0]);
      ParseIsClean(ApplyLine(d, lines[0]).value, lines[1..]);
    }
  }

  /** The UAPI round trip, with its exact condition. For a configuration whose request builds,
      reading the request back yields its device fields and one peer per entry, in order, if and
      only if no endpoint or address text holds a line feed and every allowed ip is a value
      `ParseCIDR` returns. (Endpoints such as "1.2.3.4:\n80" pass validation because the port
      parser skips leading white space, so the condition is not vacuous.) */
  lemma {:induction false} UapiRoundTrip(name: string, c: Config, derive: Key -> Key)
    requires SetRequest(c).Ok?
    ensures var r := GetResponse(name, SetRequest(c).value, derive);
      (r.Ok? && r.value.(publicKey := None) == ReportedDevice(name, c) && GoesWithPrivateKey(r.value, derive))
        <==> Clean(c)
  {
    hide ApplyLines, Lines, Render, DeviceFields, AllPeerFields, EndpointsOk, CleanPeers, GoesWithPrivateKey;
    var text := SetRequest(c).value;
    if GetResponse(name, text, derive).Ok? {
      PublicKeyDerived(name, text, derive);
    }
    if Clean(c) {
      CleanReadsBack(name, c);
    }
    var r := ApplyLines(BlankDevice(name, true), Lines(text));
    if r.Ok? {
      NoPeersClean();
      ParseIsClean(BlankDevice(name, true), Lines(text));
    }
  }

  /** One peer whose endpoint holds a line feed. */
  function LineFeedConfig(key: Key): Config {
    Config(None, None, None, false, [PeerConfig(key, false, false, None, Some("1.2.3.4:\n80"), None, false, [])])
  }

  /** The condition fails on a configuration that builds: its request does not read back. */
  lemma {:induction false} LineFeedBreaksRoundTrip(name: string, key: Key, derive: Key -> Key)
    ensures var c := LineFeedConfig(key);
      && SetRequest(c).Ok? && !Clean(c)
      && var r := GetResponse(name, SetRequest(c).value, derive);
         !(r.Ok? && r.value.(publicKey := None) == ReportedDevice(name, c))
  {
    hide ParseEndpoint, Render, DeviceFields, AllPeerFields, GetResponse;
    var c := LineFeedConfig(key);
    LineFeedEndpoint();
    assert EndpointOk(c.peers[0]);
    assert EndpointsOk(c.peers) by {
      assert c.peers[1..] == [];
    }
    assert !CleanPeer(ReportedAll(c.peers)[0]) by {
      var text := "1.2.3.4:\n80";
      assert text[8] == '\n';
    }
    UapiRoundTrip(name, c, derive);
    if GetResponse(name, SetRequest(c).value, derive).Ok? {
      PublicKeyDerived(name, SetRequest(c).value, derive);
    }
  }

  lemma {:induction false} NoPeersClean()
    ensures CleanPeers([])
  {
  }
}
