/** What a GET response says, line by line and in any order, and that the parser hears it. Values
    are spelt as the "Configuration Protocol" section of the WireGuard cross-platform userspace
    protocol has them; lines may come in any order inside a section, lines of fields that have
    their default may be left out, and unknown lines may stand anywhere. */
module UapiGet {
  import opened Core
  import opened WireGuard
  import opened Text
  import opened KeyText
  import opened Address
  import opened Uapi
  import opened UapiRoundTrip
  import opened UapiSections

  function SignedDec(n: int): string {
    if n >= 0 then Dec(n) else "-" + Dec(0 - n)
  }

  predicate Keyed(line: string, key: string) {
    FieldOf(line).Some? && FieldOf(line).value.key == key
  }

  predicate HasKey(lines: seq<string>, key: string)
    decreases |lines|
  {
    lines != [] && (Keyed(lines[0], key) || HasKey(lines[1..], key))
  }

  // ----- peer sections -----

  /** What a line of a peer section, allowed ips aside, says of the peer. */
  predicate PeerFieldSays(f: Field, p: Peer) {
    if f.key == "public_key" then false
    else if f.key == "errno" then f.value == "0"
    else if f.key == "preshared_key" then p.presharedKey.Some? && f.value == Hex(p.presharedKey.value)
    else if f.key == "endpoint" then p.endpoint == Some(f.value)
    else if f.key == "last_handshake_time_sec" then f.value == SignedDec(p.lastHandshakeTimeSec)
    else if f.key == "rx_bytes" then f.value == Dec(p.receiveBytes)
    else if f.key == "tx_bytes" then f.value == Dec(p.transmitBytes)
    else if f.key == "persistent_keepalive_interval" then f.value == Dec(p.persistentKeepaliveInterval)
    else if f.key == "protocol_version" then f.value == Dec(p.protocolVersion)
    else true
  }

  predicate PeerLineSays(line: string, p: Peer) {
    FieldOf(line).Some? ==> PeerFieldSays(FieldOf(line).value, p)
  }

  predicate AllPeerLinesSay(lines: seq<string>, p: Peer) {
    forall i :: 0 <= i < |lines| ==> PeerLineSays(lines[i], p)
  }

  /** The allowed_ip lines are those of `ips`, in order. */
  predicate IpLinesTold(lines: seq<string>, ips: seq<AllowedIP>)
    decreases |lines|
  {
    if lines == [] then ips == []
    else if !Keyed(lines[0], "allowed_ip") then IpLinesTold(lines[1..], ips)
    else
      && ips != [] && IsCidr(ips[0]) && FieldOf(lines[0]).value.value == FormatCIDR(ips[0])
      && IpLinesTold(lines[1..], ips[1..])
  }

  /** A field no line of `lines` speaks of is already that of p. */
  predicate LinesKnown(lines: seq<string>, q: Peer, p: Peer) {
    && q.publicKey == p.publicKey
    && (HasKey(lines, "preshared_key") || q.presharedKey == p.presharedKey)
    && (HasKey(lines, "endpoint") || q.endpoint == p.endpoint)
    && (HasKey(lines, "last_handshake_time_sec") || q.lastHandshakeTimeSec == p.lastHandshakeTimeSec)
    && (HasKey(lines, "rx_bytes") || q.receiveBytes == p.receiveBytes)
    && (HasKey(lines, "tx_bytes") || q.transmitBytes == p.transmitBytes)
    && (HasKey(lines, "persistent_keepalive_interval") || q.persistentKeepaliveInterval == p.persistentKeepaliveInterval)
    && (HasKey(lines, "protocol_version") || q.protocolVersion == p.protocolVersion)
  }

  predicate SectionTold(lines: seq<string>, p: Peer) {
    && lines != [] && FieldOf(lines[0]) == Some(Field("public_key", Hex(p.publicKey)))
    && AllPeerLinesSay(lines[1..], p) && IpLinesTold(lines[1..], p.allowedIPs)
    && LinesKnown(lines[1..], BlankPeer(p.publicKey), p)
  }

  /** The peer with the field a key names taken from p. */
  function TakenKey(key: string, q: Peer, p: Peer): Peer {
    if key == "preshared_key" then q.(presharedKey := p.presharedKey)
    else if key == "endpoint" then q.(endpoint := p.endpoint)
    else if key == "last_handshake_time_sec" then q.(lastHandshakeTimeSec := p.lastHandshakeTimeSec)
    else if key == "rx_bytes" then q.(receiveBytes := p.receiveBytes)
    else if key == "tx_bytes" then q.(transmitBytes := p.transmitBytes)
    else if key == "persistent_keepalive_interval" then q.(persistentKeepaliveInterval := p.persistentKeepaliveInterval)
    else if key == "protocol_version" then q.(protocolVersion := p.protocolVersion)
    else q
  }

  // ----- single lines -----

  lemma {:induction false} StollSigned(n: i64)
    ensures Stoll(SignedDec(n)).Ok? && Stoll(SignedDec(n)).value.value == n
  {
    if n >= 0 {
      ScanDigits(Dec(n));
    } else {
      ScanNegative(Dec(0 - n));
    }
  }

  lemma {:induction false} CountersRead(p: Peer)
    ensures ReadPeerField(HandshakeName, SignedDec(p.lastHandshakeTimeSec)) == Ok(SetHandshake(p.lastHandshakeTimeSec))
    ensures ReadPeerField(RxName, Dec(p.receiveBytes)) == Ok(SetRx(p.receiveBytes))
    ensures ReadPeerField(TxName, Dec(p.transmitBytes)) == Ok(SetTx(p.transmitBytes))
  {
    hide Stoll, Stoul, SignedDec;
    StollSigned(p.lastHandshakeTimeSec);
    StoulDigits(Dec(p.receiveBytes));
    StoulDigits(Dec(p.transmitBytes));
  }

  lemma {:induction false} ScalarsRead(p: Peer)
    ensures ReadPeerField(KeepaliveName, Dec(p.persistentKeepaliveInterval)) == Ok(SetKeepalive(p.persistentKeepaliveInterval))
    ensures ReadPeerField(ProtocolName, Dec(p.protocolVersion)) == Ok(SetProtocol(p.protocolVersion))
    ensures p.presharedKey.Some? ==>
      ReadPeerField(PresharedKeyName, Hex(p.presharedKey.value)) == Ok(SetPresharedKey(p.presharedKey.value))
  {
    hide ParseUnsignedInRange, HexKey, Hex;
    Unsigned(p.persistentKeepaliveInterval, 65535);
    Unsigned(p.protocolVersion, 0xFFFF_FFFF);
    if p.presharedKey.Some? {
      HexRoundTrip(p.presharedKey.value);
    }
  }

  lemma {:induction false} ZeroErrno()
    ensures CheckErrno("0") == Ok(())
  {
    assert "0" == Dec(0);
    ScanDigits(Dec(0));
  }

  lemma {:induction false} CounterNames()
    ensures NameOf("last_handshake_time_sec") == HandshakeName
    ensures NameOf("rx_bytes") == RxName
    ensures NameOf("tx_bytes") == TxName
  {
    assert "last_handshake_time_sec"[0] == 'l' && "rx_bytes"[0] == 'r' && "tx_bytes"[0] == 't';
  }

  lemma {:induction false} OtherNames()
    ensures NameOf("protocol_version") == ProtocolName
    ensures NameOf("errno") == Errno
  {
    assert "protocol_version"[1] == 'r' && "protocol_version"[2] == 'o';
    assert "preshared_key"[2] == 'e' && "private_key"[2] == 'i' && "public_key"[1] == 'u' && "persistent_keepalive_interval"[1] == 'e';
  }

  /** A key outside the nine a peer section knows changes nothing. */
  lemma {:induction false} StrangeKey(key: string, value: string)
    requires key != "errno" && key != "public_key" && key != "preshared_key" && key != "endpoint"
    requires key != "last_handshake_time_sec" && key != "rx_bytes" && key != "tx_bytes"
    requires key != "persistent_keepalive_interval" && key != "protocol_version" && key != "allowed_ip"
    ensures NameOf(key) != Errno && ReadPeerField(NameOf(key), value) == Ok(LeavePeer)
  {
    hide NameOf, HexKey, Stoll, Stoul, ParseUnsignedInRange, ParseCIDR;
    if NameOf(key) != OtherName {
      KeyOfName(key);
    }
  }

  lemma {:induction false} CounterHeard(f: Field, q: Peer, p: Peer)
    requires PeerFieldSays(f, p)
    requires f.key == "last_handshake_time_sec" || f.key == "rx_bytes" || f.key == "tx_bytes"
    ensures NameOf(f.key) != Errno && ReadPeerField(NameOf(f.key), f.value).Ok?
    ensures UpdatePeer(q, ReadPeerField(NameOf(f.key), f.value).value) == TakenKey(f.key, q, p)
  {
    hide NameOf, ReadPeerField, SignedDec, Dec;
    CounterNames();
    CountersRead(p);
  }

  lemma {:induction false} ScalarFieldHeard(f: Field, q: Peer, p: Peer)
    requires PeerFieldSays(f, p)
    requires f.key == "persistent_keepalive_interval" || f.key == "protocol_version" || f.key == "preshared_key"
    ensures NameOf(f.key) != Errno && ReadPeerField(NameOf(f.key), f.value).Ok?
    ensures UpdatePeer(q, ReadPeerField(NameOf(f.key), f.value).value) == TakenKey(f.key, q, p)
  {
    hide NameOf, ReadPeerField, Dec, Hex;
    OtherNames();
    PeerNames();
    ScalarsRead(p);
  }

  lemma {:induction false} EndpointHeard(f: Field, q: Peer, p: Peer)
    requires PeerFieldSays(f, p) && f.key == "endpoint"
    ensures NameOf(f.key) != Errno && ReadPeerField(NameOf(f.key), f.value).Ok?
    ensures UpdatePeer(q, ReadPeerField(NameOf(f.key), f.value).value) == TakenKey(f.key, q, p)
  {
    hide NameOf;
    PeerNames();
  }

  predicate CounterKey(key: string) {
    key == "last_handshake_time_sec" || key == "rx_bytes" || key == "tx_bytes"
  }

  predicate ScalarKey(key: string) {
    key == "persistent_keepalive_interval" || key == "protocol_version" || key == "preshared_key"
  }

  lemma {:induction false} StrangeTaken(f: Field, q: Peer, p: Peer)
    requires PeerFieldSays(f, p) && !CounterKey(f.key) && !ScalarKey(f.key)
    requires f.key != "endpoint" && f.key != "errno" && f.key != "allowed_ip"
    ensures NameOf(f.key) != Errno && ReadPeerField(NameOf(f.key), f.value) == Ok(LeavePeer)
    ensures TakenKey(f.key, q, p) == q
  {
    hide NameOf, ReadPeerField;
    StrangeKey(f.key, f.value);
  }

  lemma {:induction false} ErrnoHeard(f: Field, q: Peer, p: Peer)
    requires PeerFieldSays(f, p) && f.key == "errno"
    ensures NameOf(f.key) == Errno && CheckErrno(f.value) == Ok(()) && TakenKey(f.key, q, p) == q
  {
    hide NameOf, CheckErrno;
    OtherNames();
    ZeroErrno();
  }

  lemma {:induction false} LineHeard(line: string, q: Peer, p: Peer)
    requires PeerLineSays(line, p) && !Keyed(line, "allowed_ip")
    ensures PeerLine(q, line) == Ok(if FieldOf(line).Some? then TakenKey(FieldOf(line).value.key, q, p) else q)
  {
    hide FieldOf, NameOf, ReadPeerField, UpdatePeer, TakenKey, PeerFieldSays, CheckErrno;
    if FieldOf(line).Some? {
      var f := FieldOf(line).value;
      if CounterKey(f.key) {
        CounterHeard(f, q, p);
      } else if ScalarKey(f.key) {
        ScalarFieldHeard(f, q, p);
      } else if f.key == "endpoint" {
        EndpointHeard(f, q, p);
      } else if f.key == "errno" {
        ErrnoHeard(f, q, p);
      } else {
        StrangeTaken(f, q, p);
        LeavesPeer(q);
      }
    }
  }

  lemma {:induction false} LeavesPeer(q: Peer)
    ensures UpdatePeer(q, LeavePeer) == q
  {
  }

  lemma {:induction false} IpLineHeard(line: string, q: Peer, a: AllowedIP)
    requires Keyed(line, "allowed_ip") && IsCidr(a) && FieldOf(line).value.value == FormatCIDR(a)
    ensures PeerLine(q, line) == Ok(q.(allowedIPs := q.allowedIPs + [a]))
  {
    hide FieldOf, NameOf, ParseCIDR, FormatCIDR, IsCidr;
    PeerNames();
    CidrRoundTrip(a);
  }

  // ----- sections -----

  lemma {:induction false} KnownStep(lines: seq<string>, q: Peer, p: Peer)
    requires lines != [] && LinesKnown(lines, q, p)
    ensures LinesKnown(lines[1..], if FieldOf(lines[0]).Some? then TakenKey(FieldOf(lines[0]).value.key, q, p) else q, p)
  {
    hide FieldOf;
  }

  lemma {:induction false} IpKnownStep(lines: seq<string>, q: Peer, p: Peer, ips: seq<AllowedIP>)
    requires lines != [] && Keyed(lines[0], "allowed_ip") && LinesKnown(lines, q, p)
    ensures LinesKnown(lines[1..], q.(allowedIPs := ips), p)
  {
    hide FieldOf;
  }

  lemma {:induction false} AllSayTail(lines: seq<string>, p: Peer)
    requires lines != [] && AllPeerLinesSay(lines, p)
    ensures PeerLineSays(lines[0], p) && AllPeerLinesSay(lines[1..], p)
  {
    hide PeerLineSays;
    assert forall i :: 0 <= i < |lines| - 1 ==> lines[1..][i] == lines[i + 1];
  }

  lemma {:induction false} NothingUnsaid(q: Peer, p: Peer)
    requires LinesKnown([], q, p) && q.allowedIPs + [] == p.allowedIPs
    ensures q == p
  {
    assert q.allowedIPs + [] == q.allowedIPs;
  }

  lemma {:induction false} TakenKeepsIps(key: string, q: Peer, p: Peer)
    ensures TakenKey(key, q, p).allowedIPs == q.allowedIPs
  {
  }

  lemma {:induction false} BodyHeard(lines: seq<string>, q: Peer, p: Peer, ips: seq<AllowedIP>)
    requires AllPeerLinesSay(lines, p) && IpLinesTold(lines, ips) && LinesKnown(lines, q, p) && q.allowedIPs + ips == p.allowedIPs
    ensures PeerBody(q, lines) == Ok(p)
    decreases |lines|
  {
    hide PeerLine, PeerLineSays, AllPeerLinesSay, LinesKnown, TakenKey, FieldOf, FormatCIDR, IsCidr;
    if lines == [] {
      NothingUnsaid(q, p);
    } else {
      var line := lines[0];
      AllSayTail(lines, p);
      if Keyed(line, "allowed_ip") {
        IpLineHeard(line, q, ips[0]);
        IpKnownStep(lines, q, p, q.allowedIPs + [ips[0]]);
        assert q.allowedIPs + [ips[0]] + ips[1..] == q.allowedIPs + ips;
        BodyHeard(lines[1..], q.(allowedIPs := q.allowedIPs + [ips[0]]), p, ips[1..]);
      } else {
        var taken := if FieldOf(line).Some? then TakenKey(FieldOf(line).value.key, q, p) else q;
        LineHeard(line, q, p);
        KnownStep(lines, q, p);
        if FieldOf(line).Some? {
          TakenKeepsIps(FieldOf(line).value.key, q, p);
        }
        BodyHeard(lines[1..], taken, p, ips);
      }
    }
  }

  lemma {:induction false} SaysNoStart(line: string, p: Peer)
    requires PeerLineSays(line, p)
    ensures !StartsPeer(line)
  {
    hide NameOf, FieldOf;
    if StartsPeer(line) {
      KeyOfName(FieldOf(line).value.key);
    }
  }

  /** A section that says a peer is read as that peer, whatever the order of its lines. */
  lemma {:induction false} SectionHeard(lines: seq<string>, p: Peer)
    requires SectionTold(lines, p)
    ensures StartsPeer(lines[0]) && (forall i :: 1 <= i < |lines| ==> !StartsPeer(lines[i]))
    ensures Section(lines) == Ok(p)
  {
    hide AllPeerLinesSay, IpLinesTold, LinesKnown, HexKey, Hex, NameOf, FieldOf, PeerBody, StartsPeer;
    PeerNames();
    HexRoundTrip(p.publicKey);
    StartsWithKey(lines[0], Hex(p.publicKey));
    assert [] + p.allowedIPs == p.allowedIPs;
    BodyHeard(lines[1..], BlankPeer(p.publicKey), p, p.allowedIPs);
    forall i | 1 <= i < |lines|
      ensures !StartsPeer(lines[i])
    {
      SayingLine(lines[1..], p, i - 1);
      SaysNoStart(lines[i], p);
    }
  }

  lemma {:induction false} StartsWithKey(line: string, value: string)
    requires FieldOf(line) == Some(Field("public_key", value))
    ensures StartsPeer(line)
  {
    hide NameOf;
    PeerNames();
  }

  lemma {:induction false} SayingLine(lines: seq<string>, p: Peer, i: nat)
    requires i < |lines| && AllPeerLinesSay(lines, p)
    ensures PeerLineSays(lines[i], p)
  {
  }

  // ----- the header -----

  predicate DeviceFieldSays(f: Field, d: Device) {
    if f.key == "public_key" then false
    else if f.key == "errno" then f.value == "0"
    else if f.key == "private_key" then d.privateKey.Some? && f.value == Hex(d.privateKey.value)
    else if f.key == "listen_port" then f.value == Dec(d.listenPort)
    else if f.key == "fwmark" then f.value == Dec(d.firewallMark)
    else true
  }

  predicate DeviceLineSays(line: string, d: Device) {
    FieldOf(line).Some? ==> DeviceFieldSays(FieldOf(line).value, d)
  }

  predicate AllDeviceLinesSay(lines: seq<string>, d: Device) {
    forall i :: 0 <= i < |lines| ==> DeviceLineSays(lines[i], d)
  }

  predicate HeaderKnown(lines: seq<string>, e: Device, d: Device) {
    && (HasKey(lines, "private_key") || e.privateKey == d.privateKey)
    && (HasKey(lines, "listen_port") || e.listenPort == d.listenPort)
    && (HasKey(lines, "fwmark") || e.firewallMark == d.firewallMark)
  }

  predicate HeaderTold(lines: seq<string>, d: Device) {
    AllDeviceLinesSay(lines, d) && HeaderKnown(lines, BlankDevice(d.name, true), d)
  }

  function DeviceTakenKey(key: string, e: Device, d: Device): Device {
    if key == "private_key" then e.(privateKey := d.privateKey)
    else if key == "listen_port" then e.(listenPort := d.listenPort)
    else if key == "fwmark" then e.(firewallMark := d.firewallMark)
    else e
  }

  lemma {:induction false} StrangeDeviceKey(key: string, value: string)
    requires key != "errno" && key != "private_key" && key != "listen_port" && key != "fwmark"
    ensures NameOf(key) != Errno && ReadDeviceField(NameOf(key), value) == Ok(LeaveDevice)
  {
    hide NameOf, HexKey, ParseUnsignedInRange;
    if NameOf(key) != OtherName {
      KeyOfName(key);
    }
  }

  lemma {:induction false} DeviceScalarsRead(d: Device)
    ensures ReadDeviceField(ListenPortName, Dec(d.listenPort)) == Ok(SetListenPort(d.listenPort))
    ensures ReadDeviceField(FwmarkName, Dec(d.firewallMark)) == Ok(SetFwmark(d.firewallMark))
    ensures d.privateKey.Some? ==> ReadDeviceField(PrivateKeyName, Hex(d.privateKey.value)) == Ok(SetPrivateKey(d.privateKey.value))
  {
    hide ParseUnsignedInRange, HexKey, Hex;
    PortReads(d.listenPort);
    MarkReads(d.firewallMark);
    if d.privateKey.Some? {
      HexRoundTrip(d.privateKey.value);
    }
  }

  lemma {:induction false} DeviceFieldHeard(f: Field, e: Device, d: Device)
    requires DeviceFieldSays(f, d) && f.key != "errno"
    ensures NameOf(f.key) != Errno && ReadDeviceField(NameOf(f.key), f.value).Ok?
    ensures UpdateDevice(e, ReadDeviceField(NameOf(f.key), f.value).value) == DeviceTakenKey(f.key, e, d)
  {
    hide NameOf, ReadDeviceField, Dec, Hex;
    DeviceNames();
    DeviceScalarsRead(d);
    if f.key != "private_key" && f.key != "listen_port" && f.key != "fwmark" {
      StrangeDeviceKey(f.key, f.value);
    }
  }

  lemma {:induction false} DeviceLineHeard(line: string, e: Device, d: Device)
    requires DeviceLineSays(line, d)
    ensures HeaderLine(e, line) == Ok(if FieldOf(line).Some? then DeviceTakenKey(FieldOf(line).value.key, e, d) else e)
    ensures !StartsPeer(line)
  {
    hide FieldOf, NameOf, ReadDeviceField, UpdateDevice, DeviceTakenKey, CheckErrno;
    if FieldOf(line).Some? {
      var f := FieldOf(line).value;
      if f.key == "errno" {
        OtherNames();
        ZeroErrno();
        NoDeviceErrno(e, d);
      } else {
        DeviceFieldHeard(f, e, d);
      }
      if StartsPeer(line) {
        KeyOfName(f.key);
      }
    }
  }

  lemma {:induction false} NoDeviceErrno(e: Device, d: Device)
    ensures DeviceTakenKey("errno", e, d) == e
  {
  }

  lemma {:induction false} HeaderStep(lines: seq<string>, e: Device, d: Device)
    requires lines != [] && HeaderKnown(lines, e, d)
    ensures HeaderKnown(lines[1..], if FieldOf(lines[0]).Some? then DeviceTakenKey(FieldOf(lines[0]).value.key, e, d) else e, d)
  {
    hide FieldOf;
  }

  lemma {:induction false} AllDeviceSayTail(lines: seq<string>, d: Device)
    requires lines != [] && AllDeviceLinesSay(lines, d)
    ensures DeviceLineSays(lines[0], d) && AllDeviceLinesSay(lines[1..], d)
  {
    hide DeviceLineSays;
    assert forall i :: 0 <= i < |lines| - 1 ==> lines[1..][i] == lines[i + 1];
  }

  /** Everything but the fields a header sets. */
  predicate SameOtherwise(e: Device, r: Device, d: Device) {
    r == e.(privateKey := d.privateKey, listenPort := d.listenPort, firewallMark := d.firewallMark)
  }

  lemma {:induction false} HeaderHeard(lines: seq<string>, e: Device, d: Device)
    requires AllDeviceLinesSay(lines, d) && HeaderKnown(lines, e, d)
    ensures Header(e, lines).Ok? && SameOtherwise(e, Header(e, lines).value, d)
    ensures forall i :: 0 <= i < |lines| ==> !StartsPeer(lines[i])
    decreases |lines|
  {
    hide HeaderLine, DeviceLineSays, AllDeviceLinesSay, HeaderKnown, FieldOf, StartsPeer, DeviceTakenKey, SameOtherwise;
    if lines == [] {
      HeaderDone(e, d);
    } else {
      AllDeviceSayTail(lines, d);
      DeviceLineHeard(lines[0], e, d);
      HeaderStep(lines, e, d);
      var taken := if FieldOf(lines[0]).Some? then DeviceTakenKey(FieldOf(lines[0]).value.key, e, d) else e;
      HeaderHeard(lines[1..], taken, d);
      if FieldOf(lines[0]).Some? {
        TakenSame(FieldOf(lines[0]).value.key, e, Header(taken, lines[1..]).value, d);
      }
      assert forall i :: 1 <= i < |lines| ==> lines[i] == lines[1..][i - 1];
    }
  }

  lemma {:induction false} HeaderDone(e: Device, d: Device)
    requires HeaderKnown([], e, d)
    ensures SameOtherwise(e, e, d)
  {
  }

  lemma {:induction false} TakenSame(key: string, e: Device, r: Device, d: Device)
    requires SameOtherwise(DeviceTakenKey(key, e, d), r, d)
    ensures SameOtherwise(e, r, d)
  {
  }

  // ----- whole responses -----

  function Joined(secs: seq<seq<string>>): seq<string> {
    if secs == [] then [] else secs[0] + Joined(secs[1..])
  }

  predicate SectionsTold(secs: seq<seq<string>>, peers: seq<Peer>) {
    |secs| == |peers| && forall i :: 0 <= i < |secs| ==> SectionTold(secs[i], peers[i])
  }

  lemma {:induction false} SectionsHeard(d: Device, secs: seq<seq<string>>, peers: seq<Peer>)
    requires SectionsTold(secs, peers)
    ensures ApplyLines(d, Joined(secs)) == Ok(d.(peers := d.peers + peers))
    decreases |secs|
  {
    hide SectionTold, StartsPeer, Section, ApplyLine;
    if secs == [] {
      assert d.peers + peers == d.peers;
    } else {
      assert SectionTold(secs[0], peers[0]);
      SectionHeard(secs[0], peers[0]);
      NotEmptySection(secs[0], peers[0]);
      SectionFirst(d, secs[0], Joined(secs[1..]));
      assert forall i :: 0 <= i < |secs| - 1 ==> secs[1..][i] == secs[i + 1] && peers[1..][i] == peers[i + 1];
      SectionsHeard(On(d, peers[0]), secs[1..], peers[1..]);
      assert d.peers + [peers[0]] + peers[1..] == d.peers + peers;
    }
  }

  lemma {:induction false} NotEmptySection(lines: seq<string>, p: Peer)
    requires SectionTold(lines, p)
    ensures lines != []
  {
  }

  /** A response whose header says a device's own fields and whose sections say its peers, in
      order, is read as that device, every field of it, its derived public key included. */
  lemma {:induction false} GetResponseHeard(d: Device, response: string, header: seq<string>, secs: seq<seq<string>>, derive: Key -> Key)
    requires d.userspace && GoesWithPrivateKey(d, derive)
    requires Lines(response) == header + Joined(secs) && HeaderTold(header, d) && SectionsTold(secs, d.peers)
    ensures GetResponse(d.name, response, derive) == Ok(d)
  {
    hide ApplyLines, Lines, Header, AllDeviceLinesSay, HeaderKnown, SectionsTold, Joined, IsZeroKey, StartsPeer;
    var d0 := BlankDevice(d.name, true);
    HeaderHeard(header, d0, d);
    HeaderFirst(d0, header, Joined(secs));
    SectionsHeard(Header(d0, header).value, secs, d.peers);
    assert [] + d.peers == d.peers;
    DerivedWhole(d, derive);
  }

  lemma {:induction false} DerivedWhole(d: Device, derive: Key -> Key)
    requires GoesWithPrivateKey(d, derive)
    ensures WithPublicKey(d.(publicKey := None), derive) == d
  {
  }

  // ----- texts -----

  /** Lines, each ended by a line feed. */
  function Unlines(lines: seq<string>): string {
    if lines == [] then "" else lines[0] + "\n" + Unlines(lines[1..])
  }

  /** Any list of lines is that of a response. */
  lemma {:induction false} LinesOfUnlines(lines: seq<string>)
    requires forall i :: 0 <= i < |lines| ==> '\n' !in lines[i]
    ensures Lines(Unlines(lines)) == lines
    decreases |lines|
  {
    hide Lines;
    if lines == [] {
      NoLines();
    } else {
      LinesOfUnlines(lines[1..]);
      LinesFirst(lines[0], Unlines(lines[1..]));
    }
  }

  lemma {:induction false} NoLines()
    ensures Lines("") == []
  {
  }
}
