/** A strict reader of the requests, written from the kernel's side with the numbers of
    src/netlink/wireguard_uapi.h, linux/netlink.h and linux/genetlink.h written out: it accepts every
    SET message the builder makes and recovers the whole configuration, addresses as bytes. */
module KernelReader {
  import opened Core
  import opened WireGuard
  import opened Text
  import opened Inet
  import opened Address
  import opened Mnl
  import opened NlTree
  import opened NlBuild
  import opened NlParse
  import opened NlRoundTrip
  import opened NlInjective
  import opened NlSocket
  import opened Wire

  // ----- attributes -----

  /** An attribute: whether its type carries the nested bit, the type without it, the payload. */
  datatype Raw = Raw(nested: bool, typ: nat, payload: seq<byte>)

  /** Attributes that tile the bytes; None for any other bytes. */
  function RawAttrs(b: seq<byte>): Option<seq<Raw>>
    decreases |b|
  {
    if b == [] then Some([])
    else if |b| < 4 then None
    else
      var len := Le16(b, 0);
      var step := (len + 3) / 4 * 4;
      if len < 4 || step > |b| then None
      else
        var rest := RawAttrs(b[step..]);
        if rest.None? then None
        else Some([Raw(Le16(b, 2) >= 0x8000, Le16(b, 2) % 0x4000, b[4..len])] + rest.value)
  }

  /** The payload of the first attribute of a type. */
  function Get(rs: seq<Raw>, typ: nat): Option<seq<byte>> {
    if rs == [] then None
    else if rs[0].typ == typ then Some(rs[0].payload)
    else Get(rs[1..], typ)
  }

  /** Exactly the attributes of one type carry the nested bit. */
  predicate NestedIs(rs: seq<Raw>, typ: nat) {
    forall i :: 0 <= i < |rs| ==> (rs[i].nested <==> rs[i].typ == typ)
  }

  // ----- the reader -----

  datatype KernelIp = KernelIp(family: nat, address: seq<byte>, mask: byte)

  datatype KernelPeer = KernelPeer(
    publicKey: seq<byte>,
    remove: bool,
    replaceAllowedIPs: bool,
    updateOnly: bool,
    presharedKey: Option<seq<byte>>,
    endpoint: Option<SockAddr>,
    keepalive: Option<u16>,
    allowedIPs: seq<KernelIp>)

  datatype KernelConfig = KernelConfig(
    name: seq<byte>,
    replacePeers: bool,
    privateKey: Option<seq<byte>>,
    listenPort: Option<u16>,
    mark: Option<u32>,
    peers: seq<KernelPeer>)

  predicate Sized(payload: Option<seq<byte>>, n: nat) {
    payload.Some? ==> |payload.value| == n
  }

  function Number16(payload: Option<seq<byte>>): Option<u16>
    requires Sized(payload, 2)
  {
    if payload.Some? then Some(Le16(payload.value, 0)) else None
  }

  function Number32(payload: Option<seq<byte>>): Option<u32>
    requires Sized(payload, 4)
  {
    if payload.Some? then Some(Le32(payload.value, 0)) else None
  }

  /** Whether the flags attribute, if any, has a bit. */
  predicate Bit(payload: Option<seq<byte>>, bit: nat)
    requires Sized(payload, 4) && bit > 0
  {
    payload.Some? && Le32(payload.value, 0) / bit % 2 == 1
  }

  /** `struct sockaddr_in` (family 2, 16 bytes) or `struct sockaddr_in6` (family 10, 28 bytes) with
      neither flow info nor scope. */
  predicate IsSock(b: seq<byte>) {
    || (|b| == 16 && Le16(b, 0) == 2)
    || (|b| == 28 && Le16(b, 0) == 10 && b[4..8] == [0, 0, 0, 0] && b[24..28] == [0, 0, 0, 0])
  }

  function Sock(b: seq<byte>): SockAddr
    requires IsSock(b)
  {
    if |b| == 16 then In4(b[4..8], Be16(b, 2)) else In6(b[8..24], Be16(b, 2))
  }

  /** An allowed ip: family, address of 4 bytes for family 2 and 16 for any other, mask. */
  function ReadIp(b: seq<byte>): Option<KernelIp> {
    var rs := RawAttrs(b);
    if rs.None? || |rs.value| != 3 then None
    else
      var f, a, m := rs.value[0], rs.value[1], rs.value[2];
      if f.nested || a.nested || m.nested || f.typ != 1 || a.typ != 2 || m.typ != 3 then None
      else if |f.payload| != 2 || |m.payload| != 1 then None
      else if |a.payload| != (if Le16(f.payload, 0) == 2 then 4 else 16) then None
      else Some(KernelIp(Le16(f.payload, 0), a.payload, m.payload[0]))
  }

  function ReadIps(rs: seq<Raw>): Option<seq<KernelIp>> {
    if rs == [] then Some([])
    else
      var first, rest := ReadIp(rs[0].payload), ReadIps(rs[1..]);
      if !rs[0].nested || first.None? || rest.None? then None else Some([first.value] + rest.value)
  }

  /** The entries of a nest that may be absent. */
  function Entries(payload: Option<seq<byte>>): Option<seq<Raw>> {
    if payload.Some? then RawAttrs(payload.value) else Some([])
  }

  /** A peer's attributes: public key 1, preshared key 2, flags 3, endpoint 4, keepalive 5, allowed
      ips 9. */
  predicate PeerShaped(rs: seq<Raw>) {
    && NestedIs(rs, 9)
    && Get(rs, 1).Some? && Sized(Get(rs, 1), 32) && Sized(Get(rs, 2), 32) && Sized(Get(rs, 3), 4)
    && (Get(rs, 4).Some? ==> IsSock(Get(rs, 4).value)) && Sized(Get(rs, 5), 2)
  }

  /** Flags: bit 1 removes the peer, 2 replaces its allowed ips, 4 only updates it. */
  function PeerFrom(rs: seq<Raw>, ips: seq<KernelIp>): KernelPeer
    requires PeerShaped(rs)
  {
    KernelPeer(
      Get(rs, 1).value,
      Bit(Get(rs, 3), 1),
      Bit(Get(rs, 3), 2),
      Bit(Get(rs, 3), 4),
      Get(rs, 2),
      if Get(rs, 4).Some? then Some(Sock(Get(rs, 4).value)) else None,
      Number16(Get(rs, 5)),
      ips)
  }

  function ReadPeer(b: seq<byte>): Option<KernelPeer> {
    var rs := RawAttrs(b);
    if rs.None? || !PeerShaped(rs.value) then None
    else
      var entries := Entries(Get(rs.value, 9));
      if entries.None? then None
      else
        var ips := ReadIps(entries.value);
        if ips.None? then None else Some(PeerFrom(rs.value, ips.value))
  }

  function ReadPeers(rs: seq<Raw>): Option<seq<KernelPeer>> {
    if rs == [] then Some([])
    else
      var first, rest := ReadPeer(rs[0].payload), ReadPeers(rs[1..]);
      if !rs[0].nested || first.None? || rest.None? then None else Some([first.value] + rest.value)
  }

  /** A device's attributes: name 2, private key 3, flags 5, listen port 6, mark 7, peers 8. */
  predicate DeviceShaped(rs: seq<Raw>) {
    && NestedIs(rs, 8)
    && Get(rs, 2).Some? && |Get(rs, 2).value| > 0 && Get(rs, 2).value[|Get(rs, 2).value| - 1] == 0
    && Sized(Get(rs, 3), 32) && Sized(Get(rs, 5), 4) && Sized(Get(rs, 6), 2) && Sized(Get(rs, 7), 4)
  }

  function DeviceFrom(rs: seq<Raw>, peers: seq<KernelPeer>): KernelConfig
    requires DeviceShaped(rs)
  {
    var name := Get(rs, 2).value;
    KernelConfig(name[..|name| - 1], Bit(Get(rs, 5), 1), Get(rs, 3), Number16(Get(rs, 6)), Number32(Get(rs, 7)), peers)
  }

  function ReadDevice(b: seq<byte>): Option<KernelConfig> {
    var rs := RawAttrs(b);
    if rs.None? || !DeviceShaped(rs.value) then None
    else
      var entries := Entries(Get(rs.value, 8));
      if entries.None? then None
      else
        var peers := ReadPeers(entries.value);
        if peers.None? then None else Some(DeviceFrom(rs.value, peers.value))
  }

  /** A SET request (flags 5, command 1) of a family under a number. */
  function ReadSet(b: seq<byte>, family: nat, number: nat): Option<KernelConfig> {
    if RequestOnWire(b, family, 5, number, 1) then ReadDevice(b[20..]) else None
  }

  // ----- what a configuration means to the kernel -----

  function MeantIp(a: AllowedIP): KernelIp {
    KernelIp(a.family,
      if a.family == 2 then if Pton4(CStr(a.ip)).Some? then Pton4(CStr(a.ip)).value else [0, 0, 0, 0]
      else if Pton6(CStr(a.ip)).Some? then Pton6(CStr(a.ip)).value
      else [0, 0, 0, 0, 0, 0, 0, 0, 0, 0, 0, 0, 0, 0, 0, 0],
      a.cidr)
  }

  function MeantIps(ips: seq<AllowedIP>): (ks: seq<KernelIp>)
    ensures |ks| == |ips| && forall i :: 0 <= i < |ips| ==> ks[i] == MeantIp(ips[i])
  {
    seq(|ips|, i requires 0 <= i < |ips| => MeantIp(ips[i]))
  }

  function MeantPeer(p: PeerConfig): KernelPeer
    requires EndpointOk(p)
  {
    KernelPeer(p.publicKey, p.remove, p.replaceAllowedIPs, p.updateOnly, p.presharedKey,
      if p.endpoint.Some? then Some(ParseEndpoint(p.endpoint.value).value) else None,
      p.persistentKeepaliveInterval, MeantIps(p.allowedIPs))
  }

  function MeantPeers(peers: seq<PeerConfig>): (ks: seq<KernelPeer>)
    requires AllEndpointsOk(peers)
    ensures |ks| == |peers| && forall i :: 0 <= i < |peers| ==> ks[i] == MeantPeer(peers[i])
  {
    seq(|peers|, i requires 0 <= i < |peers| => MeantPeer(peers[i]))
  }

  function Meant(name: string, c: Config): KernelConfig
    requires IsByteText(name) && AllEndpointsOk(c.peers)
  {
    KernelConfig(TextBytes(name), c.replacePeers, c.privateKey, c.listenPort, c.firewallMark, MeantPeers(c.peers))
  }

  // ----- encoded attributes read back -----

  function RawSeen(n: Node): Raw {
    match n
    case Leaf(typ, payload) => Raw(typ >= 0x8000, typ % 0x4000, payload)
    case Nest(typ, children) => Raw(true, typ % 0x4000, EncodeAll(children))
  }

  function RawSeenAll(ns: seq<Node>): (rs: seq<Raw>)
    ensures |rs| == |ns| && forall i :: 0 <= i < |ns| ==> rs[i] == RawSeen(ns[i])
  {
    seq(|ns|, i requires 0 <= i < |ns| => RawSeen(ns[i]))
  }

  lemma {:induction false} RawFirst(typ: u16, payload: seq<byte>, rest: seq<byte>)
    requires 4 + |payload| < 0x1_0000 && RawAttrs(rest).Some?
    ensures RawAttrs(Tlv(typ, payload) + rest)
         == Some([Raw(typ >= 0x8000, typ % 0x4000, payload)] + RawAttrs(rest).value)
  {
    hide Tlv, Le16, GetU16;
    var b := Tlv(typ, payload) + rest;
    TlvHead(typ, payload, rest);
    TlvBody(typ, payload, rest);
    AlignHeader(|payload|);
    ReadersRead(b);
    ReadersRead(b[2..]);
    LowShifted(b);
  }

  lemma {:induction false} LowShifted(b: seq<byte>)
    requires |b| >= 4
    ensures Le16(b[2..], 0) == Le16(b, 2)
  {
  }

  lemma {:induction false} RawEncoded(ns: seq<Node>)
    requires AllFit(ns)
    ensures RawAttrs(EncodeAll(ns)) == Some(RawSeenAll(ns))
    decreases |ns|
  {
    hide RawAttrs, Tlv;
    if ns == [] {
      NoAttrs();
    } else {
      RawEncoded(ns[1..]);
      var rest := EncodeAll(ns[1..]);
      match ns[0] {
        case Leaf(typ, payload) => RawFirst(typ, payload, rest);
        case Nest(typ, children) => RawFirst(NestType(typ), EncodeAll(children), rest);
      }
      assert RawSeenAll(ns) == [RawSeen(ns[0])] + RawSeenAll(ns[1..]);
    }
  }

  lemma {:induction false} NoAttrs()
    ensures RawAttrs([]) == Some([]) && EncodeAll([]) == []
  {
  }

  lemma {:induction false} GetIsLookup(ns: seq<Node>, typ: nat)
    ensures Get(RawSeenAll(ns), typ) == Lookup(SeenAll(ns), typ)
    decreases |ns|
  {
    hide EncodeAll;
    if ns != [] {
      GetIsLookup(ns[1..], typ);
      assert RawSeenAll(ns)[1..] == RawSeenAll(ns[1..]) && SeenAll(ns)[1..] == SeenAll(ns[1..]);
    }
  }

  // ----- payloads -----

  lemma {:induction false} NumbersRead(m: Option<u16>, n: Option<u32>)
    ensures Sized(U16Payload(m), 2) && Number16(U16Payload(m)) == m
    ensures Sized(U32Payload(n), 4) && Number32(U32Payload(n)) == n
  {
    hide U16, U32, Le16, Le32;
    if m.Some? {
      Layouts(m.value, 0, []);
      assert U16(m.value) + [] == U16(m.value);
    }
    if n.Some? {
      Layouts(0, n.value, []);
      assert U32(n.value) + [] == U32(n.value);
    }
  }

  /** The flags of a peer, bit by bit. */
  lemma {:induction false} FlagsRead(p: PeerConfig)
    ensures Sized(FlagsPayload(p), 4)
    ensures Bit(FlagsPayload(p), 1) == p.remove
    ensures Bit(FlagsPayload(p), 2) == p.replaceAllowedIPs
    ensures Bit(FlagsPayload(p), 4) == p.updateOnly
  {
    hide U32, Le32;
    var n := PeerFlags(p);
    Layouts(0, n, []);
    assert U32(n) + [] == U32(n);
  }

  lemma {:induction false} DeviceFlagsRead(c: Config)
    ensures Sized(DeviceFlagsPayload(c), 4) && Bit(DeviceFlagsPayload(c), 1) == c.replacePeers
  {
    hide U32, Le32;
    var n := DeviceFlags(c);
    Layouts(0, n, []);
    assert U32(n) + [] == U32(n);
  }

  lemma {:induction false} SockRead(sa: SockAddr)
    ensures IsSock(SockBytes(sa)) && Sock(SockBytes(sa)) == sa
  {
    hide U16, BE16, Le16, Be16;
    match sa
    case In4(a, port) =>
      SockHead(2, port, a + Zeros(8));
      assert SockBytes(sa) == U16(2) + BE16(port) + (a + Zeros(8));
      assert SockBytes(sa)[4..8] == a;
    case In6(a, port) =>
      SockHead(10, port, Zeros(4) + a + Zeros(4));
      assert SockBytes(sa) == U16(10) + BE16(port) + (Zeros(4) + a + Zeros(4));
      assert SockBytes(sa)[4..8] == [0, 0, 0, 0] && SockBytes(sa)[24..28] == [0, 0, 0, 0] && SockBytes(sa)[8..24] == a;
  }

  lemma {:induction false} SockHead(family: u16, port: u16, rest: seq<byte>)
    ensures var b := U16(family) + BE16(port) + rest; Le16(b, 0) == family && Be16(b, 2) == port
  {
    hide U16, BE16;
    var b := U16(family) + BE16(port) + rest;
    assert b == U16(family) + (BE16(port) + rest);
    assert b[2..] == BE16(port) + rest;
    Layouts(family, 0, BE16(port) + rest);
    Layouts(port, 0, rest);
    BigShifted(b);
  }

  lemma {:induction false} BigShifted(b: seq<byte>)
    requires |b| >= 4
    ensures Be16(b[2..], 0) == Be16(b, 2)
  {
  }

  // ----- allowed ips -----

  lemma {:induction false} IpRead(i: nat, a: AllowedIP)
    ensures ReadIp(EncodeAll(IpNode(i, a).children)) == Some(MeantIp(a))
  {
    hide U16, IpBytes, RawAttrs, EncodeAll, Le16, MeantIp, AllFit;
    var ns := IpNode(i, a).children;
    IpNodeChildrenFit(i, a);
    RawEncoded(ns);
    Layouts(a.family, 0, []);
    assert U16(a.family) + [] == U16(a.family);
    MeantBytes(a);
  }

  lemma {:induction false} MeantBytes(a: AllowedIP)
    ensures MeantIp(a) == KernelIp(a.family, IpBytes(a), a.cidr)
  {
    hide Pton4, Pton6, CStr;
  }

  lemma {:induction false} IpNodeChildrenFit(i: nat, a: AllowedIP)
    ensures AllFit(IpNode(i, a).children)
  {
    hide IpBytes, U16, EncodeAll;
    IpPayload(i, a);
  }

  /** A nest with the attributes of an allowed ip, whatever its number. */
  predicate IsIpNest(n: Node, a: AllowedIP) {
    n.Nest? && n.children == IpNode(0, a).children
  }

  lemma {:induction false} IpsRead(ns: seq<Node>, ips: seq<AllowedIP>)
    requires |ns| == |ips| && forall i :: 0 <= i < |ns| ==> IsIpNest(ns[i], ips[i])
    ensures ReadIps(RawSeenAll(ns)) == Some(MeantIps(ips))
    decreases |ns|
  {
    hide ReadIp, IpNode, EncodeAll, MeantIp;
    if ns == [] {
      assert MeantIps(ips) == [];
    } else {
      assert IsIpNest(ns[0], ips[0]);
      IpRead(0, ips[0]);
      IpsRead(ns[1..], ips[1..]);
      assert RawSeenAll(ns)[1..] == RawSeenAll(ns[1..]);
      assert MeantIps(ips) == [MeantIp(ips[0])] + MeantIps(ips[1..]);
    }
  }

  lemma {:induction false} IpNodeIsNest(i: nat, a: AllowedIP)
    ensures IsIpNest(IpNode(i, a), a)
  {
  }

  lemma {:induction false} IpNestRead(ips: seq<AllowedIP>)
    ensures var entries := Entries(IpsPayload(ips));
      entries.Some? && ReadIps(entries.value) == Some(MeantIps(ips))
  {
    hide IpNode, EncodeAll, RawAttrs, AllFit, ReadIps, IsIpNest;
    var ns := IpNodes(ips);
    forall i | 0 <= i < |ns|
      ensures IsIpNest(ns[i], ips[i])
    {
      IpNodeIsNest(i, ips[i]);
    }
    IpsRead(ns, ips);
    IpNodesFit(ips);
    RawEncoded(ns);
    if ips == [] {
      assert RawSeenAll(ns) == [];
    }
  }

  // ----- peers -----

  /** Leaves only, with types below 0x4000 other than t. */
  predicate LeavesBut(ns: seq<Node>, t: nat) {
    forall i :: 0 <= i < |ns| ==> ns[i].Leaf? && ns[i].typ < 0x4000 && ns[i].typ != t
  }

  lemma {:induction false} PlainThenNest(a: seq<Node>, b: seq<Node>, t: u16)
    requires LeavesBut(a, t) && t < 0x4000
    requires b == [] || (|b| == 1 && b[0].Nest? && b[0].typ == t)
    ensures NestedIs(RawSeenAll(a + b), t)
  {
    hide EncodeAll;
  }

  lemma {:induction false} PeerLeaves(p: PeerConfig)
    ensures LeavesBut(PeerScalars(p), 9)
  {
    hide FlagsPayload, KeyPayload, EndpointPayload, U16Payload;
  }

  lemma {:induction false} PeerNested(p: PeerConfig)
    ensures NestedIs(RawSeenAll(PeerAttrs(p)), 9)
  {
    hide PeerScalars, EncodeAll, IpNodes, LeavesBut, RawSeenAll, NestedIs;
    PeerLeaves(p);
    PlainThenNest(PeerScalars(p), IpsNode(p.allowedIPs), 9);
  }

  /** What the reader finds under each type. */
  lemma {:induction false} PeerGets(p: PeerConfig)
    ensures var rs := RawSeenAll(PeerAttrs(p));
      && Get(rs, 1) == Some(p.publicKey) && Get(rs, 2) == KeyPayload(p.presharedKey) && Get(rs, 3) == FlagsPayload(p)
      && Get(rs, 4) == EndpointPayload(p) && Get(rs, 5) == U16Payload(p.persistentKeepaliveInterval)
      && Get(rs, 9) == IpsPayload(p.allowedIPs)
  {
    hide PeerAttrs, RawSeenAll, SeenAll, Get, Lookup;
    hide PeerScalars, KeyPayload, FlagsPayload, EndpointPayload, U16Payload, IpsPayload;
    PeerGet(p, 1);
    PeerGet(p, 2);
    PeerGet(p, 3);
    PeerGet(p, 4);
    PeerGet(p, 5);
    PeerGet(p, 9);
  }

  lemma {:induction false} PeerGet(p: PeerConfig, typ: nat)
    ensures Get(RawSeenAll(PeerAttrs(p)), typ)
         == if typ == WGPEER_A_ALLOWEDIPS then IpsPayload(p.allowedIPs)
            else if typ == WGPEER_A_PUBLIC_KEY then Some(p.publicKey)
            else if typ == WGPEER_A_FLAGS then FlagsPayload(p)
            else if typ == WGPEER_A_PRESHARED_KEY then KeyPayload(p.presharedKey)
            else if typ == WGPEER_A_ENDPOINT then EndpointPayload(p)
            else if typ == WGPEER_A_PERSISTENT_KEEPALIVE_INTERVAL then U16Payload(p.persistentKeepaliveInterval)
            else None
  {
    hide PeerAttrs, RawSeenAll, SeenAll, Get, Lookup;
    hide PeerScalars, KeyPayload, FlagsPayload, EndpointPayload, U16Payload, IpsPayload;
    GetIsLookup(PeerAttrs(p), typ);
    PeerLookup(p, typ);
    PeerScalarsLookup(p, typ);
  }

  lemma {:induction false} EndpointRead(p: PeerConfig)
    requires EndpointOk(p)
    ensures EndpointPayload(p).Some? <==> p.endpoint.Some?
    ensures EndpointPayload(p).Some? ==>
      IsSock(EndpointPayload(p).value) && Sock(EndpointPayload(p).value) == ParseEndpoint(p.endpoint.value).value
  {
    hide ParseEndpoint, SockBytes, IsSock, Sock;
    if p.endpoint.Some? {
      SockRead(ParseEndpoint(p.endpoint.value).value);
    }
  }

  lemma {:induction false} PeerRead(p: PeerConfig)
    requires EndpointOk(p) && AllFit(PeerAttrs(p))
    ensures ReadPeer(EncodeAll(PeerAttrs(p))) == Some(MeantPeer(p))
  {
    hide RawAttrs, EncodeAll, PeerAttrs, RawSeenAll, Get;
    hide NestedIs, FlagsPayload, EndpointPayload, U16Payload, IpsPayload;
    hide IsSock, Sock, Bit, Number16, ReadIps, Entries, MeantIps, EndpointOk, ParseEndpoint, Le32, AllFit;
    RawEncoded(PeerAttrs(p));
    PeerNested(p);
    PeerGets(p);
    FlagsRead(p);
    NumbersRead(p.persistentKeepaliveInterval, None);
    EndpointRead(p);
    IpNestRead(p.allowedIPs);
  }

  /** A nest with the attributes of a peer, whatever its number. */
  predicate IsPeerNest(n: Node, p: PeerConfig) {
    n.Nest? && n.children == PeerAttrs(p)
  }

  lemma {:induction false} PeersRead(ns: seq<Node>, peers: seq<PeerConfig>)
    requires AllEndpointsOk(peers) && |ns| == |peers|
    requires forall i :: 0 <= i < |ns| ==> IsPeerNest(ns[i], peers[i]) && AllFit(PeerAttrs(peers[i]))
    ensures ReadPeers(RawSeenAll(ns)) == Some(MeantPeers(peers))
    decreases |ns|
  {
    hide ReadPeer, PeerAttrs, EncodeAll, MeantPeer, AllFit, EndpointOk;
    if ns == [] {
      assert MeantPeers(peers) == [];
    } else {
      assert IsPeerNest(ns[0], peers[0]);
      PeerRead(peers[0]);
      PeersRead(ns[1..], peers[1..]);
      assert RawSeenAll(ns)[1..] == RawSeenAll(ns[1..]);
      assert MeantPeers(peers) == [MeantPeer(peers[0])] + MeantPeers(peers[1..]);
    }
  }

  lemma {:induction false} PeerNestRead(c: Config)
    requires AllEndpointsOk(c.peers) && NestsFit(c)
    ensures var entries := Entries(PeersPayload(c.peers));
      entries.Some? && ReadPeers(entries.value) == Some(MeantPeers(c.peers))
  {
    hide PeerAttrs, EncodeAll, Encode, RawAttrs, AllFit, Fits, ReadPeers, AllEndpointsOk, MeantPeers;
    var ns := PeerNodes(c.peers);
    forall i | 0 <= i < |ns|
      ensures IsPeerNest(ns[i], c.peers[i]) && AllFit(PeerAttrs(c.peers[i]))
    {
      PartFits(ns, i);
      PeerNodeFits(i, c.peers[i]);
    }
    PeersRead(ns, c.peers);
    PeerNodesFit(c.peers);
    RawEncoded(ns);
    if c.peers == [] {
      assert RawSeenAll(ns) == [];
    }
  }

  // ----- the device -----

  lemma {:induction false} DeviceLeaves(name: string, c: Config)
    requires IsByteText(name)
    ensures LeavesBut(DeviceScalars(name, c), 8)
  {
    hide DeviceFlagsPayload, KeyPayload, U16Payload, U32Payload, TextBytes;
  }

  lemma {:induction false} DeviceNested(name: string, c: Config)
    requires IsByteText(name)
    ensures NestedIs(RawSeenAll(DeviceTree(name, c)), 8)
  {
    hide DeviceScalars, EncodeAll, PeerNodes, LeavesBut, RawSeenAll, NestedIs;
    DeviceLeaves(name, c);
    PlainThenNest(DeviceScalars(name, c), PeersNode(c.peers), 8);
  }

  lemma {:induction false} DeviceGet(name: string, c: Config, typ: nat)
    requires IsByteText(name)
    ensures Get(RawSeenAll(DeviceTree(name, c)), typ)
         == if typ == WGDEVICE_A_PEERS then PeersPayload(c.peers)
            else if typ == WGDEVICE_A_IFNAME then Some(TextBytes(name) + [0])
            else if typ == WGDEVICE_A_FLAGS then DeviceFlagsPayload(c)
            else if typ == WGDEVICE_A_PRIVATE_KEY then KeyPayload(c.privateKey)
            else if typ == WGDEVICE_A_LISTEN_PORT then U16Payload(c.listenPort)
            else if typ == WGDEVICE_A_FWMARK then U32Payload(c.firewallMark)
            else None
  {
    hide DeviceTree, RawSeenAll, SeenAll, Get, Lookup;
    hide DeviceScalars, DeviceFlagsPayload, KeyPayload, U16Payload, U32Payload, PeersPayload;
    GetIsLookup(DeviceTree(name, c), typ);
    DeviceLookup(name, c, typ);
    DeviceScalarsLookup(name, c, typ);
  }

  lemma {:induction false} DeviceGets(name: string, c: Config)
    requires IsByteText(name)
    ensures var rs := RawSeenAll(DeviceTree(name, c));
      && Get(rs, 2) == Some(TextBytes(name) + [0]) && Get(rs, 3) == KeyPayload(c.privateKey)
      && Get(rs, 5) == DeviceFlagsPayload(c) && Get(rs, 6) == U16Payload(c.listenPort)
      && Get(rs, 7) == U32Payload(c.firewallMark) && Get(rs, 8) == PeersPayload(c.peers)
  {
    hide DeviceTree, RawSeenAll, Get, DeviceFlagsPayload, KeyPayload, U16Payload, U32Payload, PeersPayload, TextBytes;
    DeviceGet(name, c, 2);
    DeviceGet(name, c, 3);
    DeviceGet(name, c, 5);
    DeviceGet(name, c, 6);
    DeviceGet(name, c, 7);
    DeviceGet(name, c, 8);
  }

  lemma {:induction false} DeviceRead(name: string, c: Config)
    requires IsByteText(name) && |name| < IFNAMSIZ && AllEndpointsOk(c.peers) && NestsFit(c)
    ensures ReadDevice(EncodeAll(DeviceTree(name, c))) == Some(Meant(name, c))
  {
    hide RawAttrs, EncodeAll, DeviceTree, RawSeenAll, Get;
    hide NestedIs, DeviceFlagsPayload, U16Payload, U32Payload, PeersPayload;
    hide Bit, Number16, Number32, ReadPeers, Entries, MeantPeers, AllEndpointsOk, Le32, AllFit, NestsFit;
    DeviceTreeFits(name, c);
    RawEncoded(DeviceTree(name, c));
    DeviceNested(name, c);
    DeviceGets(name, c);
    DeviceFlagsRead(c);
    NumbersRead(c.listenPort, c.firewallMark);
    PeerNestRead(c);
    assert (TextBytes(name) + [0])[..|name|] == TextBytes(name);
  }

  /** The kernel's side of a SET request: from the bytes the reader recovers the name and the whole
      configuration, each flag under its own bit, omitted fields apart from zero ones. */
  lemma {:induction false} SetRequestRead(family: u16, number: u32, name: string, c: Config)
    requires IsByteText(name) && |name| < IFNAMSIZ && AllEndpointsOk(c.peers) && NestsFit(c) && FitsLength(name, c)
    ensures ReadSet(SetMessage(family, number, name, c), family, number) == Some(Meant(name, c))
  {
    hide Headers, EncodeAll, DeviceTree, ReadDevice, Meant, RequestOnWire, AllEndpointsOk, NestsFit;
    SetOnWire(family, number, name, c);
    assert SetMessage(family, number, name, c)[20..] == EncodeAll(DeviceTree(name, c));
    DeviceRead(name, c);
  }

  // ----- the other requests -----

  /** A single name, NUL-terminated, under attribute 2. */
  predicate AsksFor(b: seq<byte>, name: seq<byte>) {
    |b| >= 20 && RawAttrs(b[20..]) == Some([Raw(false, 2, name + [0])])
  }

  lemma {:induction false} NameAsked(name: seq<byte>)
    requires |name| < 100
    ensures RawAttrs(Tlv(2, name + [0])) == Some([Raw(false, 2, name + [0])])
  {
    hide Tlv, RawAttrs;
    NoAttrs();
    RawFirst(2, name + [0], []);
    assert Tlv(2, name + [0]) + [] == Tlv(2, name + [0]);
    assert [Raw(false, 2, name + [0])] + [] == [Raw(false, 2, name + [0])];
  }

  /** A dump request asks for the device, the lookup for the family named "wireguard". */
  lemma {:induction false} NamesAsked(family: u16, number: u32, name: string)
    requires IsByteText(name) && |name| < IFNAMSIZ
    ensures AsksFor(GetMessage(family, number, name), TextBytes(name))
    ensures AsksFor(LookupMessage(number), [119, 105, 114, 101, 103, 117, 97, 114, 100])
  {
    hide Headers, Tlv, RawAttrs;
    NameAsked(TextBytes(name));
    assert GetMessage(family, number, name)[20..] == Tlv(2, TextBytes(name) + [0]);
    var wireguard: seq<byte> := [119, 105, 114, 101, 103, 117, 97, 114, 100];
    NameAsked(wireguard);
    assert TextBytes("wireguard") == wireguard;
    assert LookupMessage(number)[20..] == Tlv(2, wireguard + [0]);
  }
}
