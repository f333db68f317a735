/** The attribute tree of a SET_DEVICE request, and how large it gets
    (src/netlink/NlAttr.cpp and src/netlink/wireguard_uapi.h). */
module NlTree {
  import opened Core
  import opened WireGuard
  import opened Text
  import opened Inet
  import opened Address
  import opened Mnl
  import opened Wire

  const WG_GENL_VERSION: byte := 1
  const WG_CMD_GET_DEVICE: byte := 0
  const WG_CMD_SET_DEVICE: byte := 1

  const NLM_F_REQUEST: u16 := 1
  const NLM_F_ACK: u16 := 4
  const NLM_F_DUMP: u16 := 0x300

  const WGDEVICE_F_REPLACE_PEERS: u32 := 1
  const WGDEVICE_A_IFNAME: u16 := 2
  const WGDEVICE_A_PRIVATE_KEY: u16 := 3
  const WGDEVICE_A_PUBLIC_KEY: u16 := 4
  const WGDEVICE_A_FLAGS: u16 := 5
  const WGDEVICE_A_LISTEN_PORT: u16 := 6
  const WGDEVICE_A_FWMARK: u16 := 7
  const WGDEVICE_A_PEERS: u16 := 8

  const WGPEER_F_REMOVE_ME: u32 := 1
  const WGPEER_F_REPLACE_ALLOWEDIPS: u32 := 2
  const WGPEER_F_UPDATE_ONLY: u32 := 4
  const WGPEER_A_PUBLIC_KEY: u16 := 1
  const WGPEER_A_PRESHARED_KEY: u16 := 2
  const WGPEER_A_FLAGS: u16 := 3
  const WGPEER_A_ENDPOINT: u16 := 4
  const WGPEER_A_PERSISTENT_KEEPALIVE_INTERVAL: u16 := 5
  const WGPEER_A_LAST_HANDSHAKE_TIME: u16 := 6
  const WGPEER_A_RX_BYTES: u16 := 7
  const WGPEER_A_TX_BYTES: u16 := 8
  const WGPEER_A_ALLOWEDIPS: u16 := 9
  const WGPEER_A_PROTOCOL_VERSION: u16 := 10

  const WGALLOWEDIP_A_FAMILY: u16 := 1
  const WGALLOWEDIP_A_IPADDR: u16 := 2
  const WGALLOWEDIP_A_CIDR_MASK: u16 := 3

  // ----- payloads -----

  /** `sockaddr_in` (16 bytes) or `sockaddr_in6` (28 bytes). */
  function SockBytes(sa: SockAddr): (b: seq<byte>)
    ensures |b| == if sa.In4? then 16 else 28
  {
    match sa
    case In4(a, port) => U16(AF_INET) + BE16(port) + a + Zeros(8)
    case In6(a, port) => U16(AF_INET6) + BE16(port) + Zeros(4) + a + Zeros(4)
  }

  /** The address bytes of an allowed ip; text that does not parse leaves them zero. */
  function IpBytes(aip: AllowedIP): (b: seq<byte>)
    ensures |b| == if aip.family == AF_INET then 4 else 16
  {
    if aip.family == AF_INET then
      match Pton4(CStr(aip.ip))
      case Some(a) => a
      case None => Zeros(4)
    else
      match Pton6(CStr(aip.ip))
      case Some(a) => a
      case None => Zeros(16)
  }

  function PeerFlags(p: PeerConfig): u32 {
    (if p.remove then WGPEER_F_REMOVE_ME else 0)
    + (if p.updateOnly then WGPEER_F_UPDATE_ONLY else 0)
    + (if p.replaceAllowedIPs then WGPEER_F_REPLACE_ALLOWEDIPS else 0)
  }

  // ----- the tree -----

  function OptLeaf(typ: u16, payload: Option<seq<byte>>): (ns: seq<Node>)
    ensures |ns| <= 1
  {
    match payload
    case None => []
    case Some(b) => [Leaf(typ, b)]
  }

  function IpNode(i: nat, aip: AllowedIP): Node {
    Nest(i % 0x1_0000, [
      Leaf(WGALLOWEDIP_A_FAMILY, U16(aip.family)),
      Leaf(WGALLOWEDIP_A_IPADDR, IpBytes(aip)),
      Leaf(WGALLOWEDIP_A_CIDR_MASK, [aip.cidr])])
  }

  function IpNodes(ips: seq<AllowedIP>): (ns: seq<Node>)
    ensures |ns| == |ips|
    ensures forall i :: 0 <= i < |ips| ==> ns[i] == IpNode(i, ips[i])
  {
    seq(|ips|, i requires 0 <= i < |ips| => IpNode(i, ips[i]))
  }

  function FlagsPayload(p: PeerConfig): (r: Option<seq<byte>>)
    ensures r.Some? ==> |r.value| == 4
  {
    if PeerFlags(p) != 0 then Some(U32(PeerFlags(p))) else None
  }

  function DeviceFlags(c: Config): u32 {
    if c.replacePeers then WGDEVICE_F_REPLACE_PEERS else 0
  }

  function DeviceFlagsPayload(c: Config): (r: Option<seq<byte>>)
    ensures r.Some? ==> |r.value| == 4
  {
    if DeviceFlags(c) != 0 then Some(U32(DeviceFlags(c))) else None
  }

  function KeyPayload(k: Option<Key>): (r: Option<seq<byte>>)
    ensures r.Some? <==> k.Some?
    ensures r.Some? ==> |r.value| == KEY_LEN
  {
    match k
    case None => None
    case Some(key) => Some(key)
  }

  /** The endpoint attribute; an invalid endpoint never gets this far (see Address.EndpointOk). */
  function EndpointPayload(p: PeerConfig): (r: Option<seq<byte>>)
    ensures r.Some? ==> |r.value| == 16 || |r.value| == 28
  {
    match p.endpoint
    case None => None
    case Some(text) =>
      match ParseEndpoint(text)
      case Ok(sa) => Some(SockBytes(sa))
      case Err(_) => None
  }

  function U16Payload(n: Option<u16>): (r: Option<seq<byte>>)
    ensures r.Some? <==> n.Some?
    ensures r.Some? ==> |r.value| == 2
  {
    match n
    case None => None
    case Some(v) => Some(U16(v))
  }

  function U32Payload(n: Option<u32>): (r: Option<seq<byte>>)
    ensures r.Some? <==> n.Some?
    ensures r.Some? ==> |r.value| == 4
  {
    match n
    case None => None
    case Some(v) => Some(U32(v))
  }

  function IpsNode(ips: seq<AllowedIP>): seq<Node> {
    if ips == [] then [] else [Nest(WGPEER_A_ALLOWEDIPS, IpNodes(ips))]
  }

  function PeerScalars(p: PeerConfig): seq<Node> {
    [Leaf(WGPEER_A_PUBLIC_KEY, p.publicKey)]
    + OptLeaf(WGPEER_A_FLAGS, FlagsPayload(p))
    + OptLeaf(WGPEER_A_PRESHARED_KEY, KeyPayload(p.presharedKey))
    + OptLeaf(WGPEER_A_ENDPOINT, EndpointPayload(p))
    + OptLeaf(WGPEER_A_PERSISTENT_KEEPALIVE_INTERVAL, U16Payload(p.persistentKeepaliveInterval))
  }

  function PeerAttrs(p: PeerConfig): seq<Node> {
    PeerScalars(p) + IpsNode(p.allowedIPs)
  }

  function PeerNode(i: nat, p: PeerConfig): Node {
    Nest(i % 0x1_0000, PeerAttrs(p))
  }

  function PeerNodes(peers: seq<PeerConfig>): (ns: seq<Node>)
    ensures |ns| == |peers|
    ensures forall i :: 0 <= i < |peers| ==> ns[i] == PeerNode(i, peers[i])
  {
    seq(|peers|, i requires 0 <= i < |peers| => PeerNode(i, peers[i]))
  }

  function PeersNode(peers: seq<PeerConfig>): seq<Node> {
    if peers == [] then [] else [Nest(WGDEVICE_A_PEERS, PeerNodes(peers))]
  }

  function DeviceScalars(name: string, c: Config): seq<Node>
    requires IsByteText(name)
  {
    [Leaf(WGDEVICE_A_IFNAME, TextBytes(name) + [0])]
    + OptLeaf(WGDEVICE_A_FLAGS, DeviceFlagsPayload(c))
    + OptLeaf(WGDEVICE_A_PRIVATE_KEY, KeyPayload(c.privateKey))
    + OptLeaf(WGDEVICE_A_LISTEN_PORT, U16Payload(c.listenPort))
    + OptLeaf(WGDEVICE_A_FWMARK, U32Payload(c.firewallMark))
  }

  function DeviceTree(name: string, c: Config): seq<Node>
    requires IsByteText(name)
  {
    DeviceScalars(name, c) + PeersNode(c.peers)
  }

  /** `nlmsghdr` followed by `genlmsghdr`. */
  function Headers(length: u32, typ: u16, flags: u16, seqno: u32, cmd: byte): (b: seq<byte>)
    ensures |b| == 20
  {
    U32(length) + Body(typ, flags, seqno, cmd)
  }

  /** The headers without the leading length. */
  function Body(typ: u16, flags: u16, seqno: u32, cmd: byte): (b: seq<byte>)
    ensures |b| == 16
  {
    U16(typ) + U16(flags) + U32(seqno) + U32(0) + [cmd, WG_GENL_VERSION, 0, 0]
  }

  lemma {:induction false} TypeAndFlags(typ: u16, flags: u16, rest: seq<byte>)
    ensures var c := U16(typ) + U16(flags) + rest;
      Le16(c, 0) == typ && Le16(c, 2) == flags && c[4..] == rest
  {
    hide U16;
    var c := U16(typ) + U16(flags) + rest;
    assert c == U16(typ) + (U16(flags) + rest);
    assert c[2..] == U16(flags) + rest;
    Layouts(typ, 0, U16(flags) + rest);
    Layouts(flags, 0, rest);
  }

  lemma {:induction false} NumberAndPort(number: u32, pid: u32, rest: seq<byte>)
    ensures var c := U32(number) + U32(pid) + rest;
      Le32(c, 0) == number && Le32(c, 4) == pid && c[8..] == rest
  {
    hide U32, Le32;
    var c := U32(number) + U32(pid) + rest;
    assert c == U32(number) + (U32(pid) + rest);
    assert c[4..] == U32(pid) + rest;
    Layouts(0, number, U32(pid) + rest);
    Layouts(0, pid, rest);
    Shifted(c, 4);
  }

  /** A header of any length field in front of anything. */
  lemma {:induction false} HeaderOnWire(length: u32, typ: u16, flags: u16, number: u32, pid: u32, rest: seq<byte>)
    ensures var b := U32(length) + (U16(typ) + U16(flags) + (U32(number) + U32(pid) + rest));
      && Le32(b, 0) == length && Le16(b, 4) == typ && Le16(b, 6) == flags && Le32(b, 8) == number && Le32(b, 12) == pid
      && b[16..] == rest
  {
    hide U16, U32, Le16, Le32;
    var d := U32(number) + U32(pid) + rest;
    var c := U16(typ) + U16(flags) + d;
    var b := U32(length) + c;
    TypeAndFlags(typ, flags, d);
    NumberAndPort(number, pid, rest);
    Layouts(0, length, c);
    assert b[4..] == c;
    Behind(b, c, 4, 0);
    Behind(b, c, 4, 2);
    assert b[8..] == c[4..] == d;
    Behind(b, d, 8, 0);
    Behind(b, d, 8, 4);
    assert b[16..] == d[8..];
  }

  lemma {:induction false} Behind(b: seq<byte>, c: seq<byte>, skip: nat, at: nat)
    requires skip <= |b| && b[skip..] == c && at + 4 <= |c|
    ensures Le16(b, skip + at) == Le16(c, at) && Le32(b, skip + at) == Le32(c, at)
  {
  }

  /** Headers in front of attributes are a request on the wire. */
  lemma {:induction false} HeadersOnWire(typ: u16, flags: u16, seqno: u32, cmd: byte, attrs: seq<byte>)
    requires 20 + |attrs| < 0x1_0000_0000
    ensures RequestOnWire(Headers(20 + |attrs|, typ, flags, seqno, cmd) + attrs, typ, flags, seqno, cmd)
  {
    hide U16, U32, Le16, Le32;
    var genl := [cmd, WG_GENL_VERSION, 0, 0] + attrs;
    HeaderOnWire(20 + |attrs|, typ, flags, seqno, 0, genl);
    var b := U32(20 + |attrs|) + (U16(typ) + U16(flags) + (U32(seqno) + U32(0) + genl));
    assert Headers(20 + |attrs|, typ, flags, seqno, cmd) + attrs == b;
    assert b[16..][0] == b[16] && b[16..][1] == b[17] && b[16..][2] == b[18] && b[16..][3] == b[19];
  }

  lemma {:induction false} Shifted(b: seq<byte>, at: nat)
    requires at + 4 <= |b|
    ensures Le16(b[at..], 0) == Le16(b, at) && Le32(b[at..], 0) == Le32(b, at)
  {
  }

  // ----- size -----

  lemma {:induction false} IpNodeSize(i: nat, aip: AllowedIP)
    ensures |Encode(IpNode(i, aip))| == if aip.family == AF_INET then 28 else 40
  {
    hide IpBytes;
    var a, b, c := Leaf(WGALLOWEDIP_A_FAMILY, U16(aip.family)), Leaf(WGALLOWEDIP_A_IPADDR, IpBytes(aip)), Leaf(WGALLOWEDIP_A_CIDR_MASK, [aip.cidr]);
    ThreeNodes(a, b, c);
    assert |Encode(a)| == 8 && |Encode(c)| == 8;
    assert |Encode(b)| == 4 + |IpBytes(aip)|;
  }

  lemma {:induction false} ThreeNodes(a: Node, b: Node, c: Node)
    ensures EncodeAll([a, b, c]) == Encode(a) + Encode(b) + Encode(c)
  {
    hide Encode;
    assert [a, b, c] == [a] + ([b] + [c]);
    EncodeAllAppend([a], [b] + [c]);
    EncodeAllAppend([b], [c]);
    EncodeOne(a);
    EncodeOne(b);
    EncodeOne(c);
  }

  /** Bytes of the first n entries of an allowed-ips list; exact. */
  function IpsSize(ips: seq<AllowedIP>): (n: nat)
    ensures n <= 40 * |ips|
  {
    if ips == [] then 0
    else IpsSize(ips[..|ips| - 1]) + (if ips[|ips| - 1].family == AF_INET then 28 else 40)
  }

  lemma {:induction false} IpNodesSize(ips: seq<AllowedIP>)
    ensures |EncodeAll(IpNodes(ips))| == IpsSize(ips)
    decreases |ips|
  {
    hide Encode, IpNode;
    if ips != [] {
      var n := |ips| - 1;
      IpNodesSize(ips[..n]);
      assert IpNodes(ips) == IpNodes(ips[..n]) + [IpNode(n, ips[n])];
      EncodeAllAppend(IpNodes(ips[..n]), [IpNode(n, ips[n])]);
      EncodeOne(IpNode(n, ips[n]));
      IpNodeSize(n, ips[n]);
    }
  }

  lemma {:induction false} OptLeafSize(typ: u16, payload: Option<seq<byte>>)
    ensures |EncodeAll(OptLeaf(typ, payload))| == if payload.None? then 0 else 4 + Align4(|payload.value|)
  {
    if payload.Some? {
      EncodeOne(Leaf(typ, payload.value));
    }
  }

  function EndpointSize(p: PeerConfig): nat {
    match p.endpoint
    case None => 0
    case Some(text) =>
      match ParseEndpoint(text)
      case Ok(In4(_, _)) => 20
      case Ok(In6(_, _)) => 32
      case Err(_) => 0
  }

  /** Bytes of one peer entry; exact. */
  function PeerSize(p: PeerConfig): nat {
    40
    + (if PeerFlags(p) != 0 then 8 else 0)
    + (if p.presharedKey.Some? then 36 else 0)
    + EndpointSize(p)
    + (if p.persistentKeepaliveInterval.Some? then 8 else 0)
    + (if p.allowedIPs != [] then 4 + IpsSize(p.allowedIPs) else 0)
  }

  lemma {:induction false} EndpointPayloadSize(p: PeerConfig)
    ensures |EncodeAll(OptLeaf(WGPEER_A_ENDPOINT, EndpointPayload(p)))| == EndpointSize(p)
  {
    hide ParseEndpoint, SockBytes, EncodeAll;
    OptLeafSize(WGPEER_A_ENDPOINT, EndpointPayload(p));
  }

  lemma {:induction false} PeerScalarsSize(p: PeerConfig)
    ensures |EncodeAll(PeerScalars(p))|
         == 36 + (if PeerFlags(p) != 0 then 8 else 0) + (if p.presharedKey.Some? then 36 else 0)
            + EndpointSize(p) + (if p.persistentKeepaliveInterval.Some? then 8 else 0)
  {
    hide EncodeAll, Encode, OptLeaf, EndpointPayload, EndpointSize, PeerFlags;
    var a := [Leaf(WGPEER_A_PUBLIC_KEY, p.publicKey)];
    var b := a + OptLeaf(WGPEER_A_FLAGS, FlagsPayload(p));
    var c := b + OptLeaf(WGPEER_A_PRESHARED_KEY, KeyPayload(p.presharedKey));
    var d := c + OptLeaf(WGPEER_A_ENDPOINT, EndpointPayload(p));
    OptLeafSize(WGPEER_A_PUBLIC_KEY, Some(p.publicKey));
    OneLeaf(WGPEER_A_PUBLIC_KEY, p.publicKey);
    EncodeAllAppend(a, OptLeaf(WGPEER_A_FLAGS, FlagsPayload(p)));
    OptLeafSize(WGPEER_A_FLAGS, FlagsPayload(p));
    EncodeAllAppend(b, OptLeaf(WGPEER_A_PRESHARED_KEY, KeyPayload(p.presharedKey)));
    OptLeafSize(WGPEER_A_PRESHARED_KEY, KeyPayload(p.presharedKey));
    EncodeAllAppend(c, OptLeaf(WGPEER_A_ENDPOINT, EndpointPayload(p)));
    EndpointPayloadSize(p);
    EncodeAllAppend(d, OptLeaf(WGPEER_A_PERSISTENT_KEEPALIVE_INTERVAL, U16Payload(p.persistentKeepaliveInterval)));
    OptLeafSize(WGPEER_A_PERSISTENT_KEEPALIVE_INTERVAL, U16Payload(p.persistentKeepaliveInterval));
  }

  lemma {:induction false} OneLeaf(typ: u16, b: seq<byte>)
    ensures OptLeaf(typ, Some(b)) == [Leaf(typ, b)]
  {
  }

  lemma {:induction false} NestSize(typ: u16, children: seq<Node>)
    ensures |Encode(Nest(typ, children))| == 4 + |EncodeAll(children)|
  {
  }

  lemma {:induction false} PeerNodeSize(i: nat, p: PeerConfig)
    ensures |Encode(PeerNode(i, p))| == PeerSize(p)
  {
    hide Encode, EncodeAll, PeerScalars, PeerFlags, EndpointSize, IpNodes;
    NestSize(i % 0x1_0000, PeerAttrs(p));
    EncodeAllAppend(PeerScalars(p), IpsNode(p.allowedIPs));
    PeerScalarsSize(p);
    if p.allowedIPs == [] {
      EmptySize();
    } else {
      EncodeOne(Nest(WGPEER_A_ALLOWEDIPS, IpNodes(p.allowedIPs)));
      NestSize(WGPEER_A_ALLOWEDIPS, IpNodes(p.allowedIPs));
      IpNodesSize(p.allowedIPs);
    }
  }

  lemma {:induction false} EmptySize()
    ensures EncodeAll([]) == []
  {
  }

  /** The 128 bytes the estimate allots to a peer cover everything but its allowed ips, and are
      reached exactly by a peer that has every optional part and an IPv6 endpoint. */
  lemma {:induction false} PeerBudgetIsTight(p: PeerConfig)
    ensures PeerSize(p) <= 128 + IpsSize(p.allowedIPs) <= 128 + 64 * |p.allowedIPs|
    ensures PeerSize(p) == 128 + IpsSize(p.allowedIPs) <==>
      && PeerFlags(p) != 0 && p.presharedKey.Some? && p.persistentKeepaliveInterval.Some? && p.allowedIPs != []
      && p.endpoint.Some? && ParseEndpoint(p.endpoint.value).Ok? && ParseEndpoint(p.endpoint.value).value.In6?
  {
    hide ParseEndpoint, PeerFlags, IpsSize;
    assert IpsSize([]) == 0 by {
      NoIpsSize();
    }
  }

  lemma {:induction false} NoIpsSize()
    ensures IpsSize([]) == 0
  {
  }

  /** `EstimateSetDeviceMessageSize`, peers part. */
  function EstimatePeers(peers: seq<PeerConfig>): nat {
    if peers == [] then 0
    else EstimatePeers(peers[..|peers| - 1]) + 128 + 64 * |peers[|peers| - 1].allowedIPs|
  }

  function Estimate(c: Config): nat {
    512 + EstimatePeers(c.peers)
  }

  /** How many allowed ips some peers have together. */
  function IpCount(peers: seq<PeerConfig>): nat {
    if peers == [] then 0 else |peers[0].allowedIPs| + IpCount(peers[1..])
  }

  lemma {:induction false} IpCountLast(peers: seq<PeerConfig>)
    requires peers != []
    ensures IpCount(peers) == IpCount(peers[..|peers| - 1]) + |peers[|peers| - 1].allowedIPs|
    decreases |peers|
  {
    var n := |peers| - 1;
    if n > 0 {
      IpCountLast(peers[1..]);
      assert peers[1..][..n - 1] == peers[..n][1..];
    }
  }

  /** 512 bytes, 128 for each peer and 64 for each allowed ip. */
  lemma {:induction false} EstimateCounts(peers: seq<PeerConfig>)
    ensures EstimatePeers(peers) == 128 * |peers| + 64 * IpCount(peers)
    decreases |peers|
  {
    hide IpCount;
    if peers == [] {
      NoneToCount();
    } else {
      EstimateCounts(peers[..|peers| - 1]);
      IpCountLast(peers);
    }
  }

  lemma {:induction false} NoneToCount()
    ensures IpCount([]) == 0
  {
  }

  method EstimateSetDeviceMessageSize(cfg: Config) returns (total: nat)
    ensures total == Estimate(cfg)
    ensures total == 512 + 128 * |cfg.peers| + 64 * IpCount(cfg.peers)
  {
    EstimateCounts(cfg.peers);
    total := 512;
    var i := 0;
    while i < |cfg.peers|
      invariant 0 <= i <= |cfg.peers|
      invariant total == 512 + EstimatePeers(cfg.peers[..i])
    {
      total := total + 128;
      total := total + |cfg.peers[i].allowedIPs| * 64;
      assert cfg.peers[..i + 1][..i] == cfg.peers[..i];
      i := i + 1;
    }
    assert cfg.peers[..i] == cfg.peers;
  }

  lemma {:induction false} EstimateGrows(peers: seq<PeerConfig>, i: nat)
    requires i <= |peers|
    ensures EstimatePeers(peers[..i]) <= EstimatePeers(peers)
    decreases |peers|
  {
    var n := |peers|;
    if i < n {
      EstimateGrows(peers[..n - 1], i);
      assert peers[..n - 1][..i] == peers[..i];
    } else {
      assert peers[..i] == peers;
    }
  }

  lemma {:induction false} PeerNodesSize(peers: seq<PeerConfig>)
    ensures |EncodeAll(PeerNodes(peers))| <= EstimatePeers(peers)
    decreases |peers|
  {
    hide Encode, PeerNode, PeerSize;
    if peers == [] {
      EmptySize();
    } else {
      var n := |peers| - 1;
      PeerNodesSize(peers[..n]);
      assert PeerNodes(peers) == PeerNodes(peers[..n]) + [PeerNode(n, peers[n])];
      EncodeAllAppend(PeerNodes(peers[..n]), [PeerNode(n, peers[n])]);
      EncodeOne(PeerNode(n, peers[n]));
      PeerNodeSize(n, peers[n]);
      PeerBudgetIsTight(peers[n]);
    }
  }

  lemma {:induction false} DeviceScalarsSize(name: string, c: Config)
    requires IsByteText(name) && |name| < IFNAMSIZ
    ensures |EncodeAll(DeviceScalars(name, c))| <= 80
  {
    hide EncodeAll, Encode, OptLeaf;
    var f := DeviceFlagsPayload(c);
    var a := [Leaf(WGDEVICE_A_IFNAME, TextBytes(name) + [0])];
    var b := a + OptLeaf(WGDEVICE_A_FLAGS, f);
    var d := b + OptLeaf(WGDEVICE_A_PRIVATE_KEY, KeyPayload(c.privateKey));
    var e := d + OptLeaf(WGDEVICE_A_LISTEN_PORT, U16Payload(c.listenPort));
    OneLeaf(WGDEVICE_A_IFNAME, TextBytes(name) + [0]);
    OptLeafSize(WGDEVICE_A_IFNAME, Some(TextBytes(name) + [0]));
    EncodeAllAppend(a, OptLeaf(WGDEVICE_A_FLAGS, f));
    OptLeafSize(WGDEVICE_A_FLAGS, f);
    EncodeAllAppend(b, OptLeaf(WGDEVICE_A_PRIVATE_KEY, KeyPayload(c.privateKey)));
    OptLeafSize(WGDEVICE_A_PRIVATE_KEY, KeyPayload(c.privateKey));
    EncodeAllAppend(d, OptLeaf(WGDEVICE_A_LISTEN_PORT, U16Payload(c.listenPort)));
    OptLeafSize(WGDEVICE_A_LISTEN_PORT, U16Payload(c.listenPort));
    EncodeAllAppend(e, OptLeaf(WGDEVICE_A_FWMARK, U32Payload(c.firewallMark)));
    OptLeafSize(WGDEVICE_A_FWMARK, U32Payload(c.firewallMark));
  }

  /** The whole message stays inside the estimate, with room to spare in its fixed part. */
  lemma {:induction false} MessageFitsEstimate(name: string, c: Config)
    requires IsByteText(name) && |name| < IFNAMSIZ
    ensures 20 + |EncodeAll(DeviceTree(name, c))| <= Estimate(c) - 408
  {
    hide EncodeAll, Encode, DeviceScalars;
    EncodeAllAppend(DeviceScalars(name, c), PeersNode(c.peers));
    DeviceScalarsSize(name, c);
    if c.peers == [] {
      EmptySize();
    } else {
      EncodeOne(Nest(WGDEVICE_A_PEERS, PeerNodes(c.peers)));
      NestSize(WGDEVICE_A_PEERS, PeerNodes(c.peers));
      PeerNodesSize(c.peers);
    }
  }
}
