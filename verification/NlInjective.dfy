/** Two configurations encode to the same SET_DEVICE message exactly when they differ in nothing
    but how addresses are spelt. */
module NlInjective {
  import opened Core
  import opened WireGuard
  import opened Inet
  import opened Address
  import opened Mnl
  import opened NlTree
  import opened NlBuild
  import opened NlParse
  import opened NlRoundTrip

  /** A configuration with every address in canonical spelling. */
  function SpellPeer(p: PeerConfig): PeerConfig
    requires EndpointOk(p)
  {
    p.(endpoint := NetEndpoint(p), allowedIPs := NetIps(p.allowedIPs))
  }

  function SpellPeers(peers: seq<PeerConfig>): (r: seq<PeerConfig>)
    requires AllEndpointsOk(peers)
    ensures |r| == |peers|
    ensures forall i :: 0 <= i < |peers| ==> r[i] == SpellPeer(peers[i])
  {
    seq(|peers|, i requires 0 <= i < |peers| => SpellPeer(peers[i]))
  }

  function Spell(c: Config): Config
    requires AllEndpointsOk(c.peers)
  {
    c.(peers := SpellPeers(c.peers))
  }

  // ----- reading attributes by type -----

  function Lookup(attrs: seq<Attr>, typ: nat): Option<seq<byte>> {
    if attrs == [] then None
    else if attrs[0].typ == typ then Some(attrs[0].payload)
    else Lookup(attrs[1..], typ)
  }

  lemma {:induction false} LookupAppend(a: seq<Attr>, b: seq<Attr>, typ: nat)
    ensures Lookup(a + b, typ) == if Lookup(a, typ).Some? then Lookup(a, typ) else Lookup(b, typ)
    decreases |a|
  {
    if a == [] {
      assert a + b == b;
    } else {
      assert (a + b)[1..] == a[1..] + b;
      LookupAppend(a[1..], b, typ);
    }
  }

  /** Appending an optional attribute of type t. */
  lemma {:induction false} LookupOpt(a: seq<Node>, t: u16, payload: Option<seq<byte>>, typ: nat)
    requires t < 0x4000
    ensures Lookup(SeenAll(a + OptLeaf(t, payload)), typ)
         == if Lookup(SeenAll(a), typ).Some? then Lookup(SeenAll(a), typ) else if t == typ then payload else None
  {
    if payload.Some? {
      SeenAppend(a, [Leaf(t, payload.value)]);
      SeenLeaf(t, payload.value);
      LookupAppend(SeenAll(a), [Attr(t, payload.value)], typ);
      assert [Attr(t, payload.value)][1..] == [];
    } else {
      assert a + [] == a;
    }
  }

  lemma {:induction false} LookupLeaf(t: u16, b: seq<byte>, typ: nat)
    requires t < 0x4000
    ensures Lookup(SeenAll([Leaf(t, b)]), typ) == if t == typ then Some(b) else None
  {
    SeenLeaf(t, b);
    assert [Attr(t, b)][1..] == [];
  }

  lemma {:induction false} LookupNest(a: seq<Node>, t: u16, children: seq<Node>, typ: nat)
    requires t < 0x4000
    ensures Lookup(SeenAll(a + [Nest(t, children)]), typ)
         == if Lookup(SeenAll(a), typ).Some? then Lookup(SeenAll(a), typ) else if t == typ then Some(EncodeAll(children)) else None
  {
    hide EncodeAll;
    SeenAppend(a, [Nest(t, children)]);
    SeenNest(t, children);
    LookupAppend(SeenAll(a), [Attr(t, EncodeAll(children))], typ);
    assert [Attr(t, EncodeAll(children))][1..] == [];
  }

  // ----- peers -----

  lemma {:induction false} PeerScalarsLookup(p: PeerConfig, typ: nat)
    ensures Lookup(SeenAll(PeerScalars(p)), typ)
         == if typ == WGPEER_A_PUBLIC_KEY then Some(p.publicKey)
            else if typ == WGPEER_A_FLAGS then FlagsPayload(p)
            else if typ == WGPEER_A_PRESHARED_KEY then KeyPayload(p.presharedKey)
            else if typ == WGPEER_A_ENDPOINT then EndpointPayload(p)
            else if typ == WGPEER_A_PERSISTENT_KEEPALIVE_INTERVAL then U16Payload(p.persistentKeepaliveInterval)
            else None
  {
    hide Lookup, SeenAll, OptLeaf, FlagsPayload, KeyPayload, EndpointPayload, U16Payload;
    var a := [Leaf(WGPEER_A_PUBLIC_KEY, p.publicKey)];
    var b := a + OptLeaf(WGPEER_A_FLAGS, FlagsPayload(p));
    var c := b + OptLeaf(WGPEER_A_PRESHARED_KEY, KeyPayload(p.presharedKey));
    var d := c + OptLeaf(WGPEER_A_ENDPOINT, EndpointPayload(p));
    LookupLeaf(WGPEER_A_PUBLIC_KEY, p.publicKey, typ);
    LookupOpt(a, WGPEER_A_FLAGS, FlagsPayload(p), typ);
    LookupOpt(b, WGPEER_A_PRESHARED_KEY, KeyPayload(p.presharedKey), typ);
    LookupOpt(c, WGPEER_A_ENDPOINT, EndpointPayload(p), typ);
    LookupOpt(d, WGPEER_A_PERSISTENT_KEEPALIVE_INTERVAL, U16Payload(p.persistentKeepaliveInterval), typ);
  }

  function IpsPayload(ips: seq<AllowedIP>): Option<seq<byte>> {
    if ips == [] then None else Some(EncodeAll(IpNodes(ips)))
  }

  lemma {:induction false} PeerLookup(p: PeerConfig, typ: nat)
    ensures Lookup(SeenAll(PeerAttrs(p)), typ)
         == if typ == WGPEER_A_ALLOWEDIPS then IpsPayload(p.allowedIPs) else Lookup(SeenAll(PeerScalars(p)), typ)
  {
    hide Lookup, SeenAll, PeerScalars, EncodeAll, IpNodes;
    PeerScalarsLookup(p, typ);
    if p.allowedIPs == [] {
      assert PeerScalars(p) + [] == PeerScalars(p);
    } else {
      LookupNest(PeerScalars(p), WGPEER_A_ALLOWEDIPS, IpNodes(p.allowedIPs), typ);
    }
  }

  lemma {:induction false} FlagsInjective(p: PeerConfig, q: PeerConfig)
    requires FlagsPayload(p) == FlagsPayload(q)
    ensures p.remove == q.remove && p.updateOnly == q.updateOnly && p.replaceAllowedIPs == q.replaceAllowedIPs
  {
    hide U32, GetU32;
    U32Back(PeerFlags(p));
    U32Back(PeerFlags(q));
    assert PeerFlags(p) == PeerFlags(q);
  }

  lemma {:induction false} EndpointInjective(p: PeerConfig, q: PeerConfig)
    requires EndpointOk(p) && EndpointOk(q) && EndpointPayload(p) == EndpointPayload(q)
    ensures NetEndpoint(p) == NetEndpoint(q)
  {
    hide ParseEndpoint, SockBytes, SockOf, FormatEndpoint;
    if p.endpoint.Some? {
      SockReadsBack(ParseEndpoint(p.endpoint.value).value);
      SockReadsBack(ParseEndpoint(q.endpoint.value).value);
    }
  }

  lemma {:induction false} NumbersInjective(m: Option<u16>, n: Option<u16>, k: Option<u32>, l: Option<u32>)
    ensures U16Payload(m) == U16Payload(n) ==> m == n
    ensures U32Payload(k) == U32Payload(l) ==> k == l
  {
    hide U16, U32, GetU16, GetU32;
    if m.Some? && n.Some? {
      U16Back(m.value);
      U16Back(n.value);
    }
    if k.Some? && l.Some? {
      U32Back(k.value);
      U32Back(l.value);
    }
  }

  lemma {:induction false} IpsInjective(a: seq<AllowedIP>, b: seq<AllowedIP>)
    requires IpsPayload(a) == IpsPayload(b)
    ensures NetIps(a) == NetIps(b)
  {
    hide EncodeAll, IpNodes, Walk, IpListOk, IpList, NetIp;
    if a != [] {
      IpsReadBack(a);
      IpsReadBack(b);
    }
  }

  lemma {:induction false} PeerInjective(p: PeerConfig, q: PeerConfig)
    requires EndpointOk(p) && EndpointOk(q) && SeenAll(PeerAttrs(p)) == SeenAll(PeerAttrs(q))
    ensures SpellPeer(p) == SpellPeer(q)
  {
    hide SeenAll, PeerAttrs, Lookup, PeerScalars, FlagsPayload, EndpointPayload, U16Payload, IpsPayload, EndpointOk, NetEndpoint, NetIps;
    PeerLookup(p, WGPEER_A_PUBLIC_KEY);
    PeerLookup(q, WGPEER_A_PUBLIC_KEY);
    PeerScalarsLookup(p, WGPEER_A_PUBLIC_KEY);
    PeerScalarsLookup(q, WGPEER_A_PUBLIC_KEY);
    PeerLookup(p, WGPEER_A_FLAGS);
    PeerLookup(q, WGPEER_A_FLAGS);
    PeerScalarsLookup(p, WGPEER_A_FLAGS);
    PeerScalarsLookup(q, WGPEER_A_FLAGS);
    FlagsInjective(p, q);
    PeerLookup(p, WGPEER_A_PRESHARED_KEY);
    PeerLookup(q, WGPEER_A_PRESHARED_KEY);
    PeerScalarsLookup(p, WGPEER_A_PRESHARED_KEY);
    PeerScalarsLookup(q, WGPEER_A_PRESHARED_KEY);
    PeerLookup(p, WGPEER_A_ENDPOINT);
    PeerLookup(q, WGPEER_A_ENDPOINT);
    PeerScalarsLookup(p, WGPEER_A_ENDPOINT);
    PeerScalarsLookup(q, WGPEER_A_ENDPOINT);
    EndpointInjective(p, q);
    PeerLookup(p, WGPEER_A_PERSISTENT_KEEPALIVE_INTERVAL);
    PeerLookup(q, WGPEER_A_PERSISTENT_KEEPALIVE_INTERVAL);
    PeerScalarsLookup(p, WGPEER_A_PERSISTENT_KEEPALIVE_INTERVAL);
    PeerScalarsLookup(q, WGPEER_A_PERSISTENT_KEEPALIVE_INTERVAL);
    NumbersInjective(p.persistentKeepaliveInterval, q.persistentKeepaliveInterval, None, None);
    PeerLookup(p, WGPEER_A_ALLOWEDIPS);
    PeerLookup(q, WGPEER_A_ALLOWEDIPS);
    IpsInjective(p.allowedIPs, q.allowedIPs);
  }

  lemma {:induction false} PeersInjective(ps: seq<PeerConfig>, qs: seq<PeerConfig>)
    requires AllEndpointsOk(ps) && AllEndpointsOk(qs)
    requires 4 + |EncodeAll(PeerNodes(ps))| < 0x1_0000
    requires EncodeAll(PeerNodes(ps)) == EncodeAll(PeerNodes(qs))
    ensures SpellPeers(ps) == SpellPeers(qs)
  {
    hide EncodeAll, Encode, Walk, PeerAttrs, SpellPeer, EndpointOk, AllFit, Fits;
    PeerNodesFit(ps);
    PeerNodesFit(qs);
    WalkEncoded(PeerNodes(ps));
    WalkEncoded(PeerNodes(qs));
    assert SeenAll(PeerNodes(ps)) == SeenAll(PeerNodes(qs));
    assert |ps| == |SeenAll(PeerNodes(ps))| == |qs|;
    forall i | 0 <= i < |ps|
      ensures SpellPeer(ps[i]) == SpellPeer(qs[i])
    {
      PartFits(PeerNodes(ps), i);
      PartFits(PeerNodes(qs), i);
      PeerNodeFits(i, ps[i]);
      PeerNodeFits(i, qs[i]);
      assert SeenAll(PeerNodes(ps))[i].payload == SeenAll(PeerNodes(qs))[i].payload;
      WalkEncoded(PeerAttrs(ps[i]));
      WalkEncoded(PeerAttrs(qs[i]));
      PeerInjective(ps[i], qs[i]);
    }
  }

  // ----- the device -----

  lemma {:induction false} DeviceScalarsLookup(name: string, c: Config, typ: nat)
    requires IsByteText(name)
    ensures Lookup(SeenAll(DeviceScalars(name, c)), typ)
         == if typ == WGDEVICE_A_IFNAME then Some(TextBytes(name) + [0])
            else if typ == WGDEVICE_A_FLAGS then DeviceFlagsPayload(c)
            else if typ == WGDEVICE_A_PRIVATE_KEY then KeyPayload(c.privateKey)
            else if typ == WGDEVICE_A_LISTEN_PORT then U16Payload(c.listenPort)
            else if typ == WGDEVICE_A_FWMARK then U32Payload(c.firewallMark)
            else None
  {
    hide Lookup, SeenAll, OptLeaf, DeviceFlagsPayload, KeyPayload, U16Payload, U32Payload, TextBytes;
    var a := [Leaf(WGDEVICE_A_IFNAME, TextBytes(name) + [0])];
    var b := a + OptLeaf(WGDEVICE_A_FLAGS, DeviceFlagsPayload(c));
    var d := b + OptLeaf(WGDEVICE_A_PRIVATE_KEY, KeyPayload(c.privateKey));
    var e := d + OptLeaf(WGDEVICE_A_LISTEN_PORT, U16Payload(c.listenPort));
    LookupLeaf(WGDEVICE_A_IFNAME, TextBytes(name) + [0], typ);
    LookupOpt(a, WGDEVICE_A_FLAGS, DeviceFlagsPayload(c), typ);
    LookupOpt(b, WGDEVICE_A_PRIVATE_KEY, KeyPayload(c.privateKey), typ);
    LookupOpt(d, WGDEVICE_A_LISTEN_PORT, U16Payload(c.listenPort), typ);
    LookupOpt(e, WGDEVICE_A_FWMARK, U32Payload(c.firewallMark), typ);
  }

  function PeersPayload(peers: seq<PeerConfig>): Option<seq<byte>> {
    if peers == [] then None else Some(EncodeAll(PeerNodes(peers)))
  }

  lemma {:induction false} DeviceLookup(name: string, c: Config, typ: nat)
    requires IsByteText(name)
    ensures Lookup(SeenAll(DeviceTree(name, c)), typ)
         == if typ == WGDEVICE_A_PEERS then PeersPayload(c.peers) else Lookup(SeenAll(DeviceScalars(name, c)), typ)
  {
    hide Lookup, SeenAll, DeviceScalars, EncodeAll, PeerNodes;
    DeviceScalarsLookup(name, c, typ);
    if c.peers == [] {
      assert DeviceScalars(name, c) + [] == DeviceScalars(name, c);
    } else {
      LookupNest(DeviceScalars(name, c), WGDEVICE_A_PEERS, PeerNodes(c.peers), typ);
    }
  }

  /** The scalar attributes of two equal trees agree. */
  lemma {:induction false} ScalarsInjective(m: string, n: string, a: Config, b: Config)
    requires IsByteText(m) && IsByteText(n) && SeenAll(DeviceTree(m, a)) == SeenAll(DeviceTree(n, b))
    ensures TextBytes(m) + [0] == TextBytes(n) + [0]
    ensures a.replacePeers == b.replacePeers && a.privateKey == b.privateKey
    ensures a.listenPort == b.listenPort && a.firewallMark == b.firewallMark
    ensures PeersPayload(a.peers) == PeersPayload(b.peers)
  {
    hide SeenAll, DeviceTree, Lookup, DeviceScalars, U16Payload, U32Payload, PeersPayload, TextBytes;
    DeviceLookup(m, a, WGDEVICE_A_IFNAME);
    DeviceLookup(n, b, WGDEVICE_A_IFNAME);
    DeviceScalarsLookup(m, a, WGDEVICE_A_IFNAME);
    DeviceScalarsLookup(n, b, WGDEVICE_A_IFNAME);
    DeviceLookup(m, a, WGDEVICE_A_FLAGS);
    DeviceLookup(n, b, WGDEVICE_A_FLAGS);
    DeviceScalarsLookup(m, a, WGDEVICE_A_FLAGS);
    DeviceScalarsLookup(n, b, WGDEVICE_A_FLAGS);
    DeviceLookup(m, a, WGDEVICE_A_PRIVATE_KEY);
    DeviceLookup(n, b, WGDEVICE_A_PRIVATE_KEY);
    DeviceScalarsLookup(m, a, WGDEVICE_A_PRIVATE_KEY);
    DeviceScalarsLookup(n, b, WGDEVICE_A_PRIVATE_KEY);
    DeviceLookup(m, a, WGDEVICE_A_LISTEN_PORT);
    DeviceLookup(n, b, WGDEVICE_A_LISTEN_PORT);
    DeviceScalarsLookup(m, a, WGDEVICE_A_LISTEN_PORT);
    DeviceScalarsLookup(n, b, WGDEVICE_A_LISTEN_PORT);
    DeviceLookup(m, a, WGDEVICE_A_FWMARK);
    DeviceLookup(n, b, WGDEVICE_A_FWMARK);
    DeviceScalarsLookup(m, a, WGDEVICE_A_FWMARK);
    DeviceScalarsLookup(n, b, WGDEVICE_A_FWMARK);
    DeviceLookup(m, a, WGDEVICE_A_PEERS);
    DeviceLookup(n, b, WGDEVICE_A_PEERS);
    NumbersInjective(a.listenPort, b.listenPort, a.firewallMark, b.firewallMark);
  }

  lemma {:induction false} NameInjective(m: string, n: string)
    requires IsByteText(m) && IsByteText(n) && IsIfName(m) && IsIfName(n)
    requires TextBytes(m) + [0] == TextBytes(n) + [0]
    ensures m == n
  {
    hide TextBytes, BytesText;
    NameBytes(m, []);
    NameBytes(n, []);
  }

  /** Equal messages come from the same interface name and from configurations that differ at
      most in how addresses are spelt: flags, "omitted" against "set to zero", peers and their
      order are all told apart. */
  lemma {:induction false} SetMessageInjective(f: u16, g: u16, s: u32, t: u32, m: string, n: string, a: Config, b: Config)
    requires IsByteText(m) && IsByteText(n) && IsIfName(m) && IsIfName(n)
    requires AllEndpointsOk(a.peers) && AllEndpointsOk(b.peers) && NestsFit(a) && NestsFit(b)
    requires FitsLength(m, a) && FitsLength(n, b)
    requires SetMessage(f, s, m, a) == SetMessage(g, t, n, b)
    ensures m == n && Spell(a) == Spell(b)
  {
    hide EncodeAll, DeviceTree, Walk, SeenAll, AllFit, SetMessage, PeerNodes, TextBytes, AllEndpointsOk, SpellPeers;
    MessageBody(f, s, m, a);
    MessageBody(g, t, n, b);
    DeviceTreeFits(m, a);
    DeviceTreeFits(n, b);
    WalkEncoded(DeviceTree(m, a));
    WalkEncoded(DeviceTree(n, b));
    ScalarsInjective(m, n, a, b);
    NameInjective(m, n);
    if a.peers != [] {
      PeersInjective(a.peers, b.peers);
    }
  }

  // ----- the converse -----

  /** The families `ParseCIDR` gives. */
  predicate KnownFamilies(peers: seq<PeerConfig>) {
    forall i, j :: 0 <= i < |peers| && 0 <= j < |peers[i].allowedIPs| ==> KnownFamily(peers[i].allowedIPs[j])
  }

  lemma {:induction false} IpSpelling(i: nat, a: AllowedIP, b: AllowedIP)
    requires KnownFamily(a) && NetIp(a) == NetIp(b)
    ensures IpNode(i, a) == IpNode(i, b)
  {
    hide Pton4, Pton6, Ntop4, Ntop6, IpBytes;
    var x, y := IpBytes(a), IpBytes(b);
    if a.family == AF_INET6 {
      assert x[..16] == x && y[..16] == y;
      Pton6Ntop6(x);
      Pton6Ntop6(y);
    } else {
      assert x[..4] == x && y[..4] == y;
      Pton4Ntop4(x);
      Pton4Ntop4(y);
    }
  }

  lemma {:induction false} EndpointSpelling(p: PeerConfig, q: PeerConfig)
    requires EndpointOk(p) && EndpointOk(q) && NetEndpoint(p) == NetEndpoint(q)
    ensures EndpointPayload(p) == EndpointPayload(q)
  {
    hide ParseEndpoint, FormatEndpoint, SockBytes;
    if p.endpoint.Some? {
      EndpointRoundTrip(ParseEndpoint(p.endpoint.value).value);
      EndpointRoundTrip(ParseEndpoint(q.endpoint.value).value);
    }
  }

  lemma {:induction false} PeerSpelling(i: nat, p: PeerConfig, q: PeerConfig)
    requires EndpointOk(p) && EndpointOk(q) && SpellPeer(p) == SpellPeer(q)
    requires forall j :: 0 <= j < |p.allowedIPs| ==> KnownFamily(p.allowedIPs[j])
    ensures PeerNode(i, p) == PeerNode(i, q)
  {
    hide EndpointOk, NetEndpoint, EndpointPayload, NetIp, KnownFamily, IpNode, U16Payload, KeyPayload, PeerFlags, U32;
    EndpointSpelling(p, q);
    assert PeerFlags(p) == PeerFlags(q) by {
      FlagsOfSpelling(p, q);
    }
    forall j | 0 <= j < |p.allowedIPs|
      ensures IpNode(j, p.allowedIPs[j]) == IpNode(j, q.allowedIPs[j])
    {
      assert NetIps(p.allowedIPs)[j] == NetIps(q.allowedIPs)[j];
      IpSpelling(j, p.allowedIPs[j], q.allowedIPs[j]);
    }
    assert |NetIps(p.allowedIPs)| == |NetIps(q.allowedIPs)|;
    assert IpNodes(p.allowedIPs) == IpNodes(q.allowedIPs);
  }

  lemma {:induction false} FlagsOfSpelling(p: PeerConfig, q: PeerConfig)
    requires EndpointOk(p) && EndpointOk(q) && SpellPeer(p) == SpellPeer(q)
    ensures PeerFlags(p) == PeerFlags(q)
  {
    hide EndpointOk, NetEndpoint, NetIps;
  }

  lemma {:induction false} TreeSpelling(name: string, a: Config, b: Config)
    requires IsByteText(name) && AllEndpointsOk(a.peers) && AllEndpointsOk(b.peers) && KnownFamilies(a.peers)
    requires Spell(a) == Spell(b)
    ensures DeviceTree(name, a) == DeviceTree(name, b)
  {
    hide EndpointOk, SpellPeer, KnownFamily, PeerNode;
    assert |SpellPeers(a.peers)| == |SpellPeers(b.peers)|;
    forall i | 0 <= i < |a.peers|
      ensures PeerNode(i, a.peers[i]) == PeerNode(i, b.peers[i])
    {
      assert SpellPeers(a.peers)[i] == SpellPeers(b.peers)[i];
      PeerSpelling(i, a.peers[i], b.peers[i]);
    }
    assert PeerNodes(a.peers) == PeerNodes(b.peers);
    SpelledScalars(name, a, b);
  }

  lemma {:induction false} SpelledScalars(name: string, a: Config, b: Config)
    requires IsByteText(name) && AllEndpointsOk(a.peers) && AllEndpointsOk(b.peers) && Spell(a) == Spell(b)
    ensures DeviceScalars(name, a) == DeviceScalars(name, b)
  {
    hide AllEndpointsOk, SpellPeers, U16Payload, U32Payload, KeyPayload, TextBytes;
  }

  /** With the header given, two configurations build the same message if and only if they are
      the same up to the spelling of addresses. */
  lemma {:induction false} SameMessageIffSameSpelling(f: u16, s: u32, name: string, a: Config, b: Config)
    requires IsByteText(name) && IsIfName(name)
    requires AllEndpointsOk(a.peers) && AllEndpointsOk(b.peers) && NestsFit(a) && NestsFit(b)
    requires KnownFamilies(a.peers) && KnownFamilies(b.peers)
    requires FitsLength(name, a) && FitsLength(name, b)
    ensures SetMessage(f, s, name, a) == SetMessage(f, s, name, b) <==> Spell(a) == Spell(b)
  {
    hide EncodeAll, DeviceTree, AllEndpointsOk, SpellPeers, KnownFamilies, NestsFit, IsIfName, Spell;
    if SetMessage(f, s, name, a) == SetMessage(f, s, name, b) {
      SetMessageInjective(f, f, s, s, name, name, a, b);
    }
    if Spell(a) == Spell(b) {
      TreeSpelling(name, a, b);
    }
  }
}
