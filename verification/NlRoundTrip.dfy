/** What BuildSetDeviceMessage writes, read by ParseDeviceMessage, byte for byte. */
module NlRoundTrip {
  import opened Core
  import opened WireGuard
  import opened Inet
  import opened Address
  import opened Mnl
  import opened NlTree
  import opened NlBuild
  import opened NlParse

  // ----- what a configuration reads back as -----

  /** An allowed ip in the spelling `inet_ntop` gives its bytes. */
  function NetIp(aip: AllowedIP): AllowedIP {
    AllowedIP(PrintAddress(aip.family, IpBytes(aip)), aip.family, aip.cidr)
  }

  function NetIps(ips: seq<AllowedIP>): (r: seq<AllowedIP>)
    ensures |r| == |ips|
    ensures forall i :: 0 <= i < |ips| ==> r[i] == NetIp(ips[i])
  {
    seq(|ips|, i requires 0 <= i < |ips| => NetIp(ips[i]))
  }

  function NetEndpoint(p: PeerConfig): Option<string>
    requires EndpointOk(p)
  {
    match p.endpoint
    case None => None
    case Some(text) => Some(FormatEndpoint(ParseEndpoint(text).value))
  }

  function NetPeer(p: PeerConfig): Peer
    requires EndpointOk(p)
  {
    Peer(p.publicKey, p.presharedKey, NetEndpoint(p),
         if p.persistentKeepaliveInterval.Some? then p.persistentKeepaliveInterval.value else 0,
         0, 0, 0, NetIps(p.allowedIPs), 0)
  }

  predicate AllEndpointsOk(peers: seq<PeerConfig>) {
    forall i :: 0 <= i < |peers| ==> EndpointOk(peers[i])
  }

  function NetPeers(peers: seq<PeerConfig>): (r: seq<Peer>)
    requires AllEndpointsOk(peers)
    ensures |r| == |peers|
    ensures forall i :: 0 <= i < |peers| ==> r[i] == NetPeer(peers[i])
  {
    seq(|peers|, i requires 0 <= i < |peers| => NetPeer(peers[i]))
  }

  /** The device a configuration reads back as; neighbouring peers with one key are merged. */
  function NetDevice(name: string, c: Config): Device
    requires AllEndpointsOk(c.peers)
  {
    Device(name, false, c.privateKey, None,
           if c.listenPort.Some? then c.listenPort.value else 0,
           if c.firewallMark.Some? then c.firewallMark.value else 0,
           MergeAll([], NetPeers(c.peers)))
  }

  /** No nest length wraps: the peers nest, the largest, stays below 2^16 bytes. */
  predicate NestsFit(c: Config) {
    4 + |EncodeAll(PeerNodes(c.peers))| < 0x1_0000
  }

  // ----- attribute lists -----

  lemma {:induction false} SeenAppend(a: seq<Node>, b: seq<Node>)
    ensures SeenAll(a + b) == SeenAll(a) + SeenAll(b)
  {
    hide Seen;
  }

  lemma {:induction false} SeenLeaf(typ: u16, payload: seq<byte>)
    requires typ < 0x4000
    ensures SeenAll([Leaf(typ, payload)]) == [Attr(typ, payload)]
  {
  }

  // ----- one allowed ip -----

  /** The three attributes of an entry, as the callback sees them. */
  function IpSeen(aip: AllowedIP): seq<Attr> {
    [Attr(WGALLOWEDIP_A_FAMILY, U16(aip.family)), Attr(WGALLOWEDIP_A_IPADDR, IpBytes(aip)), Attr(WGALLOWEDIP_A_CIDR_MASK, [aip.cidr])]
  }

  lemma {:induction false} FamilyBack(f: byte)
    ensures GetU16(U16(f)) % 256 == f
  {
  }

  /** What an attribute of an entry says, if it is one of the three. */
  predicate IpSays(a: Attr, family: byte, raw: seq<byte>, cidr: byte) {
    && (a.typ == 1 ==> a.payload == U16(family))
    && (a.typ == 2 ==> a.payload == raw)
    && (a.typ == 3 ==> a.payload == [cidr])
  }

  predicate AllIpSay(attrs: seq<Attr>, family: byte, raw: seq<byte>, cidr: byte) {
    forall i :: 0 <= i < |attrs| ==> IpSays(attrs[i], family, raw, cidr)
  }

  /** All three are there, the family before any address; anything else may stand between. */
  predicate Orderly(attrs: seq<Attr>, family: bool, address: bool, mask: bool)
    decreases |attrs|
  {
    if attrs == [] then family && address && mask
    else
      var typ, rest := attrs[0].typ, attrs[1..];
      if typ == 1 then Orderly(rest, true, address, mask)
      else if typ == 2 then family && Orderly(rest, family, true, mask)
      else if typ == 3 then Orderly(rest, family, address, true)
      else Orderly(rest, family, address, mask)
  }

  lemma {:induction false} OrderlySettles(attrs: seq<Attr>, family: bool, address: bool, mask: bool)
    requires Orderly(attrs, family, address, mask)
    ensures Settles(attrs, family, true, mask)
    decreases |attrs|
  {
    if attrs != [] {
      var typ := attrs[0].typ;
      OrderlySettles(attrs[1..], family || typ == WGALLOWEDIP_A_FAMILY, address || typ == WGALLOWEDIP_A_IPADDR,
        mask || typ == WGALLOWEDIP_A_CIDR_MASK);
    }
  }

  /** Reading the rest of such an entry, from `aip`. */
  lemma {:induction false} OrderlyFold(attrs: seq<Attr>, aip: AllowedIP, family: byte, raw: seq<byte>, cidr: byte, f: bool, a: bool, m: bool)
    requires |raw| >= if family == AF_INET6 then 16 else 4
    requires AllIpSay(attrs, family, raw, cidr) && Orderly(attrs, f, a, m)
    requires (f ==> aip.family == family) && (a ==> aip.ip == PrintAddress(family, raw)) && (m ==> aip.cidr == cidr)
    ensures Readable(attrs, aip.family) && IpFold(attrs, aip) == AllowedIP(PrintAddress(family, raw), family, cidr)
    decreases |attrs|
  {
    hide GetU16, U16, PrintAddress;
    if attrs != [] {
      var typ := attrs[0].typ;
      FamilyBack(family);
      assert IpSays(attrs[0], family, raw, cidr);
      assert Readable([attrs[0]], aip.family) by {
        assert [attrs[0]][1..] == [];
      }
      OrderlyFold(attrs[1..], IpStep(attrs[0], aip), family, raw, cidr, f || typ == WGALLOWEDIP_A_FAMILY,
        a || typ == WGALLOWEDIP_A_IPADDR, m || typ == WGALLOWEDIP_A_CIDR_MASK);
    }
  }

  /** An entry reads back whatever order it comes in, as long as the family precedes the address. */
  lemma {:induction false} OrderlyReadsBack(attrs: seq<Attr>, family: byte, raw: seq<byte>, cidr: byte)
    requires |raw| >= if family == AF_INET6 then 16 else 4
    requires AllIpSay(attrs, family, raw, cidr) && Orderly(attrs, false, false, false)
    ensures IpEntryOk(attrs) && IpOf(attrs) == AllowedIP(PrintAddress(family, raw), family, cidr)
  {
    hide PrintAddress, AllIpSay, Orderly;
    OrderlySettles(attrs, false, false, false);
    OrderlyFold(attrs, AllowedIP("", AF_INET, 0), family, raw, cidr, false, false, false);
    OrderlyFold(attrs, AllowedIP("", AF_INET6, 0), family, raw, cidr, false, false, false);
  }

  lemma {:induction false} IpReadsBack(aip: AllowedIP)
    ensures IpEntryOk(IpSeen(aip)) && IpOf(IpSeen(aip)) == NetIp(aip)
  {
    hide U16, PrintAddress, IpBytes, IpEntryOk, IpOf;
    var s := IpSeen(aip);
    var t, u, v := s[1..], s[1..][1..], s[1..][1..][1..];
    assert t[0] == s[1] && u[0] == s[2] && v == [];
    assert Orderly(v, true, true, true);
    assert Orderly(u, true, true, false);
    assert Orderly(t, true, false, false);
    OrderlyReadsBack(s, aip.family, IpBytes(aip), aip.cidr);
  }

  lemma {:induction false} IpPayload(i: nat, aip: AllowedIP)
    ensures Fits(IpNode(i, aip))
    ensures Walk(Seen(IpNode(i, aip)).payload) == IpSeen(aip)
  {
    hide U16, IpBytes, Walk, EncodeAll, AllFit, Encode;
    var a, b, c := Leaf(WGALLOWEDIP_A_FAMILY, U16(aip.family)), Leaf(WGALLOWEDIP_A_IPADDR, IpBytes(aip)), Leaf(WGALLOWEDIP_A_CIDR_MASK, [aip.cidr]);
    var ns := [a, b, c];
    assert IpNode(i, aip).children == ns;
    FitThree(a, b, c);
    IpNodeSize(i, aip);
    NestSize(i % 0x1_0000, ns);
    WalkEncoded(ns);
    assert SeenAll(ns) == IpSeen(aip);
  }

  lemma {:induction false} FitThree(a: Node, b: Node, c: Node)
    requires Fits(a) && Fits(b) && Fits(c)
    ensures AllFit([a, b, c])
  {
    hide Fits;
    assert [a, b, c][1..] == [b, c] && [b, c][1..] == [c] && [c][1..] == [];
    assert AllFit([c]);
    assert AllFit([b, c]);
  }

  lemma {:induction false} IpNodesFit(ips: seq<AllowedIP>)
    ensures AllFit(IpNodes(ips))
    decreases |ips|
  {
    hide Fits, IpNode, Encode;
    if ips != [] {
      var n := |ips| - 1;
      IpNodesFit(ips[..n]);
      IpPayload(n, ips[n]);
      assert IpNodes(ips) == IpNodes(ips[..n]) + [IpNode(n, ips[n])];
      FitOne(IpNode(n, ips[n]));
      AllFitAppend(IpNodes(ips[..n]), [IpNode(n, ips[n])]);
    }
  }

  lemma {:induction false} FitOne(n: Node)
    requires Fits(n)
    ensures AllFit([n])
  {
    hide Fits;
    assert [n][1..] == [];
  }

  lemma {:induction false} IpsReadBack(ips: seq<AllowedIP>)
    ensures var entries := Walk(EncodeAll(IpNodes(ips)));
            IpListOk(entries) && IpList(entries) == NetIps(ips)
  {
    hide Walk, EncodeAll, IpEntryOk, IpOf, NetIp, Seen, IpNode;
    IpNodesFit(ips);
    WalkEncoded(IpNodes(ips));
    var entries := Walk(EncodeAll(IpNodes(ips)));
    forall i | 0 <= i < |entries|
      ensures IpEntryOk(Walk(entries[i].payload)) && IpOf(Walk(entries[i].payload)) == NetIp(ips[i])
    {
      IpPayload(i, ips[i]);
      IpReadsBack(ips[i]);
    }
    assert IpList(entries) == NetIps(ips);
  }

  // ----- one peer -----

  lemma {:induction false} PeerFoldAppend(a: seq<Attr>, b: seq<Attr>, p: Peer)
    requires PeerOk(a) && PeerOk(b)
    ensures PeerOk(a + b) && PeerFold(a + b, p) == PeerFold(b, PeerFold(a, p))
    decreases |a|
  {
    hide PeerAttrOk, PeerStep;
    if a == [] {
      assert a + b == b;
    } else {
      assert (a + b)[1..] == a[1..] + b;
      PeerFoldAppend(a[1..], b, PeerStep(a[0], p));
    }
  }

  lemma {:induction false} PeerOne(a: Attr, p: Peer)
    requires PeerAttrOk(a)
    ensures PeerOk([a]) && PeerFold([a], p) == PeerStep(a, p)
  {
    hide PeerAttrOk, PeerStep;
    assert [a][1..] == [];
    assert PeerFold([], PeerStep(a, p)) == PeerStep(a, p);
  }

  /** Reading an optional attribute after the attributes `a` read so far. */
  lemma {:induction false} PeerOpt(a: seq<Node>, p: Peer, typ: u16, payload: Option<seq<byte>>, q: Peer)
    requires PeerOk(SeenAll(a)) && typ < 0x4000
    requires payload.Some? ==> PeerAttrOk(Attr(typ, payload.value)) && PeerStep(Attr(typ, payload.value), PeerFold(SeenAll(a), p)) == q
    requires payload.None? ==> PeerFold(SeenAll(a), p) == q
    ensures PeerOk(SeenAll(a + OptLeaf(typ, payload))) && PeerFold(SeenAll(a + OptLeaf(typ, payload)), p) == q
  {
    hide PeerAttrOk, PeerStep;
    if payload.Some? {
      SeenAppend(a, [Leaf(typ, payload.value)]);
      SeenLeaf(typ, payload.value);
      PeerOne(Attr(typ, payload.value), PeerFold(SeenAll(a), p));
      PeerFoldAppend(SeenAll(a), [Attr(typ, payload.value)], p);
    } else {
      assert a + [] == a;
    }
  }

  lemma {:induction false} SockReadsBack(sa: SockAddr)
    ensures PeerAttrOk(Attr(WGPEER_A_ENDPOINT, SockBytes(sa))) && SockOf(SockBytes(sa)) == sa
  {
    hide Zeros;
    var b := SockBytes(sa);
    match sa
    case In4(a, port) =>
      assert b[4..8] == a;
      U16RoundTrip(AF_INET, b[2..]);
      U16RoundTrip(port, b[4..]);
      assert b == U16(AF_INET) + b[2..] && b[2..] == BE16(port) + b[4..];
    case In6(a, port) =>
      assert b[8..24] == a;
      U16RoundTrip(AF_INET6, b[2..]);
      U16RoundTrip(port, b[4..]);
      assert b == U16(AF_INET6) + b[2..] && b[2..] == BE16(port) + b[4..];
  }

  lemma {:induction false} EndpointReadsBack(p: PeerConfig, q: Peer)
    requires EndpointOk(p) && q.endpoint == None
    ensures var b := EndpointPayload(p);
            && (b.None? ==> q == q.(endpoint := NetEndpoint(p)))
            && (b.Some? ==> PeerAttrOk(Attr(WGPEER_A_ENDPOINT, b.value))
                            && PeerStep(Attr(WGPEER_A_ENDPOINT, b.value), q) == q.(endpoint := NetEndpoint(p)))
  {
    hide ParseEndpoint, SockBytes, SockOf, FormatEndpoint;
    if p.endpoint.Some? {
      SockReadsBack(ParseEndpoint(p.endpoint.value).value);
    }
  }

  lemma {:induction false} U16Back(n: u16)
    ensures GetU16(U16(n)) == n
  {
    U16RoundTrip(n, []);
    assert U16(n) + [] == U16(n);
  }

  lemma {:induction false} U32Back(n: u32)
    ensures GetU32(U32(n)) == n
  {
    U32RoundTrip(n, []);
    assert U32(n) + [] == U32(n);
  }

  lemma {:induction false} KeepaliveReadsBack(p: PeerConfig, q: Peer)
    requires q.persistentKeepaliveInterval == 0
    ensures var b := U16Payload(p.persistentKeepaliveInterval);
            var n := if p.persistentKeepaliveInterval.Some? then p.persistentKeepaliveInterval.value else 0;
            && (b.None? ==> q == q.(persistentKeepaliveInterval := n))
            && (b.Some? ==> PeerAttrOk(Attr(WGPEER_A_PERSISTENT_KEEPALIVE_INTERVAL, b.value))
                            && PeerStep(Attr(WGPEER_A_PERSISTENT_KEEPALIVE_INTERVAL, b.value), q) == q.(persistentKeepaliveInterval := n))
  {
    hide GetU16, U16;
    if p.persistentKeepaliveInterval.Some? {
      U16Back(p.persistentKeepaliveInterval.value);
    }
  }

  lemma {:induction false} KeyReadsBack(p: PeerConfig, q: Peer)
    requires q.presharedKey == None
    ensures PeerAttrOk(Attr(WGPEER_A_PUBLIC_KEY, p.publicKey))
    ensures PeerStep(Attr(WGPEER_A_PUBLIC_KEY, p.publicKey), BlankPeer(NO_KEY)) == BlankPeer(p.publicKey)
    ensures var b := KeyPayload(p.presharedKey);
            && (b.None? ==> q == q.(presharedKey := p.presharedKey))
            && (b.Some? ==> PeerAttrOk(Attr(WGPEER_A_PRESHARED_KEY, b.value))
                            && PeerStep(Attr(WGPEER_A_PRESHARED_KEY, b.value), q) == q.(presharedKey := p.presharedKey))
  {
    hide Zeros;
    assert p.publicKey[..KEY_LEN] == p.publicKey;
    if p.presharedKey.Some? {
      assert p.presharedKey.value[..KEY_LEN] == p.presharedKey.value;
    }
  }

  lemma {:induction false} FlagsReadBack(p: PeerConfig, q: Peer)
    ensures var b := FlagsPayload(p);
            b.Some? ==> PeerAttrOk(Attr(WGPEER_A_FLAGS, b.value)) && PeerStep(Attr(WGPEER_A_FLAGS, b.value), q) == q
  {
    hide PeerFlags, U32;
  }

  lemma {:induction false} PeerScalarsReadBack(p: PeerConfig)
    requires EndpointOk(p)
    ensures PeerOk(SeenAll(PeerScalars(p)))
    ensures PeerFold(SeenAll(PeerScalars(p)), BlankPeer(NO_KEY)) == NetPeer(p).(allowedIPs := [])
  {
    hide PeerOk, PeerFold, SeenAll, OptLeaf, PeerAttrOk, PeerStep, NetEndpoint, NetIps, EndpointOk, Zeros;
    hide FlagsPayload, KeyPayload, EndpointPayload, U16Payload;
    var p0 := BlankPeer(NO_KEY);
    var q0 := BlankPeer(p.publicKey);
    var q1 := q0.(presharedKey := p.presharedKey);
    var q2 := q1.(endpoint := NetEndpoint(p));
    var q3 := NetPeer(p).(allowedIPs := []);
    var a := [Leaf(WGPEER_A_PUBLIC_KEY, p.publicKey)];
    var b := a + OptLeaf(WGPEER_A_FLAGS, FlagsPayload(p));
    var c := b + OptLeaf(WGPEER_A_PRESHARED_KEY, KeyPayload(p.presharedKey));
    var d := c + OptLeaf(WGPEER_A_ENDPOINT, EndpointPayload(p));
    KeyReadsBack(p, q0);
    SeenLeaf(WGPEER_A_PUBLIC_KEY, p.publicKey);
    PeerOne(Attr(WGPEER_A_PUBLIC_KEY, p.publicKey), p0);
    FlagsReadBack(p, q0);
    PeerOpt(a, p0, WGPEER_A_FLAGS, FlagsPayload(p), q0);
    PeerOpt(b, p0, WGPEER_A_PRESHARED_KEY, KeyPayload(p.presharedKey), q1);
    EndpointReadsBack(p, q1);
    PeerOpt(c, p0, WGPEER_A_ENDPOINT, EndpointPayload(p), q2);
    KeepaliveReadsBack(p, q2);
    PeerOpt(d, p0, WGPEER_A_PERSISTENT_KEEPALIVE_INTERVAL, U16Payload(p.persistentKeepaliveInterval), q3);
  }

  lemma {:induction false} PeerAttrsReadBack(p: PeerConfig)
    requires EndpointOk(p)
    ensures PeerOk(SeenAll(PeerAttrs(p))) && PeerOf(SeenAll(PeerAttrs(p))) == NetPeer(p)
  {
    hide PeerOk, PeerFold, SeenAll, PeerScalars, NetEndpoint, EndpointOk, IpNodes, EncodeAll, Walk, IpListOk, IpList, Zeros;
    PeerScalarsReadBack(p);
    var q := NetPeer(p).(allowedIPs := []);
    var ips := p.allowedIPs;
    if ips == [] {
      assert PeerScalars(p) + [] == PeerScalars(p);
      assert NetIps(ips) == [];
    } else {
      var nest := Nest(WGPEER_A_ALLOWEDIPS, IpNodes(ips));
      var a := Attr(WGPEER_A_ALLOWEDIPS, EncodeAll(IpNodes(ips)));
      IpsReadBack(ips);
      SeenAppend(PeerScalars(p), [nest]);
      SeenNest(WGPEER_A_ALLOWEDIPS, IpNodes(ips));
      assert [] + NetIps(ips) == NetIps(ips);
      PeerOne(a, q);
      PeerFoldAppend(SeenAll(PeerScalars(p)), [a], BlankPeer(NO_KEY));
    }
  }

  lemma {:induction false} SeenNest(typ: u16, children: seq<Node>)
    requires typ < 0x4000
    ensures SeenAll([Nest(typ, children)]) == [Attr(typ, EncodeAll(children))]
  {
    hide EncodeAll;
  }

  // ----- nothing wraps -----

  lemma {:induction false} PartFits(ns: seq<Node>, i: nat)
    requires i < |ns|
    ensures |Encode(ns[i])| <= |EncodeAll(ns)|
    decreases i
  {
    hide Encode;
    if i > 0 {
      PartFits(ns[1..], i - 1);
    }
  }

  lemma {:induction false} OptFits(a: seq<Node>, typ: u16, payload: Option<seq<byte>>)
    requires AllFit(a) && (payload.Some? ==> |payload.value| <= 100)
    ensures AllFit(a + OptLeaf(typ, payload))
  {
    hide AllFit;
    if payload.Some? {
      assert Fits(Leaf(typ, payload.value));
      FitOne(Leaf(typ, payload.value));
      AllFitAppend(a, [Leaf(typ, payload.value)]);
    } else {
      assert a + [] == a;
    }
  }

  lemma {:induction false} PeerScalarsFit(p: PeerConfig)
    ensures AllFit(PeerScalars(p))
  {
    hide AllFit, Fits, OptLeaf, FlagsPayload, KeyPayload, EndpointPayload, U16Payload;
    var a := [Leaf(WGPEER_A_PUBLIC_KEY, p.publicKey)];
    LeafFits(WGPEER_A_PUBLIC_KEY, p.publicKey);
    OptFits(a, WGPEER_A_FLAGS, FlagsPayload(p));
    var b := a + OptLeaf(WGPEER_A_FLAGS, FlagsPayload(p));
    OptFits(b, WGPEER_A_PRESHARED_KEY, KeyPayload(p.presharedKey));
    var c := b + OptLeaf(WGPEER_A_PRESHARED_KEY, KeyPayload(p.presharedKey));
    OptFits(c, WGPEER_A_ENDPOINT, EndpointPayload(p));
    var d := c + OptLeaf(WGPEER_A_ENDPOINT, EndpointPayload(p));
    OptFits(d, WGPEER_A_PERSISTENT_KEEPALIVE_INTERVAL, U16Payload(p.persistentKeepaliveInterval));
  }

  lemma {:induction false} LeafFits(typ: u16, payload: seq<byte>)
    requires |payload| <= 100
    ensures AllFit([Leaf(typ, payload)])
  {
    assert [Leaf(typ, payload)][1..] == [];
  }

  lemma {:induction false} PeerNodeFits(i: nat, p: PeerConfig)
    requires |Encode(PeerNode(i, p))| < 0x1_0000
    ensures Fits(PeerNode(i, p)) && AllFit(PeerAttrs(p))
  {
    hide AllFit, Encode, EncodeAll, PeerScalars, IpNodes;
    NestSize(i % 0x1_0000, PeerAttrs(p));
    PeerScalarsFit(p);
    EncodeAllAppend(PeerScalars(p), IpsNode(p.allowedIPs));
    if p.allowedIPs == [] {
      assert PeerScalars(p) + [] == PeerScalars(p);
    } else {
      var nest := Nest(WGPEER_A_ALLOWEDIPS, IpNodes(p.allowedIPs));
      EncodeOne(nest);
      NestSize(WGPEER_A_ALLOWEDIPS, IpNodes(p.allowedIPs));
      IpNodesFit(p.allowedIPs);
      assert Fits(nest);
      FitOne(nest);
      AllFitAppend(PeerScalars(p), [nest]);
    }
  }

  lemma {:induction false} PeerNodesFit(peers: seq<PeerConfig>)
    requires |EncodeAll(PeerNodes(peers))| < 0x1_0000
    ensures AllFit(PeerNodes(peers))
    decreases |peers|
  {
    hide Fits, Encode, PeerNode, EncodeAll, AllFit;
    if peers != [] {
      var n := |peers| - 1;
      var last := PeerNode(n, peers[n]);
      assert PeerNodes(peers) == PeerNodes(peers[..n]) + [last];
      EncodeAllAppend(PeerNodes(peers[..n]), [last]);
      EncodeOne(last);
      PeerNodesFit(peers[..n]);
      PeerNodeFits(n, peers[n]);
      FitOne(last);
      AllFitAppend(PeerNodes(peers[..n]), [last]);
    } else {
      NoneFit();
    }
  }

  lemma {:induction false} NoneFit()
    ensures AllFit([])
  {
  }

  lemma {:induction false} DeviceScalarsFit(name: string, c: Config)
    requires IsByteText(name) && |name| < IFNAMSIZ
    ensures AllFit(DeviceScalars(name, c))
  {
    hide AllFit, Fits, OptLeaf, DeviceFlagsPayload, KeyPayload, U16Payload, U32Payload, TextBytes;
    var a := [Leaf(WGDEVICE_A_IFNAME, TextBytes(name) + [0])];
    LeafFits(WGDEVICE_A_IFNAME, TextBytes(name) + [0]);
    OptFits(a, WGDEVICE_A_FLAGS, DeviceFlagsPayload(c));
    var b := a + OptLeaf(WGDEVICE_A_FLAGS, DeviceFlagsPayload(c));
    OptFits(b, WGDEVICE_A_PRIVATE_KEY, KeyPayload(c.privateKey));
    var d := b + OptLeaf(WGDEVICE_A_PRIVATE_KEY, KeyPayload(c.privateKey));
    OptFits(d, WGDEVICE_A_LISTEN_PORT, U16Payload(c.listenPort));
    var e := d + OptLeaf(WGDEVICE_A_LISTEN_PORT, U16Payload(c.listenPort));
    OptFits(e, WGDEVICE_A_FWMARK, U32Payload(c.firewallMark));
  }

  /** No nest at any depth wraps when the peers nest does not. */
  lemma {:induction false} DeviceTreeFits(name: string, c: Config)
    requires IsByteText(name) && |name| < IFNAMSIZ && NestsFit(c)
    ensures AllFit(DeviceTree(name, c))
  {
    hide AllFit, DeviceScalars, PeerNodes, EncodeAll;
    DeviceScalarsFit(name, c);
    if c.peers == [] {
      assert DeviceScalars(name, c) + [] == DeviceScalars(name, c);
    } else {
      var nest := Nest(WGDEVICE_A_PEERS, PeerNodes(c.peers));
      PeerNodesFit(c.peers);
      assert Fits(nest);
      FitOne(nest);
      AllFitAppend(DeviceScalars(name, c), [nest]);
    }
  }

  // ----- all peers -----

  lemma {:induction false} PeersReadBack(peers: seq<PeerConfig>)
    requires AllEndpointsOk(peers) && 4 + |EncodeAll(PeerNodes(peers))| < 0x1_0000
    ensures var entries := Walk(EncodeAll(PeerNodes(peers)));
            PeerListOk(entries) && PeerList(entries) == NetPeers(peers)
  {
    hide Walk, EncodeAll, Encode, PeerOk, PeerOf, EndpointOk, NetPeer, PeerAttrs;
    PeerNodesFit(peers);
    WalkEncoded(PeerNodes(peers));
    var entries := Walk(EncodeAll(PeerNodes(peers)));
    forall i | 0 <= i < |entries|
      ensures PeerOk(Walk(entries[i].payload)) && PeerOf(Walk(entries[i].payload)) == NetPeer(peers[i])
    {
      PartFits(PeerNodes(peers), i);
      PeerNodeFits(i, peers[i]);
      WalkEncoded(PeerAttrs(peers[i]));
      PeerAttrsReadBack(peers[i]);
    }
    assert PeerList(entries) == NetPeers(peers);
  }

  // ----- the device -----

  lemma {:induction false} DeviceFoldAppend(a: seq<Attr>, b: seq<Attr>, d: Device)
    requires DeviceOk(a) && DeviceOk(b)
    ensures DeviceOk(a + b) && DeviceFold(a + b, d) == DeviceFold(b, DeviceFold(a, d))
    decreases |a|
  {
    hide DeviceAttrOk, DeviceStep;
    if a == [] {
      assert a + b == b;
    } else {
      assert (a + b)[1..] == a[1..] + b;
      DeviceFoldAppend(a[1..], b, DeviceStep(a[0], d));
    }
  }

  lemma {:induction false} DeviceOne(a: Attr, d: Device)
    requires DeviceAttrOk(a)
    ensures DeviceOk([a]) && DeviceFold([a], d) == DeviceStep(a, d)
  {
    hide DeviceAttrOk, DeviceStep;
    assert [a][1..] == [];
    assert DeviceFold([], DeviceStep(a, d)) == DeviceStep(a, d);
  }

  lemma {:induction false} DeviceOpt(a: seq<Node>, d: Device, typ: u16, payload: Option<seq<byte>>, e: Device)
    requires DeviceOk(SeenAll(a)) && typ < 0x4000
    requires payload.Some? ==> DeviceAttrOk(Attr(typ, payload.value)) && DeviceStep(Attr(typ, payload.value), DeviceFold(SeenAll(a), d)) == e
    requires payload.None? ==> DeviceFold(SeenAll(a), d) == e
    ensures DeviceOk(SeenAll(a + OptLeaf(typ, payload))) && DeviceFold(SeenAll(a + OptLeaf(typ, payload)), d) == e
  {
    hide DeviceAttrOk, DeviceStep;
    if payload.Some? {
      SeenAppend(a, [Leaf(typ, payload.value)]);
      SeenLeaf(typ, payload.value);
      DeviceOne(Attr(typ, payload.value), DeviceFold(SeenAll(a), d));
      DeviceFoldAppend(SeenAll(a), [Attr(typ, payload.value)], d);
    } else {
      assert a + [] == a;
    }
  }

  lemma {:induction false} NameReadsBack(name: string, d: Device)
    requires IsByteText(name) && IsIfName(name)
    ensures var a := Attr(WGDEVICE_A_IFNAME, TextBytes(name) + [0]);
            DeviceAttrOk(a) && DeviceStep(a, d) == d.(name := name)
  {
    hide TextBytes, BytesText;
    NameBytes(name, []);
    assert TextBytes(name) + [0] + [] == TextBytes(name) + [0];
    assert (TextBytes(name) + [0])[|name|] == 0;
  }

  lemma {:induction false} ScalarsReadBack(c: Config, d: Device)
    ensures var b := DeviceFlagsPayload(c);
            b.Some? ==> DeviceAttrOk(Attr(WGDEVICE_A_FLAGS, b.value)) && DeviceStep(Attr(WGDEVICE_A_FLAGS, b.value), d) == d
    ensures var b := KeyPayload(c.privateKey);
            b.Some? ==> DeviceAttrOk(Attr(WGDEVICE_A_PRIVATE_KEY, b.value))
                        && DeviceStep(Attr(WGDEVICE_A_PRIVATE_KEY, b.value), d) == d.(privateKey := c.privateKey)
  {
    hide DeviceFlags, U32, Zeros;
    if c.privateKey.Some? {
      assert c.privateKey.value[..KEY_LEN] == c.privateKey.value;
    }
  }

  lemma {:induction false} PortsReadBack(c: Config, d: Device)
    ensures var b := U16Payload(c.listenPort);
            b.Some? ==> DeviceAttrOk(Attr(WGDEVICE_A_LISTEN_PORT, b.value))
                        && DeviceStep(Attr(WGDEVICE_A_LISTEN_PORT, b.value), d) == d.(listenPort := c.listenPort.value)
    ensures var b := U32Payload(c.firewallMark);
            b.Some? ==> DeviceAttrOk(Attr(WGDEVICE_A_FWMARK, b.value))
                        && DeviceStep(Attr(WGDEVICE_A_FWMARK, b.value), d) == d.(firewallMark := c.firewallMark.value)
  {
    hide GetU16, U16, GetU32, U32;
    if c.listenPort.Some? {
      U16Back(c.listenPort.value);
    }
    if c.firewallMark.Some? {
      U32Back(c.firewallMark.value);
    }
  }

  lemma {:induction false} DeviceScalarsReadBack(other: string, name: string, c: Config)
    requires IsByteText(name) && IsIfName(name) && AllEndpointsOk(c.peers)
    ensures DeviceOk(SeenAll(DeviceScalars(name, c)))
    ensures DeviceFold(SeenAll(DeviceScalars(name, c)), BlankDevice(other, false)) == NetDevice(name, c).(peers := [])
  {
    hide DeviceOk, DeviceFold, SeenAll, OptLeaf, DeviceAttrOk, DeviceStep, MergeAll, NetPeers, TextBytes, AllEndpointsOk;
    hide DeviceFlagsPayload, KeyPayload, U16Payload, U32Payload;
    var d0 := BlankDevice(other, false);
    var d1 := BlankDevice(name, false);
    var d2 := d1.(privateKey := c.privateKey);
    var d3 := d2.(listenPort := if c.listenPort.Some? then c.listenPort.value else 0);
    var d4 := d3.(firewallMark := if c.firewallMark.Some? then c.firewallMark.value else 0);
    var a := [Leaf(WGDEVICE_A_IFNAME, TextBytes(name) + [0])];
    var b := a + OptLeaf(WGDEVICE_A_FLAGS, DeviceFlagsPayload(c));
    var e := b + OptLeaf(WGDEVICE_A_PRIVATE_KEY, KeyPayload(c.privateKey));
    var f := e + OptLeaf(WGDEVICE_A_LISTEN_PORT, U16Payload(c.listenPort));
    NameReadsBack(name, d0);
    SeenLeaf(WGDEVICE_A_IFNAME, TextBytes(name) + [0]);
    DeviceOne(Attr(WGDEVICE_A_IFNAME, TextBytes(name) + [0]), d0);
    ScalarsReadBack(c, d1);
    DeviceOpt(a, d0, WGDEVICE_A_FLAGS, DeviceFlagsPayload(c), d1);
    DeviceOpt(b, d0, WGDEVICE_A_PRIVATE_KEY, KeyPayload(c.privateKey), d2);
    PortsReadBack(c, d2);
    DeviceOpt(e, d0, WGDEVICE_A_LISTEN_PORT, U16Payload(c.listenPort), d3);
    PortsReadBack(c, d3);
    DeviceOpt(f, d0, WGDEVICE_A_FWMARK, U32Payload(c.firewallMark), d4);
  }

  lemma {:induction false} DeviceTreeReadsBack(other: string, name: string, c: Config)
    requires IsByteText(name) && IsIfName(name) && AllEndpointsOk(c.peers) && NestsFit(c)
    ensures DeviceOk(SeenAll(DeviceTree(name, c)))
    ensures DeviceFold(SeenAll(DeviceTree(name, c)), BlankDevice(other, false)) == NetDevice(name, c)
  {
    hide DeviceOk, DeviceFold, SeenAll, DeviceScalars, NetPeers, EncodeAll, PeerNodes, AllEndpointsOk, Walk, PeerListOk, PeerList;
    var d := NetDevice(name, c).(peers := []);
    DeviceScalarsReadBack(other, name, c);
    if c.peers == [] {
      assert DeviceScalars(name, c) + [] == DeviceScalars(name, c);
      NoPeersMerge(c);
    } else {
      var nest := Nest(WGDEVICE_A_PEERS, PeerNodes(c.peers));
      var a := Attr(WGDEVICE_A_PEERS, EncodeAll(PeerNodes(c.peers)));
      PeersReadBack(c.peers);
      SeenAppend(DeviceScalars(name, c), [nest]);
      SeenNest(WGDEVICE_A_PEERS, PeerNodes(c.peers));
      DeviceOne(a, d);
      DeviceFoldAppend(SeenAll(DeviceScalars(name, c)), [a], BlankDevice(other, false));
    }
  }

  lemma {:induction false} NoPeersMerge(c: Config)
    requires c.peers == [] && AllEndpointsOk(c.peers)
    ensures MergeAll([], NetPeers(c.peers)) == []
  {
  }

  /** The endpoints check of the builder and the one quantified over peers agree. */
  lemma {:induction false} EndpointsAgree(peers: seq<PeerConfig>)
    ensures EndpointsOk(peers) <==> AllEndpointsOk(peers)
    decreases |peers|
  {
    hide EndpointOk;
    if peers != [] {
      EndpointsAgree(peers[1..]);
      assert forall i :: 1 <= i < |peers| ==> peers[1..][i - 1] == peers[i];
      assert forall i :: 0 <= i < |peers| - 1 ==> peers[1..][i] == peers[i + 1];
    }
  }

  /** The byte-level round trip. For every valid name and every configuration whose message
      builds and whose peers nest stays below 2^16 bytes, ParseDeviceMessage on the bytes of
      BuildSetDeviceMessage yields the name, the device fields that were set (others default)
      and the configured peers, neighbouring entries of one key merged; and the back-patched
      lengths tile the message and every nest in it, down to each allowed ip. */
  lemma {:induction false} NetlinkRoundTrip(familyId: u16, seqno: u32, other: string, name: string, c: Config)
    requires IsByteText(name) && IsIfName(name) && EndpointsOk(c.peers) && NestsFit(c)
    ensures AllEndpointsOk(c.peers) && FitsLength(name, c)
    ensures var msg := SetMessage(familyId, seqno, name, c);
            MessageOk(msg) && Parsed(msg, BlankDevice(other, false)) == NetDevice(name, c)
    ensures Tiles(EncodeAll(DeviceTree(name, c))) && AllTileDeep(DeviceTree(name, c))
  {
    hide EncodeAll, DeviceTree, Walk, SeenAll, DeviceOk, DeviceFold, NetDevice, EndpointsOk, AllEndpointsOk, PeerNodes, Tiles, AllTileDeep, AllFit;
    EndpointsAgree(c.peers);
    SetMessageSize(name, c);
    DeviceTreeFits(name, c);
    WalkEncoded(DeviceTree(name, c));
    AllFitTileDeep(DeviceTree(name, c));
    DeviceTreeReadsBack(other, name, c);
    MessageBody(familyId, seqno, name, c);
  }

  lemma {:induction false} MessageBody(familyId: u16, seqno: u32, name: string, c: Config)
    requires IsByteText(name) && FitsLength(name, c)
    ensures MessageAttrs(SetMessage(familyId, seqno, name, c)) == Walk(EncodeAll(DeviceTree(name, c)))
  {
    hide EncodeAll, DeviceTree, Walk, Headers;
    var msg := SetMessage(familyId, seqno, name, c);
    assert msg[20..] == EncodeAll(DeviceTree(name, c));
  }

  lemma {:induction false} SetMessageSize(name: string, c: Config)
    requires IsByteText(name) && |name| < IFNAMSIZ && NestsFit(c)
    ensures FitsLength(name, c)
  {
    hide EncodeAll, DeviceScalars, PeerNodes;
    EncodeAllAppend(DeviceScalars(name, c), PeersNode(c.peers));
    DeviceScalarsSize(name, c);
    if c.peers == [] {
      EmptySize();
    } else {
      EncodeOne(Nest(WGDEVICE_A_PEERS, PeerNodes(c.peers)));
      NestSize(WGDEVICE_A_PEERS, PeerNodes(c.peers));
    }
  }
}
