/** Dumps of a device as bytes, in one concrete layout, cut over entries and messages in every way
    (src/netlink/NlAttr.cpp, src/netlink/wireguard_uapi.h): every device has dumps that say it. */
module NlDump {
  import opened Core
  import opened WireGuard
  import opened Inet
  import opened Address
  import opened Mnl
  import opened NlTree
  import opened NlParse
  import opened NlRoundTrip
  import opened Reassembly
  import opened NlReport

  // ----- one entry -----

  /** An entry of a peers nest: a peer's first one carries every field, a continuation only the
      key and allowed ips. The nanoseconds of the handshake time are sent and not read. */
  datatype Entry = Entry(peer: Peer, whole: bool, nanos: u64)

  /** Addresses are those of some sockaddr and some address bytes, as printed. */
  predicate Printed(p: Peer) {
    && (p.endpoint.Some? ==> var sa := ParseEndpoint(p.endpoint.value);
                             sa.Ok? && p.endpoint.value == FormatEndpoint(sa.value))
    && forall i :: 0 <= i < |p.allowedIPs| ==> NetIp(p.allowedIPs[i]) == p.allowedIPs[i] && KnownFamily(p.allowedIPs[i])
  }

  predicate EntryOk(e: Entry) {
    Printed(e.peer) && (!e.whole ==> Continuation(e.peer, e.peer))
  }

  function SockPayload(p: Peer): (r: Option<seq<byte>>)
    ensures r.Some? ==> |r.value| <= 28
  {
    if p.endpoint.Some? && ParseEndpoint(p.endpoint.value).Ok? then Some(SockBytes(ParseEndpoint(p.endpoint.value).value))
    else None
  }

  function Given(whole: bool, b: seq<byte>): (r: Option<seq<byte>>)
    ensures r.Some? ==> r.value == b
  {
    if whole then Some(b) else None
  }

  function EntryHead(e: Entry): seq<Node> {
    [Leaf(WGPEER_A_PUBLIC_KEY, e.peer.publicKey)]
    + OptLeaf(WGPEER_A_PRESHARED_KEY, KeyPayload(e.peer.presharedKey))
    + OptLeaf(WGPEER_A_ENDPOINT, SockPayload(e.peer))
    + OptLeaf(WGPEER_A_PERSISTENT_KEEPALIVE_INTERVAL, Given(e.whole, U16(e.peer.persistentKeepaliveInterval)))
  }

  function EntryScalars(e: Entry): seq<Node> {
    EntryHead(e)
    + OptLeaf(WGPEER_A_LAST_HANDSHAKE_TIME, Given(e.whole, I64(e.peer.lastHandshakeTimeSec) + U64(e.nanos)))
    + OptLeaf(WGPEER_A_RX_BYTES, Given(e.whole, U64(e.peer.receiveBytes)))
    + OptLeaf(WGPEER_A_TX_BYTES, Given(e.whole, U64(e.peer.transmitBytes)))
    + OptLeaf(WGPEER_A_PROTOCOL_VERSION, Given(e.whole, U32(e.peer.protocolVersion)))
  }

  function EntryAttrs(e: Entry): seq<Node> {
    EntryScalars(e) + IpsNode(e.peer.allowedIPs)
  }

  function EntryNode(i: nat, e: Entry): Node {
    Nest(i % 0x1_0000, EntryAttrs(e))
  }

  function EntryNodes(es: seq<Entry>): (ns: seq<Node>)
    ensures |ns| == |es|
    ensures forall i :: 0 <= i < |es| ==> ns[i] == EntryNode(i, es[i])
  {
    seq(|es|, i requires 0 <= i < |es| => EntryNode(i, es[i]))
  }

  function EntryPeers(es: seq<Entry>): (ps: seq<Peer>)
    ensures |ps| == |es|
    ensures forall i :: 0 <= i < |es| ==> ps[i] == es[i].peer
  {
    seq(|es|, i requires 0 <= i < |es| => es[i].peer)
  }

  // ----- what an entry says -----

  lemma {:induction false} HasAppend(a: seq<Attr>, b: seq<Attr>, typ: nat)
    ensures Has(a + b, typ) <==> Has(a, typ) || Has(b, typ)
    decreases |a|
  {
    if a == [] {
      assert a + b == b;
    } else {
      assert (a + b)[1..] == a[1..] + b;
      HasAppend(a[1..], b, typ);
    }
  }

  /** An optional attribute behind others. */
  lemma {:induction false} SeenOpt(a: seq<Node>, typ: u16, payload: Option<seq<byte>>)
    requires typ < 0x4000
    ensures SeenAll(a + OptLeaf(typ, payload)) == SeenAll(a) + if payload.Some? then [Attr(typ, payload.value)] else []
  {
    if payload.Some? {
      SeenAppend(a, [Leaf(typ, payload.value)]);
      SeenLeaf(typ, payload.value);
    } else {
      assert a + [] == a;
    }
  }

  lemma {:induction false} SaysOpt(a: seq<Node>, typ: u16, payload: Option<seq<byte>>, p: Peer)
    requires AllPeerSay(SeenAll(a), p) && typ < 0x4000
    requires payload.Some? ==> PeerSays(Attr(typ, payload.value), p)
    ensures AllPeerSay(SeenAll(a + OptLeaf(typ, payload)), p)
  {
    hide PeerSays, SeenAll, OptLeaf;
    SeenOpt(a, typ, payload);
  }

  lemma {:induction false} HasOpt(a: seq<Node>, typ: u16, payload: Option<seq<byte>>, t: nat)
    requires typ < 0x4000
    ensures Has(SeenAll(a + OptLeaf(typ, payload)), t) <==> Has(SeenAll(a), t) || (payload.Some? && t == typ)
  {
    hide SeenAll, OptLeaf;
    SeenOpt(a, typ, payload);
    if payload.Some? {
      var one := [Attr(typ, payload.value)];
      assert one[1..] == [];
      HasAppend(SeenAll(a), one, t);
    } else {
      assert SeenAll(a) + [] == SeenAll(a);
    }
  }

  lemma {:induction false} SockSaid(sa: SockAddr)
    ensures SockSays(SockBytes(sa), sa)
  {
    hide Zeros, U16, BE16;
    match sa
    case In4(a, port) =>
    case In6(a, port) =>
      assert SockBytes(sa)[8..24] == a;
  }

  lemma {:induction false} EndpointSaid(p: Peer)
    requires Printed(p) && SockPayload(p).Some?
    ensures EndpointSays(SockPayload(p).value, p.endpoint.value)
  {
    hide ParseEndpoint, FormatEndpoint, SockBytes, SockSays, NetIp;
    SockSaid(ParseEndpoint(p.endpoint.value).value);
  }

  lemma {:induction false} EntryHeadSays(e: Entry)
    requires EntryOk(e)
    ensures AllPeerSay(SeenAll(EntryHead(e)), e.peer)
  {
    hide AllPeerSay, SeenAll, OptLeaf, KeyPayload, SockPayload, Printed, U16, EndpointSays;
    var p := e.peer;
    var a := [Leaf(WGPEER_A_PUBLIC_KEY, p.publicKey)];
    var b := a + OptLeaf(WGPEER_A_PRESHARED_KEY, KeyPayload(p.presharedKey));
    var c := b + OptLeaf(WGPEER_A_ENDPOINT, SockPayload(p));
    KeySaid(p);
    SaysOpt(a, WGPEER_A_PRESHARED_KEY, KeyPayload(p.presharedKey), p);
    if SockPayload(p).Some? {
      EndpointSaid(p);
      HasEndpoint(p);
    }
    SaysOpt(b, WGPEER_A_ENDPOINT, SockPayload(p), p);
    SaysOpt(c, WGPEER_A_PERSISTENT_KEEPALIVE_INTERVAL, Given(e.whole, U16(p.persistentKeepaliveInterval)), p);
  }

  lemma {:induction false} HasEndpoint(p: Peer)
    requires Printed(p)
    ensures SockPayload(p).Some? <==> p.endpoint.Some?
  {
    hide ParseEndpoint, FormatEndpoint, SockBytes, NetIp;
  }

  lemma {:induction false} KeySaid(p: Peer)
    ensures AllPeerSay(SeenAll([Leaf(WGPEER_A_PUBLIC_KEY, p.publicKey)]), p)
    ensures KeyPayload(p.presharedKey).Some? ==> PeerSays(Attr(WGPEER_A_PRESHARED_KEY, KeyPayload(p.presharedKey).value), p)
  {
    SeenLeaf(WGPEER_A_PUBLIC_KEY, p.publicKey);
  }

  lemma {:induction false} EntryScalarsSay(e: Entry)
    requires EntryOk(e)
    ensures AllPeerSay(SeenAll(EntryScalars(e)), e.peer)
  {
    hide AllPeerSay, SeenAll, OptLeaf, EntryHead, Printed, I64, U64, U32;
    var p := e.peer;
    var a := EntryHead(e);
    var time := I64(p.lastHandshakeTimeSec) + U64(e.nanos);
    var b := a + OptLeaf(WGPEER_A_LAST_HANDSHAKE_TIME, Given(e.whole, time));
    var c := b + OptLeaf(WGPEER_A_RX_BYTES, Given(e.whole, U64(p.receiveBytes)));
    var d := c + OptLeaf(WGPEER_A_TX_BYTES, Given(e.whole, U64(p.transmitBytes)));
    EntryHeadSays(e);
    SaysOpt(a, WGPEER_A_LAST_HANDSHAKE_TIME, Given(e.whole, time), p);
    SaysOpt(b, WGPEER_A_RX_BYTES, Given(e.whole, U64(p.receiveBytes)), p);
    SaysOpt(c, WGPEER_A_TX_BYTES, Given(e.whole, U64(p.transmitBytes)), p);
    SaysOpt(d, WGPEER_A_PROTOCOL_VERSION, Given(e.whole, U32(p.protocolVersion)), p);
  }

  lemma {:induction false} EntryHeadHas(e: Entry, t: nat)
    ensures Has(SeenAll(EntryHead(e)), t) <==>
      || t == WGPEER_A_PUBLIC_KEY || (e.peer.presharedKey.Some? && t == WGPEER_A_PRESHARED_KEY)
      || (SockPayload(e.peer).Some? && t == WGPEER_A_ENDPOINT)
      || (e.whole && t == WGPEER_A_PERSISTENT_KEEPALIVE_INTERVAL)
  {
    hide Has, SeenAll, OptLeaf, SockPayload, U16;
    var p := e.peer;
    var a := [Leaf(WGPEER_A_PUBLIC_KEY, p.publicKey)];
    var b := a + OptLeaf(WGPEER_A_PRESHARED_KEY, KeyPayload(p.presharedKey));
    var c := b + OptLeaf(WGPEER_A_ENDPOINT, SockPayload(p));
    HasFirst(WGPEER_A_PUBLIC_KEY, p.publicKey, t);
    HasOpt(a, WGPEER_A_PRESHARED_KEY, KeyPayload(p.presharedKey), t);
    HasOpt(b, WGPEER_A_ENDPOINT, SockPayload(p), t);
    HasOpt(c, WGPEER_A_PERSISTENT_KEEPALIVE_INTERVAL, Given(e.whole, U16(p.persistentKeepaliveInterval)), t);
  }

  lemma {:induction false} HasFirst(typ: u16, payload: seq<byte>, t: nat)
    requires typ < 0x4000
    ensures Has(SeenAll([Leaf(typ, payload)]), t) <==> t == typ
  {
    SeenLeaf(typ, payload);
    assert [Attr(typ, payload)][1..] == [];
  }

  lemma {:induction false} EntryScalarsHave(e: Entry, t: nat)
    ensures Has(SeenAll(EntryScalars(e)), t) <==>
      || Has(SeenAll(EntryHead(e)), t)
      || (e.whole && (t == WGPEER_A_LAST_HANDSHAKE_TIME || t == WGPEER_A_RX_BYTES || t == WGPEER_A_TX_BYTES
                      || t == WGPEER_A_PROTOCOL_VERSION))
  {
    hide Has, SeenAll, OptLeaf, EntryHead, I64, U64, U32;
    var p := e.peer;
    var a := EntryHead(e);
    var time := I64(p.lastHandshakeTimeSec) + U64(e.nanos);
    var b := a + OptLeaf(WGPEER_A_LAST_HANDSHAKE_TIME, Given(e.whole, time));
    var c := b + OptLeaf(WGPEER_A_RX_BYTES, Given(e.whole, U64(p.receiveBytes)));
    var d := c + OptLeaf(WGPEER_A_TX_BYTES, Given(e.whole, U64(p.transmitBytes)));
    HasOpt(a, WGPEER_A_LAST_HANDSHAKE_TIME, Given(e.whole, time), t);
    HasOpt(b, WGPEER_A_RX_BYTES, Given(e.whole, U64(p.receiveBytes)), t);
    HasOpt(c, WGPEER_A_TX_BYTES, Given(e.whole, U64(p.transmitBytes)), t);
    HasOpt(d, WGPEER_A_PROTOCOL_VERSION, Given(e.whole, U32(p.protocolVersion)), t);
  }

  /** Whatever comes behind the scalar attributes, the fields they leave out have defaults. */
  lemma {:induction false} EntryKnown(e: Entry, more: seq<Attr>)
    requires EntryOk(e)
    ensures RestKnown(SeenAll(EntryScalars(e)) + more, BlankPeer(NO_KEY), e.peer)
  {
    hide Has, SeenAll, EntryScalars, EntryHead, Printed, SockPayload, Zeros;
    var attrs := SeenAll(EntryScalars(e));
    forall t: nat
      ensures Has(attrs + more, t) <==> Has(attrs, t) || Has(more, t)
      ensures Has(attrs, t) <==> (
        || Has(SeenAll(EntryHead(e)), t)
        || (e.whole && (t == WGPEER_A_LAST_HANDSHAKE_TIME || t == WGPEER_A_RX_BYTES || t == WGPEER_A_TX_BYTES
                        || t == WGPEER_A_PROTOCOL_VERSION)))
    {
      HasAppend(attrs, more, t);
      EntryScalarsHave(e, t);
    }
    EntryHeadHas(e, WGPEER_A_PUBLIC_KEY);
    EntryHeadHas(e, WGPEER_A_PRESHARED_KEY);
    EntryHeadHas(e, WGPEER_A_ENDPOINT);
    EntryHeadHas(e, WGPEER_A_PERSISTENT_KEEPALIVE_INTERVAL);
    HasEndpoint(e.peer);
  }

  // ----- allowed ips -----

  lemma {:induction false} IpSaid(aip: AllowedIP)
    requires NetIp(aip) == aip && KnownFamily(aip)
    ensures EntrySays(IpSeen(aip), aip)
  {
    hide U16, IpBytes, NetIp;
    var s := IpSeen(aip);
    var t, u, v := s[1..], s[1..][1..], s[1..][1..][1..];
    assert t[0] == s[1] && u[0] == s[2] && v == [];
    assert Orderly(v, true, true, true);
    assert Orderly(u, true, true, false);
    assert Orderly(t, true, false, false);
  }

  lemma {:induction false} IpsSaid(ips: seq<AllowedIP>)
    requires forall i :: 0 <= i < |ips| ==> NetIp(ips[i]) == ips[i] && KnownFamily(ips[i])
    ensures IpsSay(EncodeAll(IpNodes(ips)), ips)
  {
    hide Walk, EncodeAll, EntrySays, NetIp, KnownFamily, Seen, IpNode;
    IpNodesFit(ips);
    WalkEncoded(IpNodes(ips));
    forall i | 0 <= i < |ips|
      ensures EntrySays(Walk(Walk(EncodeAll(IpNodes(ips)))[i].payload), ips[i])
    {
      IpPayload(i, ips[i]);
      IpSaid(ips[i]);
    }
  }

  lemma {:induction false} NoIpsTold(attrs: seq<Attr>, more: seq<Attr>, ips: seq<AllowedIP>)
    requires !Has(attrs, WGPEER_A_ALLOWEDIPS) && IpsTold(more, ips)
    ensures IpsTold(attrs + more, ips)
    decreases |attrs|
  {
    hide IpsSay, Walk;
    if attrs == [] {
      assert attrs + more == more;
    } else {
      assert (attrs + more)[1..] == attrs[1..] + more;
      NoIpsTold(attrs[1..], more, ips);
    }
  }

  lemma {:induction false} NestTold(ips: seq<AllowedIP>)
    requires forall i :: 0 <= i < |ips| ==> NetIp(ips[i]) == ips[i] && KnownFamily(ips[i])
    ensures IpsTold(SeenAll(IpsNode(ips)), ips)
  {
    hide Walk, EncodeAll, IpsSay, NetIp, KnownFamily, IpNodes;
    if ips != [] {
      IpsSaid(ips);
      SeenNest(WGPEER_A_ALLOWEDIPS, IpNodes(ips));
      var seen := [Attr(WGPEER_A_ALLOWEDIPS, EncodeAll(IpNodes(ips)))];
      assert seen[1..] == [];
      assert |Walk(seen[0].payload)| == |ips| by {
        SayCount(seen[0].payload, ips);
      }
      assert ips[..|ips|] == ips && ips[|ips|..] == [];
    }
  }

  lemma {:induction false} SayCount(payload: seq<byte>, ips: seq<AllowedIP>)
    requires IpsSay(payload, ips)
    ensures |Walk(payload)| == |ips|
  {
  }

  lemma {:induction false} NestSaysNothingElse(ips: seq<AllowedIP>, p: Peer)
    ensures AllPeerSay(SeenAll(IpsNode(ips)), p)
  {
    hide EncodeAll, IpNodes;
    if ips != [] {
      SeenNest(WGPEER_A_ALLOWEDIPS, IpNodes(ips));
    }
  }

  lemma {:induction false} EntryTold(e: Entry)
    requires EntryOk(e)
    ensures PeerTold(SeenAll(EntryAttrs(e)), e.peer)
  {
    hide AllPeerSay, IpsTold, RestKnown, SeenAll, EntryScalars, IpsNode, Has, Zeros;
    var p := e.peer;
    var a, b := SeenAll(EntryScalars(e)), SeenAll(IpsNode(p.allowedIPs));
    SeenAppend(EntryScalars(e), IpsNode(p.allowedIPs));
    EntryScalarsSay(e);
    NestSaysNothingElse(p.allowedIPs, p);
    SayAppend(a, b, p);
    EntryKnown(e, b);
    EntryScalarsHave(e, WGPEER_A_ALLOWEDIPS);
    EntryHeadHas(e, WGPEER_A_ALLOWEDIPS);
    PrintedIps(p);
    NestTold(p.allowedIPs);
    NoIpsTold(a, b, p.allowedIPs);
  }

  lemma {:induction false} SayAppend(a: seq<Attr>, b: seq<Attr>, p: Peer)
    requires AllPeerSay(a, p) && AllPeerSay(b, p)
    ensures AllPeerSay(a + b, p)
  {
    hide PeerSays;
  }

  lemma {:induction false} PrintedIps(p: Peer)
    requires Printed(p)
    ensures forall i :: 0 <= i < |p.allowedIPs| ==> NetIp(p.allowedIPs[i]) == p.allowedIPs[i] && KnownFamily(p.allowedIPs[i])
  {
    hide NetIp, KnownFamily, ParseEndpoint, FormatEndpoint;
  }

  // ----- nothing wraps -----

  lemma {:induction false} EntryScalarsFit(e: Entry)
    ensures AllFit(EntryScalars(e))
  {
    hide AllFit, Fits, OptLeaf, KeyPayload, SockPayload, U16, U32, U64, I64;
    var p := e.peer;
    var a := [Leaf(WGPEER_A_PUBLIC_KEY, p.publicKey)];
    LeafFits(WGPEER_A_PUBLIC_KEY, p.publicKey);
    OptFits(a, WGPEER_A_PRESHARED_KEY, KeyPayload(p.presharedKey));
    var b := a + OptLeaf(WGPEER_A_PRESHARED_KEY, KeyPayload(p.presharedKey));
    OptFits(b, WGPEER_A_ENDPOINT, SockPayload(p));
    var c := b + OptLeaf(WGPEER_A_ENDPOINT, SockPayload(p));
    OptFits(c, WGPEER_A_PERSISTENT_KEEPALIVE_INTERVAL, Given(e.whole, U16(p.persistentKeepaliveInterval)));
    var time := I64(p.lastHandshakeTimeSec) + U64(e.nanos);
    OptFits(EntryHead(e), WGPEER_A_LAST_HANDSHAKE_TIME, Given(e.whole, time));
    var f := EntryHead(e) + OptLeaf(WGPEER_A_LAST_HANDSHAKE_TIME, Given(e.whole, time));
    OptFits(f, WGPEER_A_RX_BYTES, Given(e.whole, U64(p.receiveBytes)));
    var g := f + OptLeaf(WGPEER_A_RX_BYTES, Given(e.whole, U64(p.receiveBytes)));
    OptFits(g, WGPEER_A_TX_BYTES, Given(e.whole, U64(p.transmitBytes)));
    var h := g + OptLeaf(WGPEER_A_TX_BYTES, Given(e.whole, U64(p.transmitBytes)));
    OptFits(h, WGPEER_A_PROTOCOL_VERSION, Given(e.whole, U32(p.protocolVersion)));
  }

  lemma {:induction false} EntryNodeFits(i: nat, e: Entry)
    requires |Encode(EntryNode(i, e))| < 0x1_0000
    ensures Fits(EntryNode(i, e)) && AllFit(EntryAttrs(e))
  {
    hide AllFit, Encode, EncodeAll, EntryScalars, IpNodes;
    NestSize(i % 0x1_0000, EntryAttrs(e));
    EntryScalarsFit(e);
    IpsFitBehind(EntryScalars(e), e.peer.allowedIPs);
  }

  lemma {:induction false} IpsFitBehind(a: seq<Node>, ips: seq<AllowedIP>)
    requires AllFit(a) && |EncodeAll(a + IpsNode(ips))| < 0x1_0000
    ensures AllFit(a + IpsNode(ips))
  {
    hide AllFit, Encode, EncodeAll, IpNodes;
    EncodeAllAppend(a, IpsNode(ips));
    if ips == [] {
      assert a + [] == a;
    } else {
      var nest := Nest(WGPEER_A_ALLOWEDIPS, IpNodes(ips));
      EncodeOne(nest);
      NestSize(WGPEER_A_ALLOWEDIPS, IpNodes(ips));
      IpNodesFit(ips);
      assert Fits(nest);
      FitOne(nest);
      AllFitAppend(a, [nest]);
    }
  }

  lemma {:induction false} EntryNodesFit(es: seq<Entry>)
    requires |EncodeAll(EntryNodes(es))| < 0x1_0000
    ensures AllFit(EntryNodes(es))
    decreases |es|
  {
    hide Fits, Encode, EntryNode, EncodeAll, AllFit;
    if es != [] {
      var n := |es| - 1;
      var last := EntryNode(n, es[n]);
      assert EntryNodes(es) == EntryNodes(es[..n]) + [last];
      EncodeAllAppend(EntryNodes(es[..n]), [last]);
      EncodeOne(last);
      EntryNodesFit(es[..n]);
      EntryNodeFits(n, es[n]);
      FitOne(last);
      AllFitAppend(EntryNodes(es[..n]), [last]);
    } else {
      NoneFit();
    }
  }

  predicate EntriesOk(es: seq<Entry>) {
    forall i :: 0 <= i < |es| ==> EntryOk(es[i])
  }

  lemma {:induction false} EntriesSaid(es: seq<Entry>)
    requires EntriesOk(es) && 4 + |EncodeAll(EntryNodes(es))| < 0x1_0000
    ensures EntriesSay(EncodeAll(EntryNodes(es)), EntryPeers(es))
  {
    hide Walk, EncodeAll, Encode, PeerTold, EntryOk, EntryAttrs;
    EntryNodesFit(es);
    WalkEncoded(EntryNodes(es));
    var entries := Walk(EncodeAll(EntryNodes(es)));
    forall i | 0 <= i < |es|
      ensures PeerTold(Walk(entries[i].payload), es[i].peer)
    {
      PartFits(EntryNodes(es), i);
      EntryNodeFits(i, es[i]);
      WalkEncoded(EntryAttrs(es[i]));
      EntryTold(es[i]);
    }
  }

  // ----- messages -----

  /** The device fields of the first message. */
  function HeadNodes(d: Device): seq<Node>
    requires IsByteText(d.name)
  {
    [Leaf(WGDEVICE_A_IFNAME, TextBytes(d.name) + [0])]
    + OptLeaf(WGDEVICE_A_PRIVATE_KEY, KeyPayload(d.privateKey))
    + OptLeaf(WGDEVICE_A_PUBLIC_KEY, KeyPayload(d.publicKey))
    + OptLeaf(WGDEVICE_A_LISTEN_PORT, Some(U16(d.listenPort)))
    + OptLeaf(WGDEVICE_A_FWMARK, Some(U32(d.firewallMark)))
  }

  function EntriesNode(es: seq<Entry>): seq<Node> {
    if es == [] then [] else [Nest(WGDEVICE_A_PEERS, EntryNodes(es))]
  }

  predicate ChunkOk(es: seq<Entry>) {
    EntriesOk(es) && 4 + |EncodeAll(EntryNodes(es))| < 0x1_0000
  }

  lemma {:induction false} HeadFits(d: Device)
    requires IsByteText(d.name) && |d.name| < IFNAMSIZ
    ensures AllFit(HeadNodes(d))
  {
    hide AllFit, Fits, OptLeaf, KeyPayload, U16, U32, TextBytes;
    var a := [Leaf(WGDEVICE_A_IFNAME, TextBytes(d.name) + [0])];
    LeafFits(WGDEVICE_A_IFNAME, TextBytes(d.name) + [0]);
    OptFits(a, WGDEVICE_A_PRIVATE_KEY, KeyPayload(d.privateKey));
    var b := a + OptLeaf(WGDEVICE_A_PRIVATE_KEY, KeyPayload(d.privateKey));
    OptFits(b, WGDEVICE_A_PUBLIC_KEY, KeyPayload(d.publicKey));
    var c := b + OptLeaf(WGDEVICE_A_PUBLIC_KEY, KeyPayload(d.publicKey));
    OptFits(c, WGDEVICE_A_LISTEN_PORT, Some(U16(d.listenPort)));
    var e := c + OptLeaf(WGDEVICE_A_LISTEN_PORT, Some(U16(d.listenPort)));
    OptFits(e, WGDEVICE_A_FWMARK, Some(U32(d.firewallMark)));
  }

  lemma {:induction false} DeviceSaysOpt(a: seq<Node>, typ: u16, payload: Option<seq<byte>>, d: Device)
    requires AllDeviceSay(SeenAll(a), d) && typ < 0x4000
    requires payload.Some? ==> DeviceSays(Attr(typ, payload.value), d)
    ensures AllDeviceSay(SeenAll(a + OptLeaf(typ, payload)), d)
  {
    hide DeviceSays, SeenAll, OptLeaf;
    SeenOpt(a, typ, payload);
  }

  lemma {:induction false} NameSaid(d: Device)
    requires IsByteText(d.name) && IsIfName(d.name)
    ensures AllDeviceSay(SeenAll([Leaf(WGDEVICE_A_IFNAME, TextBytes(d.name) + [0])]), d)
  {
    hide TextBytes;
    SeenLeaf(WGDEVICE_A_IFNAME, TextBytes(d.name) + [0]);
  }

  lemma {:induction false} HeadSays(d: Device)
    requires IsByteText(d.name) && IsIfName(d.name)
    ensures AllDeviceSay(SeenAll(HeadNodes(d)), d)
  {
    hide AllDeviceSay, SeenAll, OptLeaf, TextBytes, U16, U32, IsIfName;
    var a := [Leaf(WGDEVICE_A_IFNAME, TextBytes(d.name) + [0])];
    var b := a + OptLeaf(WGDEVICE_A_PRIVATE_KEY, KeyPayload(d.privateKey));
    var c := b + OptLeaf(WGDEVICE_A_PUBLIC_KEY, KeyPayload(d.publicKey));
    var e := c + OptLeaf(WGDEVICE_A_LISTEN_PORT, Some(U16(d.listenPort)));
    NameSaid(d);
    DeviceSaysOpt(a, WGDEVICE_A_PRIVATE_KEY, KeyPayload(d.privateKey), d);
    DeviceSaysOpt(b, WGDEVICE_A_PUBLIC_KEY, KeyPayload(d.publicKey), d);
    DeviceSaysOpt(c, WGDEVICE_A_LISTEN_PORT, Some(U16(d.listenPort)), d);
    DeviceSaysOpt(e, WGDEVICE_A_FWMARK, Some(U32(d.firewallMark)), d);
  }

  lemma {:induction false} HeadHas(d: Device, t: nat)
    requires IsByteText(d.name)
    ensures Has(SeenAll(HeadNodes(d)), t) <==>
      || t == WGDEVICE_A_IFNAME || (d.privateKey.Some? && t == WGDEVICE_A_PRIVATE_KEY)
      || (d.publicKey.Some? && t == WGDEVICE_A_PUBLIC_KEY) || t == WGDEVICE_A_LISTEN_PORT || t == WGDEVICE_A_FWMARK
  {
    hide Has, SeenAll, OptLeaf, TextBytes, U16, U32;
    var a := [Leaf(WGDEVICE_A_IFNAME, TextBytes(d.name) + [0])];
    var b := a + OptLeaf(WGDEVICE_A_PRIVATE_KEY, KeyPayload(d.privateKey));
    var c := b + OptLeaf(WGDEVICE_A_PUBLIC_KEY, KeyPayload(d.publicKey));
    var e := c + OptLeaf(WGDEVICE_A_LISTEN_PORT, Some(U16(d.listenPort)));
    HasFirst(WGDEVICE_A_IFNAME, TextBytes(d.name) + [0], t);
    HasOpt(a, WGDEVICE_A_PRIVATE_KEY, KeyPayload(d.privateKey), t);
    HasOpt(b, WGDEVICE_A_PUBLIC_KEY, KeyPayload(d.publicKey), t);
    HasOpt(c, WGDEVICE_A_LISTEN_PORT, Some(U16(d.listenPort)), t);
    HasOpt(e, WGDEVICE_A_FWMARK, Some(U32(d.firewallMark)), t);
  }

  lemma {:induction false} HeadKnown(d: Device, other: string, more: seq<Attr>)
    requires IsByteText(d.name) && !d.userspace
    ensures DeviceKnown(SeenAll(HeadNodes(d)) + more, BlankDevice(other, false), d)
  {
    hide Has, SeenAll, HeadNodes;
    var attrs := SeenAll(HeadNodes(d));
    forall t: nat
      ensures Has(attrs + more, t) <==> Has(attrs, t) || Has(more, t)
    {
      HasAppend(attrs, more, t);
    }
    HeadHas(d, WGDEVICE_A_IFNAME);
    HeadHas(d, WGDEVICE_A_PRIVATE_KEY);
    HeadHas(d, WGDEVICE_A_PUBLIC_KEY);
    HeadHas(d, WGDEVICE_A_LISTEN_PORT);
    HeadHas(d, WGDEVICE_A_FWMARK);
  }

  /** The attributes of message i. */
  function MessageNodes(d: Device, first: bool, es: seq<Entry>): seq<Node>
    requires IsByteText(d.name)
  {
    (if first then HeadNodes(d) else []) + EntriesNode(es)
  }

  lemma {:induction false} MessageNodesFit(d: Device, first: bool, es: seq<Entry>)
    requires IsByteText(d.name) && |d.name| < IFNAMSIZ && ChunkOk(es)
    ensures AllFit(MessageNodes(d, first, es))
  {
    hide AllFit, EncodeAll, EntryNodes, HeadNodes, EntriesOk;
    HeadFits(d);
    NoneFit();
    var a := if first then HeadNodes(d) else [];
    if es == [] {
      assert a + [] == a;
    } else {
      var nest := Nest(WGDEVICE_A_PEERS, EntryNodes(es));
      EntryNodesFit(es);
      assert Fits(nest);
      FitOne(nest);
      AllFitAppend(a, [nest]);
    }
  }

  lemma {:induction false} NoEntriesTold(attrs: seq<Attr>, more: seq<Attr>, ps: seq<Peer>)
    requires !Has(attrs, WGDEVICE_A_PEERS) && EntriesTold(more, ps)
    ensures EntriesTold(attrs + more, ps)
    decreases |attrs|
  {
    hide EntriesSay, Walk;
    if attrs == [] {
      assert attrs + more == more;
    } else {
      assert (attrs + more)[1..] == attrs[1..] + more;
      NoEntriesTold(attrs[1..], more, ps);
    }
  }

  lemma {:induction false} EntriesNodeTold(es: seq<Entry>, d: Device)
    requires ChunkOk(es)
    ensures EntriesTold(SeenAll(EntriesNode(es)), EntryPeers(es))
    ensures PeersOnly(SeenAll(EntriesNode(es)))
  {
    hide EntryNodes, EncodeAll, Walk, EntriesSay, EntriesOk;
    if es != [] {
      EntriesSaid(es);
      SeenNest(WGDEVICE_A_PEERS, EntryNodes(es));
      var seen := [Attr(WGDEVICE_A_PEERS, EncodeAll(EntryNodes(es)))];
      var ps := EntryPeers(es);
      assert seen[1..] == [];
      assert |Walk(seen[0].payload)| == |ps| by {
        EntryCount(seen[0].payload, ps);
      }
      assert ps[..|ps|] == ps && ps[|ps|..] == [];
    }
  }

  lemma {:induction false} EntryCount(payload: seq<byte>, ps: seq<Peer>)
    requires EntriesSay(payload, ps)
    ensures |Walk(payload)| == |ps|
  {
  }

  lemma {:induction false} DeviceSayAppend(a: seq<Attr>, b: seq<Attr>, d: Device)
    requires AllDeviceSay(a, d) && AllDeviceSay(b, d)
    ensures AllDeviceSay(a + b, d)
  {
    hide DeviceSays;
  }

  /** The first message says the device's own fields and its entries, the others their entries. */
  lemma {:induction false} MessageTold(other: string, d: Device, first: bool, es: seq<Entry>)
    requires IsByteText(d.name) && IsIfName(d.name) && !d.userspace && ChunkOk(es)
    ensures var seen := SeenAll(MessageNodes(d, first, es));
      && EntriesTold(seen, EntryPeers(es))
      && (first ==> AllDeviceSay(seen, d) && DeviceKnown(seen, BlankDevice(other, false), d))
      && (!first ==> PeersOnly(seen))
  {
    hide AllDeviceSay, DeviceKnown, EntriesTold, PeersOnly, SeenAll, HeadNodes, EntriesNode, EntryPeers, ChunkOk, Has, IsIfName;
    var b := SeenAll(EntriesNode(es));
    EntriesNodeTold(es, d);
    if first {
      SeenAppend(HeadNodes(d), EntriesNode(es));
      HeadSays(d);
      PeersOnlySays(b, d);
      DeviceSayAppend(SeenAll(HeadNodes(d)), b, d);
      HeadKnown(d, other, b);
      HeadHas(d, WGDEVICE_A_PEERS);
      NoEntriesTold(SeenAll(HeadNodes(d)), b, EntryPeers(es));
    } else {
      assert [] + EntriesNode(es) == EntriesNode(es);
    }
  }

  // ----- whole dumps -----

  /** A dump: any 20 bytes of headers and a chunk of entries for each message. */
  datatype Part = Part(header: seq<byte>, entries: seq<Entry>)

  predicate PartsOk(parts: seq<Part>) {
    forall i :: 0 <= i < |parts| ==> |parts[i].header| == 20 && ChunkOk(parts[i].entries)
  }

  function DumpBytes(d: Device, parts: seq<Part>): (msgs: seq<seq<byte>>)
    requires IsByteText(d.name)
    ensures |msgs| == |parts|
    ensures forall i :: 0 <= i < |parts| ==> msgs[i] == parts[i].header + EncodeAll(MessageNodes(d, i == 0, parts[i].entries))
  {
    seq(|parts|, i requires 0 <= i < |parts| => parts[i].header + EncodeAll(MessageNodes(d, i == 0, parts[i].entries)))
  }

  function Chunks(parts: seq<Part>): (chunks: seq<seq<Peer>>)
    ensures |chunks| == |parts|
    ensures forall i :: 0 <= i < |parts| ==> chunks[i] == EntryPeers(parts[i].entries)
  {
    seq(|parts|, i requires 0 <= i < |parts| => EntryPeers(parts[i].entries))
  }

  lemma {:induction false} PartTold(other: string, d: Device, first: bool, part: Part)
    requires IsByteText(d.name) && IsIfName(d.name) && !d.userspace && |part.header| == 20 && ChunkOk(part.entries)
    ensures var attrs := MessageAttrs(part.header + EncodeAll(MessageNodes(d, first, part.entries)));
      && EntriesTold(attrs, EntryPeers(part.entries))
      && (first ==> AllDeviceSay(attrs, d) && DeviceKnown(attrs, BlankDevice(other, false), d))
      && (!first ==> PeersOnly(attrs))
  {
    hide MessageNodes, EncodeAll, Walk, SeenAll, AllDeviceSay, DeviceKnown, EntriesTold, PeersOnly, ChunkOk, AllFit, EntryPeers;
    var ns := MessageNodes(d, first, part.entries);
    var msg := part.header + EncodeAll(ns);
    assert msg[20..] == EncodeAll(ns);
    MessageNodesFit(d, first, part.entries);
    WalkEncoded(ns);
    MessageTold(other, d, first, part.entries);
  }

  /** Byte-level reassembly: take any kernel device with a valid name in which no two neighbouring
      peers share a key, cut its peers into entries in any way, spread the entries over any
      number of messages whose peers nests stay below 2^16 bytes, and encode. The bytes say the
      device, so folding the parser over them gives it back, every field of it. */
  lemma {:induction false} DumpReadsBack(d: Device, parts: seq<Part>, other: string)
    requires IsByteText(d.name) && IsIfName(d.name) && !d.userspace
    requires parts != [] && PartsOk(parts)
    requires NoNeighbours(d.peers) && IsCut(Concat(Chunks(parts)), d.peers)
    ensures DumpTold(DumpBytes(d, parts), Chunks(parts), BlankDevice(other, false), d)
    ensures AllOk(DumpBytes(d, parts)) && Assemble(DumpBytes(d, parts), BlankDevice(other, false)) == d
  {
    hide MessageAttrs, EntryPeers, ChunkOk, EncodeAll, MessageNodes, PeersOnly, IsCut, NoNeighbours, Assemble;
    hide AllDeviceSay, DeviceKnown, EntriesTold, Concat, MessageOk;
    var msgs := DumpBytes(d, parts);
    forall i | 0 <= i < |parts|
      ensures EntriesTold(MessageAttrs(msgs[i]), Chunks(parts)[i])
      ensures i == 0 ==> AllDeviceSay(MessageAttrs(msgs[i]), d) && DeviceKnown(MessageAttrs(msgs[i]), BlankDevice(other, false), d)
      ensures i > 0 ==> PeersOnly(MessageAttrs(msgs[i]))
    {
      assert |parts[i].header| == 20 && ChunkOk(parts[i].entries);
      PartTold(other, d, i == 0, parts[i]);
    }
    AnyDumpHeard(msgs, Chunks(parts), d, other);
  }
}
