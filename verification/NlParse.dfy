/** Reading GET_DEVICE replies (src/netlink/NlAttr.cpp): attribute callbacks that update a device,
    and the merge of peers the kernel split over several entries or messages. The source reads
    fixed-size payloads without checking their length and leaves parts of an allowed ip
    uninitialised; the `...Ok` predicates say which messages have a defined reading. */
module NlParse {
  import opened Core
  import opened WireGuard
  import opened Inet
  import opened Address
  import opened Mnl
  import opened NlTree

  // ----- allowed ips -----

  /** Every payload is long enough to be read, with `family` as the family held so far. */
  predicate Readable(attrs: seq<Attr>, family: byte)
    decreases |attrs|
  {
    if attrs == [] then true
    else
      var a, rest := attrs[0], attrs[1..];
      if a.typ == WGALLOWEDIP_A_FAMILY then |a.payload| >= 2 && Readable(rest, GetU16(a.payload) % 256)
      else if a.typ == WGALLOWEDIP_A_IPADDR then
        |a.payload| >= (if family == AF_INET6 then 16 else 4) && Readable(rest, family)
      else if a.typ == WGALLOWEDIP_A_CIDR_MASK then |a.payload| >= 1 && Readable(rest, family)
      else Readable(rest, family)
  }

  function PrintAddress(family: byte, raw: seq<byte>): string
    requires |raw| >= if family == AF_INET6 then 16 else 4
  {
    if family == AF_INET6 then Ntop6(raw[..16]) else Ntop4(raw[..4])
  }

  /** `ParseAllowedIPAttr`. */
  function IpStep(a: Attr, aip: AllowedIP): AllowedIP
    requires Readable([a], aip.family)
  {
    if a.typ == WGALLOWEDIP_A_FAMILY then aip.(family := GetU16(a.payload) % 256)
    else if a.typ == WGALLOWEDIP_A_IPADDR then aip.(ip := PrintAddress(aip.family, a.payload))
    else if a.typ == WGALLOWEDIP_A_CIDR_MASK then aip.(cidr := a.payload[0])
    else aip
  }

  /** The entry read from its attributes, starting from `aip`. */
  function IpFold(attrs: seq<Attr>, aip: AllowedIP): AllowedIP
    requires Readable(attrs, aip.family)
    decreases |attrs|
  {
    if attrs == [] then aip else IpFold(attrs[1..], IpStep(attrs[0], aip))
  }

  /** The source leaves family and mask uninitialised. Whether the attributes settle all three
      fields: a family, a mask, and no address left that was read before any family. */
  predicate Settles(attrs: seq<Attr>, family: bool, address: bool, mask: bool)
    decreases |attrs|
  {
    if attrs == [] then family && address && mask
    else
      var typ, rest := attrs[0].typ, attrs[1..];
      if typ == WGALLOWEDIP_A_FAMILY then Settles(rest, true, address, mask)
      else if typ == WGALLOWEDIP_A_IPADDR then Settles(rest, family, family, mask)
      else if typ == WGALLOWEDIP_A_CIDR_MASK then Settles(rest, family, address, true)
      else Settles(rest, family, address, mask)
  }

  /** An entry that can be read whatever was there before. */
  predicate ReadableEntry(attrs: seq<Attr>) {
    Readable(attrs, AF_INET) && Readable(attrs, AF_INET6)
  }

  predicate IpEntryOk(attrs: seq<Attr>) {
    ReadableEntry(attrs) && Settles(attrs, false, true, false)
  }

  lemma {:induction false} ReadableFrom(attrs: seq<Attr>, family: byte)
    requires ReadableEntry(attrs)
    ensures Readable(attrs, family)
    decreases |attrs|
  {
    hide GetU16;
    if attrs != [] && attrs[0].typ != WGALLOWEDIP_A_FAMILY {
      ReadableFrom(attrs[1..], family);
    }
  }

  function IpOf(attrs: seq<Attr>): AllowedIP
    requires IpEntryOk(attrs)
  {
    IpFold(attrs, AllowedIP("", AF_INET, 0))
  }

  /** Fields not settled yet may differ; settled they agree. */
  lemma {:induction false} SettledAgree(attrs: seq<Attr>, a: AllowedIP, b: AllowedIP, family: bool, address: bool, mask: bool)
    requires Readable(attrs, a.family) && Readable(attrs, b.family) && Settles(attrs, family, address, mask)
    requires (family ==> a.family == b.family) && (address ==> a.ip == b.ip) && (mask ==> a.cidr == b.cidr)
    ensures IpFold(attrs, a) == IpFold(attrs, b)
    decreases |attrs|
  {
    hide GetU16, PrintAddress;
    if attrs != [] {
      var typ := attrs[0].typ;
      SettledAgree(attrs[1..], IpStep(attrs[0], a), IpStep(attrs[0], b), family || typ == WGALLOWEDIP_A_FAMILY,
        if typ == WGALLOWEDIP_A_IPADDR then family else address, mask || typ == WGALLOWEDIP_A_CIDR_MASK);
    }
  }

  lemma {:induction false} PrintedApart(raw: seq<byte>)
    requires |raw| >= 16
    ensures PrintAddress(AF_INET, raw) != PrintAddress(AF_INET6, raw)
  {
    hide Ntop4, Ntop6;
    Ntop4Text(raw[..4]);
    Ntop6HasColon(raw[..16]);
  }

  /** Where a field stays unsettled, two starts that differ in it give different entries. */
  lemma {:induction false} UnsettledDiffer(attrs: seq<Attr>, a: AllowedIP, b: AllowedIP, family: bool, address: bool, mask: bool)
    requires Readable(attrs, a.family) && Readable(attrs, b.family) && !Settles(attrs, family, address, mask)
    requires !family ==> a.family == AF_INET && b.family == AF_INET6
    requires (!address ==> a.ip != b.ip) && (!mask ==> a.cidr != b.cidr)
    ensures IpFold(attrs, a) != IpFold(attrs, b)
    decreases |attrs|
  {
    hide GetU16, PrintAddress;
    if attrs != [] {
      var typ := attrs[0].typ;
      if typ == WGALLOWEDIP_A_IPADDR && !family {
        PrintedApart(attrs[0].payload);
      }
      UnsettledDiffer(attrs[1..], IpStep(attrs[0], a), IpStep(attrs[0], b), family || typ == WGALLOWEDIP_A_FAMILY,
        if typ == WGALLOWEDIP_A_IPADDR then family else address, mask || typ == WGALLOWEDIP_A_CIDR_MASK);
    }
  }

  /** What the uninitialised family and mask held shows in the entry if and only if the entry
      does not settle its fields. */
  lemma {:induction false} NoJunk(attrs: seq<Attr>)
    requires ReadableEntry(attrs)
    ensures Settles(attrs, false, true, false)
       <==> forall f: byte, g: byte, c: byte, d: byte :: Readable(attrs, f) && Readable(attrs, g)
              ==> IpFold(attrs, AllowedIP("", f, c)) == IpFold(attrs, AllowedIP("", g, d))
  {
    hide IpFold, Settles, Readable;
    if Settles(attrs, false, true, false) {
      forall f: byte, g: byte, c: byte, d: byte | Readable(attrs, f) && Readable(attrs, g)
        ensures IpFold(attrs, AllowedIP("", f, c)) == IpFold(attrs, AllowedIP("", g, d))
      {
        SettledAgree(attrs, AllowedIP("", f, c), AllowedIP("", g, d), false, true, false);
      }
    } else {
      UnsettledDiffer(attrs, AllowedIP("", AF_INET, 0), AllowedIP("", AF_INET6, 1), false, true, false);
    }
  }

  predicate IpListOk(entries: seq<Attr>) {
    forall i :: 0 <= i < |entries| ==> IpEntryOk(Walk(entries[i].payload))
  }

  function IpList(entries: seq<Attr>): (ips: seq<AllowedIP>)
    requires IpListOk(entries)
    ensures |ips| == |entries|
    ensures forall i :: 0 <= i < |entries| ==> ips[i] == IpOf(Walk(entries[i].payload))
  {
    seq(|entries|, i requires 0 <= i < |entries| => IpOf(Walk(entries[i].payload)))
  }

  // ----- peers -----

  /** The sockaddr behind an endpoint attribute. */
  function SockOf(raw: seq<byte>): SockAddr
    requires |raw| >= 2 && |raw| >= if GetU16(raw) == AF_INET then 8 else 24
  {
    if GetU16(raw) == AF_INET then In4(raw[4..8], GetBE16(raw[2..])) else In6(raw[8..24], GetBE16(raw[2..]))
  }

  predicate PeerAttrOk(a: Attr) {
    if a.typ == WGPEER_A_PUBLIC_KEY || a.typ == WGPEER_A_PRESHARED_KEY then |a.payload| >= KEY_LEN
    else if a.typ == WGPEER_A_ENDPOINT then |a.payload| >= 2 && |a.payload| >= if GetU16(a.payload) == AF_INET then 8 else 24
    else if a.typ == WGPEER_A_PERSISTENT_KEEPALIVE_INTERVAL then |a.payload| >= 2
    else if a.typ == WGPEER_A_LAST_HANDSHAKE_TIME || a.typ == WGPEER_A_RX_BYTES || a.typ == WGPEER_A_TX_BYTES then |a.payload| >= 8
    else if a.typ == WGPEER_A_ALLOWEDIPS then IpListOk(Walk(a.payload))
    else if a.typ == WGPEER_A_PROTOCOL_VERSION then |a.payload| >= 4
    else true
  }

  function PeerStep(a: Attr, p: Peer): Peer
    requires PeerAttrOk(a)
  {
    if a.typ == WGPEER_A_PUBLIC_KEY then p.(publicKey := a.payload[..KEY_LEN])
    else if a.typ == WGPEER_A_PRESHARED_KEY then p.(presharedKey := Some(a.payload[..KEY_LEN]))
    else if a.typ == WGPEER_A_ENDPOINT then p.(endpoint := Some(FormatEndpoint(SockOf(a.payload))))
    else if a.typ == WGPEER_A_PERSISTENT_KEEPALIVE_INTERVAL then p.(persistentKeepaliveInterval := GetU16(a.payload))
    else if a.typ == WGPEER_A_LAST_HANDSHAKE_TIME then p.(lastHandshakeTimeSec := GetI64(a.payload))
    else if a.typ == WGPEER_A_RX_BYTES then p.(receiveBytes := GetU64(a.payload))
    else if a.typ == WGPEER_A_TX_BYTES then p.(transmitBytes := GetU64(a.payload))
    else if a.typ == WGPEER_A_ALLOWEDIPS then p.(allowedIPs := p.allowedIPs + IpList(Walk(a.payload)))
    else if a.typ == WGPEER_A_PROTOCOL_VERSION then p.(protocolVersion := GetU32(a.payload))
    else p
  }

  predicate PeerOk(attrs: seq<Attr>) {
    forall i :: 0 <= i < |attrs| ==> PeerAttrOk(attrs[i])
  }

  function PeerFold(attrs: seq<Attr>, p: Peer): Peer
    requires PeerOk(attrs)
    decreases |attrs|
  {
    if attrs == [] then p else PeerFold(attrs[1..], PeerStep(attrs[0], p))
  }

  const NO_KEY: Key := Zeros(KEY_LEN)

  /** One entry of a peers nest, read on its own. */
  function PeerOf(attrs: seq<Attr>): Peer
    requires PeerOk(attrs)
  {
    PeerFold(attrs, BlankPeer(NO_KEY))
  }

  predicate PeerListOk(entries: seq<Attr>) {
    forall i :: 0 <= i < |entries| ==> PeerOk(Walk(entries[i].payload))
  }

  function PeerList(entries: seq<Attr>): (ps: seq<Peer>)
    requires PeerListOk(entries)
    ensures |ps| == |entries|
    ensures forall i :: 0 <= i < |entries| ==> ps[i] == PeerOf(Walk(entries[i].payload))
  {
    seq(|entries|, i requires 0 <= i < |entries| => PeerOf(Walk(entries[i].payload)))
  }

  /** The merge: an entry whose key is that of the last peer only adds its allowed ips to it. */
  function Merge(peers: seq<Peer>, p: Peer): seq<Peer> {
    var n := |peers|;
    if n > 0 && peers[n - 1].publicKey == p.publicKey then
      peers[..n - 1] + [peers[n - 1].(allowedIPs := peers[n - 1].allowedIPs + p.allowedIPs)]
    else peers + [p]
  }

  function MergeAll(peers: seq<Peer>, entries: seq<Peer>): seq<Peer>
    decreases |entries|
  {
    if entries == [] then peers else MergeAll(Merge(peers, entries[0]), entries[1..])
  }

  // ----- the device -----

  predicate DeviceAttrOk(a: Attr) {
    if a.typ == WGDEVICE_A_IFNAME then 0 in a.payload
    else if a.typ == WGDEVICE_A_PRIVATE_KEY || a.typ == WGDEVICE_A_PUBLIC_KEY then |a.payload| >= KEY_LEN
    else if a.typ == WGDEVICE_A_LISTEN_PORT then |a.payload| >= 2
    else if a.typ == WGDEVICE_A_FWMARK then |a.payload| >= 4
    else if a.typ == WGDEVICE_A_PEERS then PeerListOk(Walk(a.payload))
    else true
  }

  function DeviceStep(a: Attr, d: Device): Device
    requires DeviceAttrOk(a)
  {
    if a.typ == WGDEVICE_A_IFNAME then d.(name := BytesText(a.payload))
    else if a.typ == WGDEVICE_A_PRIVATE_KEY then d.(privateKey := Some(a.payload[..KEY_LEN]))
    else if a.typ == WGDEVICE_A_PUBLIC_KEY then d.(publicKey := Some(a.payload[..KEY_LEN]))
    else if a.typ == WGDEVICE_A_LISTEN_PORT then d.(listenPort := GetU16(a.payload))
    else if a.typ == WGDEVICE_A_FWMARK then d.(firewallMark := GetU32(a.payload))
    else if a.typ == WGDEVICE_A_PEERS then d.(peers := MergeAll(d.peers, PeerList(Walk(a.payload))))
    else d
  }

  predicate DeviceOk(attrs: seq<Attr>) {
    forall i :: 0 <= i < |attrs| ==> DeviceAttrOk(attrs[i])
  }

  function DeviceFold(attrs: seq<Attr>, d: Device): Device
    requires DeviceOk(attrs)
    decreases |attrs|
  {
    if attrs == [] then d else DeviceFold(attrs[1..], DeviceStep(attrs[0], d))
  }

  predicate MessageOk(msg: seq<byte>) {
    DeviceOk(MessageAttrs(msg))
  }

  function Parsed(msg: seq<byte>, d: Device): Device
    requires MessageOk(msg)
  {
    DeviceFold(MessageAttrs(msg), d)
  }

  // ----- the callbacks, as loops -----

  /** `ParseAllowedIPEntry`'s walk; family and mask start out uninitialised. */
  method ParseAllowedIP(nest: seq<byte>) returns (aip: AllowedIP)
    requires IpEntryOk(Walk(nest))
    ensures aip == IpOf(Walk(nest))
  {
    hide Walk, FirstAttr, NextAttr, GetU16, PrintAddress, Settles;
    var family: byte := *;
    var cidr: byte := *;
    ReadableFrom(Walk(nest), family);
    SettledAgree(Walk(nest), AllowedIP("", family, cidr), AllowedIP("", AF_INET, 0), false, true, false);
    aip := AllowedIP("", family, cidr);
    var rest := nest;
    while AttrOk(rest)
      invariant Readable(Walk(rest), aip.family)
      invariant IpFold(Walk(rest), aip) == IpOf(Walk(nest))
      decreases |rest|
    {
      WalkStep(rest);
      var a := FirstAttr(rest);
      if a.typ == WGALLOWEDIP_A_FAMILY {
        aip := aip.(family := GetU16(a.payload) % 256);
      } else if a.typ == WGALLOWEDIP_A_IPADDR {
        aip := aip.(ip := PrintAddress(aip.family, a.payload));
      } else if a.typ == WGALLOWEDIP_A_CIDR_MASK {
        aip := aip.(cidr := a.payload[0]);
      }
      NextShorter(rest);
      rest := NextAttr(rest);
    }
    WalkEnd(rest);
  }

  lemma {:induction false} WalkStep(b: seq<byte>)
    requires AttrOk(b)
    ensures Walk(b) != [] && Walk(b)[0] == FirstAttr(b) && Walk(b)[1..] == Walk(NextAttr(b))
  {
  }

  lemma {:induction false} NextShorter(b: seq<byte>)
    requires AttrOk(b)
    ensures |NextAttr(b)| < |b|
  {
  }

  lemma {:induction false} WalkEnd(b: seq<byte>)
    requires !AttrOk(b)
    ensures Walk(b) == []
  {
  }

  method ParseAllowedIPs(nest: seq<byte>, list0: seq<AllowedIP>) returns (list: seq<AllowedIP>)
    requires IpListOk(Walk(nest))
    ensures list == list0 + IpList(Walk(nest))
  {
    hide Walk, FirstAttr, NextAttr, IpEntryOk, IpOf;
    list := list0;
    var rest := nest;
    assert list0 + IpList(Walk(nest)) == list + IpList(Walk(rest));
    while AttrOk(rest)
      invariant IpListOk(Walk(rest))
      invariant list + IpList(Walk(rest)) == list0 + IpList(Walk(nest))
      decreases |rest|
    {
      WalkStep(rest);
      var a := FirstAttr(rest);
      assert a == Walk(rest)[0];
      var aip := ParseAllowedIP(a.payload);
      ListStep(list, Walk(rest));
      list := list + [aip];
      NextShorter(rest);
      rest := NextAttr(rest);
    }
    WalkEnd(rest);
  }

  lemma {:induction false} ListStep(list: seq<AllowedIP>, entries: seq<Attr>)
    requires entries != [] && IpListOk(entries)
    ensures IpListOk(entries[1..])
    ensures list + IpList(entries) == list + [IpOf(Walk(entries[0].payload))] + IpList(entries[1..])
  {
    hide IpEntryOk, IpOf, Walk;
  }

  /** `ParsePeerAttr` over one entry. */
  method ParsePeer(nest: seq<byte>) returns (peer: Peer)
    requires PeerOk(Walk(nest))
    ensures peer == PeerOf(Walk(nest))
  {
    hide Walk, FirstAttr, NextAttr, PeerAttrOk, PeerStep;
    peer := BlankPeer(NO_KEY);
    var rest := nest;
    while AttrOk(rest)
      invariant PeerOk(Walk(rest))
      invariant PeerFold(Walk(rest), peer) == PeerOf(Walk(nest))
      decreases |rest|
    {
      WalkStep(rest);
      assert PeerAttrOk(Walk(rest)[0]);
      peer := ApplyPeerAttr(FirstAttr(rest), peer);
      NextShorter(rest);
      rest := NextAttr(rest);
    }
    WalkEnd(rest);
  }

  method ApplyPeerAttr(a: Attr, peer0: Peer) returns (peer: Peer)
    requires PeerAttrOk(a)
    ensures peer == PeerStep(a, peer0)
  {
    hide GetU16, GetI64, GetU64, GetU32, FormatEndpoint, Walk, IpListOk;
    peer := peer0;
    if a.typ == WGPEER_A_PUBLIC_KEY {
      peer := peer.(publicKey := a.payload[..KEY_LEN]);
    } else if a.typ == WGPEER_A_PRESHARED_KEY {
      peer := peer.(presharedKey := Some(a.payload[..KEY_LEN]));
    } else if a.typ == WGPEER_A_ENDPOINT {
      peer := peer.(endpoint := Some(FormatEndpoint(SockOf(a.payload))));
    } else if a.typ == WGPEER_A_PERSISTENT_KEEPALIVE_INTERVAL {
      peer := peer.(persistentKeepaliveInterval := GetU16(a.payload));
    } else if a.typ == WGPEER_A_LAST_HANDSHAKE_TIME {
      peer := peer.(lastHandshakeTimeSec := GetI64(a.payload));
    } else if a.typ == WGPEER_A_RX_BYTES {
      peer := peer.(receiveBytes := GetU64(a.payload));
    } else if a.typ == WGPEER_A_TX_BYTES {
      peer := peer.(transmitBytes := GetU64(a.payload));
    } else if a.typ == WGPEER_A_ALLOWEDIPS {
      var ips := ParseAllowedIPs(a.payload, peer.allowedIPs);
      peer := peer.(allowedIPs := ips);
    } else if a.typ == WGPEER_A_PROTOCOL_VERSION {
      peer := peer.(protocolVersion := GetU32(a.payload));
    }
  }

  /** `ParsePeerEntry` over a peers nest. */
  method ParsePeers(nest: seq<byte>, peers0: seq<Peer>) returns (peers: seq<Peer>)
    requires PeerListOk(Walk(nest))
    ensures peers == MergeAll(peers0, PeerList(Walk(nest)))
  {
    hide Walk, FirstAttr, NextAttr, PeerOk, PeerOf;
    peers := peers0;
    var rest := nest;
    while AttrOk(rest)
      invariant PeerListOk(Walk(rest))
      invariant MergeAll(peers, PeerList(Walk(rest))) == MergeAll(peers0, PeerList(Walk(nest)))
      decreases |rest|
    {
      WalkStep(rest);
      assert PeerOk(Walk(Walk(rest)[0].payload));
      var peer := ParsePeer(FirstAttr(rest).payload);
      PeersStep(Walk(rest));
      var n := |peers|;
      ghost var merged := Merge(peers, peer);
      if n > 0 && peers[n - 1].publicKey == peer.publicKey {
        var existing := peers[n - 1];
        peers := peers[..n - 1] + [existing.(allowedIPs := existing.allowedIPs + peer.allowedIPs)];
      } else {
        peers := peers + [peer];
      }
      assert peers == merged;
      NextShorter(rest);
      rest := NextAttr(rest);
    }
    WalkEnd(rest);
  }

  lemma {:induction false} PeersStep(entries: seq<Attr>)
    requires entries != [] && PeerListOk(entries)
    ensures PeerListOk(entries[1..])
    ensures PeerList(entries)[0] == PeerOf(Walk(entries[0].payload)) && PeerList(entries)[1..] == PeerList(entries[1..])
  {
    hide PeerOk, PeerOf, Walk;
  }

  /** The device a dump is assembled into, shared by the calls for all its messages. */
  class DeviceBox {
    var device: Device

    constructor (name: string)
      ensures device == BlankDevice(name, false)
    {
      device := BlankDevice(name, false);
    }

    /** `ParseDeviceMessage`: one reply, folded into the device. */
    method ParseDeviceMessage(msg: seq<byte>)
      requires MessageOk(msg)
      modifies this
      ensures device == Parsed(msg, old(device))
    {
      hide Walk, FirstAttr, NextAttr, DeviceAttrOk, DeviceStep;
      if |msg| < 20 {
        return;
      }
      var rest := msg[20..];
      while AttrOk(rest)
        invariant DeviceOk(Walk(rest))
        invariant DeviceFold(Walk(rest), device) == Parsed(msg, old(device))
        decreases |rest|
      {
        WalkStep(rest);
        assert DeviceAttrOk(Walk(rest)[0]);
        ApplyDeviceAttr(FirstAttr(rest));
        NextShorter(rest);
        rest := NextAttr(rest);
      }
      WalkEnd(rest);
    }

    /** `ParseDeviceAttr`. */
    method ApplyDeviceAttr(a: Attr)
      requires DeviceAttrOk(a)
      modifies this
      ensures device == DeviceStep(a, old(device))
    {
      hide GetU16, GetU32, BytesText, Walk, PeerListOk;
      if a.typ == WGDEVICE_A_IFNAME {
        device := device.(name := BytesText(a.payload));
      } else if a.typ == WGDEVICE_A_PRIVATE_KEY {
        device := device.(privateKey := Some(a.payload[..KEY_LEN]));
      } else if a.typ == WGDEVICE_A_PUBLIC_KEY {
        device := device.(publicKey := Some(a.payload[..KEY_LEN]));
      } else if a.typ == WGDEVICE_A_LISTEN_PORT {
        device := device.(listenPort := GetU16(a.payload));
      } else if a.typ == WGDEVICE_A_FWMARK {
        device := device.(firewallMark := GetU32(a.payload));
      } else if a.typ == WGDEVICE_A_PEERS {
        var peers := ParsePeers(a.payload, device.peers);
        device := device.(peers := peers);
      }
    }
  }
}
