/** What a dump says, attribute by attribute and in any order, and that the parser hears it
    (src/netlink/NlAttr.cpp, src/netlink/wireguard_uapi.h). Attribute types and address families are
    those of the header, written out. Attributes may come in any order, with
    any entry numbering, longer payloads and attributes the parser does not know in between; only
    an allowed ip's family must precede its address. */
module NlReport {
  import opened Core
  import opened WireGuard
  import opened Inet
  import opened Address
  import opened Mnl
  import opened NlTree
  import opened NlParse
  import opened NlRoundTrip
  import opened Reassembly

  predicate Has(attrs: seq<Attr>, typ: nat)
    decreases |attrs|
  {
    attrs != [] && (attrs[0].typ == typ || Has(attrs[1..], typ))
  }

  // ----- allowed ips -----

  /** One entry says one allowed ip, in the spelling its address bytes print as. */
  predicate EntrySays(attrs: seq<Attr>, aip: AllowedIP) {
    && AllIpSay(attrs, aip.family, IpBytes(aip), aip.cidr) && Orderly(attrs, false, false, false)
    && KnownFamily(aip) && NetIp(aip) == aip
  }

  predicate IpsSay(payload: seq<byte>, ips: seq<AllowedIP>) {
    var entries := Walk(payload);
    |entries| == |ips| && forall i :: 0 <= i < |ips| ==> EntrySays(Walk(entries[i].payload), ips[i])
  }

  lemma {:induction false} EntryHeard(attrs: seq<Attr>, aip: AllowedIP)
    requires EntrySays(attrs, aip)
    ensures IpEntryOk(attrs) && IpOf(attrs) == aip
  {
    hide AllIpSay, Orderly, IpBytes, PrintAddress, IpEntryOk, IpOf;
    OrderlyReadsBack(attrs, aip.family, IpBytes(aip), aip.cidr);
  }

  lemma {:induction false} IpsHeard(payload: seq<byte>, ips: seq<AllowedIP>)
    requires IpsSay(payload, ips)
    ensures IpListOk(Walk(payload)) && IpList(Walk(payload)) == ips
  {
    hide EntrySays, IpEntryOk, IpOf, Walk;
    var entries := Walk(payload);
    forall i | 0 <= i < |entries|
      ensures IpEntryOk(Walk(entries[i].payload)) && IpOf(Walk(entries[i].payload)) == ips[i]
    {
      EntryHeard(Walk(entries[i].payload), ips[i]);
    }
  }

  // ----- peers -----

  /** The fields of a sockaddr that matter: not its padding, flow info or scope. */
  predicate SockSays(payload: seq<byte>, sa: SockAddr) {
    match sa
    case In4(a, port) => U16(2) + BE16(port) + a <= payload
    case In6(a, port) => |payload| >= 24 && U16(10) + BE16(port) <= payload && payload[8..24] == a
  }

  /** The endpoint text is the printed form of the sockaddr sent. */
  predicate EndpointSays(payload: seq<byte>, text: string) {
    var sa := ParseEndpoint(text);
    sa.Ok? && text == FormatEndpoint(sa.value) && SockSays(payload, sa.value)
  }

  /** What an attribute says of a peer's scalar fields. */
  predicate PeerSays(a: Attr, p: Peer) {
    if a.typ == 1 then p.publicKey <= a.payload
    else if a.typ == 2 then p.presharedKey.Some? && p.presharedKey.value <= a.payload
    else if a.typ == 4 then p.endpoint.Some? && EndpointSays(a.payload, p.endpoint.value)
    else if a.typ == 5 then U16(p.persistentKeepaliveInterval) <= a.payload
    else if a.typ == 6 then I64(p.lastHandshakeTimeSec) <= a.payload
    else if a.typ == 7 then U64(p.receiveBytes) <= a.payload
    else if a.typ == 8 then U64(p.transmitBytes) <= a.payload
    else if a.typ == 10 then U32(p.protocolVersion) <= a.payload
    else true
  }

  predicate AllPeerSay(attrs: seq<Attr>, p: Peer) {
    forall i :: 0 <= i < |attrs| ==> PeerSays(attrs[i], p)
  }

  /** The allowed-ips attributes say `ips`, one after another. */
  predicate IpsTold(attrs: seq<Attr>, ips: seq<AllowedIP>)
    decreases |attrs|
  {
    if attrs == [] then ips == []
    else if attrs[0].typ != 9 then IpsTold(attrs[1..], ips)
    else
      var n := |Walk(attrs[0].payload)|;
      n <= |ips| && IpsSay(attrs[0].payload, ips[..n]) && IpsTold(attrs[1..], ips[n..])
  }

  /** A field no attribute of `attrs` speaks of is already that of p. */
  predicate RestKnown(attrs: seq<Attr>, q: Peer, p: Peer) {
    ConfiguredKnown(attrs, q, p) && CountedKnown(attrs, q, p)
  }

  predicate ConfiguredKnown(attrs: seq<Attr>, q: Peer, p: Peer) {
    && (Has(attrs, 1) || q.publicKey == p.publicKey)
    && (Has(attrs, 2) || q.presharedKey == p.presharedKey)
    && (Has(attrs, 4) || q.endpoint == p.endpoint)
    && (Has(attrs, 5) || q.persistentKeepaliveInterval == p.persistentKeepaliveInterval)
  }

  predicate CountedKnown(attrs: seq<Attr>, q: Peer, p: Peer) {
    && (Has(attrs, 6) || q.lastHandshakeTimeSec == p.lastHandshakeTimeSec)
    && (Has(attrs, 7) || q.receiveBytes == p.receiveBytes)
    && (Has(attrs, 8) || q.transmitBytes == p.transmitBytes)
    && (Has(attrs, 10) || q.protocolVersion == p.protocolVersion)
  }

  /** An entry of a peers nest says a peer: each attribute says its field, and a field that is not
      there has its default. */
  predicate PeerTold(attrs: seq<Attr>, p: Peer) {
    AllPeerSay(attrs, p) && IpsTold(attrs, p.allowedIPs) && RestKnown(attrs, BlankPeer(NO_KEY), p)
  }

  lemma {:induction false} SockHeard(payload: seq<byte>, sa: SockAddr)
    requires SockSays(payload, sa)
    ensures |payload| >= 2 && |payload| >= (if GetU16(payload) == AF_INET then 8 else 24) && SockOf(payload) == sa
  {
    hide GetU16, GetBE16, U16, BE16;
    match sa
    case In4(a, port) =>
      assert payload[..2] == U16(AF_INET) && payload[2..4] == BE16(port);
      assert payload == U16(AF_INET) + payload[2..] && payload[2..] == BE16(port) + payload[4..];
      U16RoundTrip(AF_INET, payload[2..]);
      U16RoundTrip(port, payload[4..]);
      assert payload[4..8] == a;
    case In6(a, port) =>
      assert payload == U16(AF_INET6) + payload[2..] && payload[2..] == BE16(port) + payload[4..];
      U16RoundTrip(AF_INET6, payload[2..]);
      U16RoundTrip(port, payload[4..]);
  }

  lemma {:induction false} SmallNumbersHeard(payload: seq<byte>, m: u16, n: u32)
    ensures U16(m) <= payload ==> GetU16(payload) == m
    ensures U32(n) <= payload ==> GetU32(payload) == n
  {
    hide U16, U32, GetU16, GetU32;
    if U16(m) <= payload {
      U16RoundTrip(m, payload[2..]);
      assert payload == U16(m) + payload[2..];
    }
    if U32(n) <= payload {
      U32RoundTrip(n, payload[4..]);
      assert payload == U32(n) + payload[4..];
    }
  }

  lemma {:induction false} LongNumbersHeard(payload: seq<byte>, m: u64, n: i64)
    ensures U64(m) <= payload ==> GetU64(payload) == m
    ensures I64(n) <= payload ==> GetI64(payload) == n
  {
    hide U64, I64, GetU64, GetI64;
    if U64(m) <= payload {
      U64RoundTrip(m, payload[8..]);
      assert payload == U64(m) + payload[8..];
    }
    if I64(n) <= payload {
      I64RoundTrip(n, payload[8..]);
      assert payload == I64(n) + payload[8..];
    }
  }

  lemma {:induction false} KeyHeard(payload: seq<byte>, key: Key)
    requires key <= payload
    ensures |payload| >= KEY_LEN && payload[..KEY_LEN] == key
  {
  }

  /** The peer with the field an attribute speaks of taken from p. */
  function Taken(typ: nat, q: Peer, p: Peer): Peer {
    if typ == 1 then q.(publicKey := p.publicKey)
    else if typ == 2 then q.(presharedKey := p.presharedKey)
    else if typ == 4 then q.(endpoint := p.endpoint)
    else if typ == 5 then q.(persistentKeepaliveInterval := p.persistentKeepaliveInterval)
    else if typ == 6 then q.(lastHandshakeTimeSec := p.lastHandshakeTimeSec)
    else if typ == 7 then q.(receiveBytes := p.receiveBytes)
    else if typ == 8 then q.(transmitBytes := p.transmitBytes)
    else if typ == 10 then q.(protocolVersion := p.protocolVersion)
    else q
  }

  lemma {:induction false} ScalarHeard(a: Attr, q: Peer, p: Peer)
    requires PeerSays(a, p) && a.typ != WGPEER_A_ALLOWEDIPS
    ensures PeerAttrOk(a) && PeerStep(a, q) == Taken(a.typ, q, p)
  {
    hide U16, U32, U64, I64, GetU16, GetU32, GetU64, GetI64, ParseEndpoint, FormatEndpoint, SockOf, SockSays;
    if a.typ == WGPEER_A_ENDPOINT {
      SockHeard(a.payload, ParseEndpoint(p.endpoint.value).value);
    }
    if a.typ == WGPEER_A_PUBLIC_KEY {
      KeyHeard(a.payload, p.publicKey);
    }
    if a.typ == WGPEER_A_PRESHARED_KEY {
      KeyHeard(a.payload, p.presharedKey.value);
    }
    SmallNumbersHeard(a.payload, p.persistentKeepaliveInterval, p.protocolVersion);
    LongNumbersHeard(a.payload, p.receiveBytes, p.lastHandshakeTimeSec);
    LongNumbersHeard(a.payload, p.transmitBytes, 0);
  }

  lemma {:induction false} TakenKnown(attrs: seq<Attr>, q: Peer, p: Peer)
    requires attrs != [] && RestKnown(attrs, q, p)
    ensures RestKnown(attrs[1..], Taken(attrs[0].typ, q, p), p)
    ensures Taken(attrs[0].typ, q, p).allowedIPs == q.allowedIPs
  {
    hide Has, ConfiguredKnown, CountedKnown;
    ConfiguredTaken(attrs, q, p);
    CountedTaken(attrs, q, p);
  }

  lemma {:induction false} ConfiguredTaken(attrs: seq<Attr>, q: Peer, p: Peer)
    requires attrs != [] && ConfiguredKnown(attrs, q, p)
    ensures ConfiguredKnown(attrs[1..], Taken(attrs[0].typ, q, p), p)
  {
    hide Has;
    HasStep(attrs, 1);
    HasStep(attrs, 2);
    HasStep(attrs, 4);
    HasStep(attrs, 5);
  }

  lemma {:induction false} CountedTaken(attrs: seq<Attr>, q: Peer, p: Peer)
    requires attrs != [] && CountedKnown(attrs, q, p)
    ensures CountedKnown(attrs[1..], Taken(attrs[0].typ, q, p), p)
  {
    hide Has;
    HasStep(attrs, 6);
    HasStep(attrs, 7);
    HasStep(attrs, 8);
    HasStep(attrs, 10);
  }

  lemma {:induction false} HasStep(attrs: seq<Attr>, typ: nat)
    requires attrs != []
    ensures Has(attrs, typ) <==> attrs[0].typ == typ || Has(attrs[1..], typ)
  {
  }

  lemma {:induction false} IpsKnown(attrs: seq<Attr>, q: Peer, p: Peer, ips: seq<AllowedIP>)
    requires attrs != [] && attrs[0].typ == WGPEER_A_ALLOWEDIPS && RestKnown(attrs, q, p)
    ensures RestKnown(attrs[1..], q.(allowedIPs := ips), p)
  {
  }

  lemma {:induction false} AllPeerSayTail(attrs: seq<Attr>, p: Peer)
    requires attrs != [] && AllPeerSay(attrs, p)
    ensures PeerSays(attrs[0], p) && AllPeerSay(attrs[1..], p)
  {
    hide PeerSays;
    assert forall i :: 0 <= i < |attrs| - 1 ==> attrs[1..][i] == attrs[i + 1];
  }

  lemma {:induction false} PeerOkCons(attrs: seq<Attr>)
    requires attrs != [] && PeerAttrOk(attrs[0]) && PeerOk(attrs[1..])
    ensures PeerOk(attrs)
  {
    hide PeerAttrOk;
    assert forall i :: 1 <= i < |attrs| ==> attrs[i] == attrs[1..][i - 1];
  }

  /** The rest of an entry, heard on top of q. */
  lemma {:induction false} RestHeard(attrs: seq<Attr>, q: Peer, p: Peer, ips: seq<AllowedIP>)
    requires AllPeerSay(attrs, p) && IpsTold(attrs, ips) && RestKnown(attrs, q, p) && q.allowedIPs + ips == p.allowedIPs
    ensures PeerOk(attrs) && PeerFold(attrs, q) == p
    decreases |attrs|
  {
    hide PeerAttrOk, PeerStep, PeerSays, AllPeerSay, RestKnown, Taken, Walk, IpsSay, PeerOk;
    if attrs == [] {
      NothingLeft(q, p);
      assert PeerOk(attrs) by {
        NoAttrsOk();
      }
    } else {
      var a := attrs[0];
      AllPeerSayTail(attrs, p);
      if a.typ == WGPEER_A_ALLOWEDIPS {
        var n := |Walk(a.payload)|;
        IpsStep(a, q, ips[..n]);
        IpsKnown(attrs, q, p, q.allowedIPs + ips[..n]);
        assert q.allowedIPs + ips[..n] + ips[n..] == q.allowedIPs + ips;
        RestHeard(attrs[1..], q.(allowedIPs := q.allowedIPs + ips[..n]), p, ips[n..]);
      } else {
        ScalarHeard(a, q, p);
        TakenKnown(attrs, q, p);
        RestHeard(attrs[1..], Taken(a.typ, q, p), p, ips);
      }
      PeerOkCons(attrs);
    }
  }

  lemma {:induction false} NothingLeft(q: Peer, p: Peer)
    requires RestKnown([], q, p) && q.allowedIPs + [] == p.allowedIPs
    ensures q == p
  {
    assert q.allowedIPs + [] == q.allowedIPs;
  }

  lemma {:induction false} NoAttrsOk()
    ensures PeerOk([])
  {
  }

  lemma {:induction false} IpsStep(a: Attr, q: Peer, ips: seq<AllowedIP>)
    requires a.typ == WGPEER_A_ALLOWEDIPS && IpsSay(a.payload, ips)
    ensures PeerAttrOk(a) && PeerStep(a, q) == q.(allowedIPs := q.allowedIPs + ips)
  {
    hide IpsSay, Walk, IpListOk, IpList;
    IpsHeard(a.payload, ips);
  }

  /** An entry that says a peer is read as that peer, whatever the order of its attributes. */
  lemma {:induction false} PeerHeard(attrs: seq<Attr>, p: Peer)
    requires PeerTold(attrs, p)
    ensures PeerOk(attrs) && PeerOf(attrs) == p
  {
    hide AllPeerSay, IpsTold, RestKnown, PeerOk, PeerFold, Zeros;
    assert [] + p.allowedIPs == p.allowedIPs;
    RestHeard(attrs, BlankPeer(NO_KEY), p, p.allowedIPs);
  }

  // ----- messages -----

  predicate EntriesSay(payload: seq<byte>, ps: seq<Peer>) {
    var entries := Walk(payload);
    |entries| == |ps| && forall i :: 0 <= i < |ps| ==> PeerTold(Walk(entries[i].payload), ps[i])
  }

  /** The peers attributes of a message say the entries `ps`, one after another. */
  predicate EntriesTold(attrs: seq<Attr>, ps: seq<Peer>)
    decreases |attrs|
  {
    if attrs == [] then ps == []
    else if attrs[0].typ != 8 then EntriesTold(attrs[1..], ps)
    else
      var n := |Walk(attrs[0].payload)|;
      n <= |ps| && EntriesSay(attrs[0].payload, ps[..n]) && EntriesTold(attrs[1..], ps[n..])
  }

  /** What an attribute says of a device's own fields. */
  predicate DeviceSays(a: Attr, d: Device) {
    if a.typ == 2 then IsByteText(d.name) && '\0' !in d.name && TextBytes(d.name) + [0] <= a.payload
    else if a.typ == 3 then d.privateKey.Some? && d.privateKey.value <= a.payload
    else if a.typ == 4 then d.publicKey.Some? && d.publicKey.value <= a.payload
    else if a.typ == 6 then U16(d.listenPort) <= a.payload
    else if a.typ == 7 then U32(d.firewallMark) <= a.payload
    else true
  }

  predicate AllDeviceSay(attrs: seq<Attr>, d: Device) {
    forall i :: 0 <= i < |attrs| ==> DeviceSays(attrs[i], d)
  }

  predicate DeviceKnown(attrs: seq<Attr>, e: Device, d: Device) {
    && (Has(attrs, 2) || e.name == d.name)
    && (Has(attrs, 3) || e.privateKey == d.privateKey)
    && (Has(attrs, 4) || e.publicKey == d.publicKey)
    && (Has(attrs, 6) || e.listenPort == d.listenPort)
    && (Has(attrs, 7) || e.firewallMark == d.firewallMark)
    && e.userspace == d.userspace
  }

  function DeviceTaken(typ: nat, e: Device, d: Device): Device {
    if typ == 2 then e.(name := d.name)
    else if typ == 3 then e.(privateKey := d.privateKey)
    else if typ == 4 then e.(publicKey := d.publicKey)
    else if typ == 6 then e.(listenPort := d.listenPort)
    else if typ == 7 then e.(firewallMark := d.firewallMark)
    else e
  }

  lemma {:induction false} NameHeard(payload: seq<byte>, name: string)
    requires IsByteText(name) && '\0' !in name && TextBytes(name) + [0] <= payload
    ensures 0 in payload && BytesText(payload) == name
  {
    hide TextBytes, BytesText;
    var n := |name| + 1;
    assert payload == TextBytes(name) + [0] + payload[n..];
    assert payload[n - 1] == 0;
    NameBytes(name, payload[n..]);
  }

  lemma {:induction false} FieldHeard(a: Attr, e: Device, d: Device)
    requires DeviceSays(a, d) && a.typ != WGDEVICE_A_PEERS
    ensures DeviceAttrOk(a) && DeviceStep(a, e) == DeviceTaken(a.typ, e, d)
  {
    hide U16, U32, GetU16, GetU32, TextBytes, BytesText;
    if a.typ == WGDEVICE_A_IFNAME {
      NameHeard(a.payload, d.name);
    }
    if a.typ == WGDEVICE_A_PRIVATE_KEY {
      KeyHeard(a.payload, d.privateKey.value);
    }
    if a.typ == WGDEVICE_A_PUBLIC_KEY {
      KeyHeard(a.payload, d.publicKey.value);
    }
    SmallNumbersHeard(a.payload, d.listenPort, d.firewallMark);
  }

  lemma {:induction false} EntriesHeard(payload: seq<byte>, ps: seq<Peer>)
    requires EntriesSay(payload, ps)
    ensures PeerListOk(Walk(payload)) && PeerList(Walk(payload)) == ps
  {
    hide PeerTold, PeerOk, PeerOf, Walk;
    var entries := Walk(payload);
    forall i | 0 <= i < |entries|
      ensures PeerOk(Walk(entries[i].payload)) && PeerOf(Walk(entries[i].payload)) == ps[i]
    {
      PeerHeard(Walk(entries[i].payload), ps[i]);
    }
  }

  lemma {:induction false} AllDeviceSayTail(attrs: seq<Attr>, d: Device)
    requires attrs != [] && AllDeviceSay(attrs, d)
    ensures DeviceSays(attrs[0], d) && AllDeviceSay(attrs[1..], d)
  {
    hide DeviceSays;
    assert forall i :: 0 <= i < |attrs| - 1 ==> attrs[1..][i] == attrs[i + 1];
  }

  lemma {:induction false} DeviceOkCons(attrs: seq<Attr>)
    requires attrs != [] && DeviceAttrOk(attrs[0]) && DeviceOk(attrs[1..])
    ensures DeviceOk(attrs)
  {
    hide DeviceAttrOk;
    assert forall i :: 1 <= i < |attrs| ==> attrs[i] == attrs[1..][i - 1];
  }

  lemma {:induction false} DeviceTakenKnown(attrs: seq<Attr>, e: Device, d: Device)
    requires attrs != [] && DeviceKnown(attrs, e, d)
    ensures DeviceKnown(attrs[1..], DeviceTaken(attrs[0].typ, e, d), d)
  {
    hide Has;
    HasStep(attrs, 2);
    HasStep(attrs, 3);
    HasStep(attrs, 4);
    HasStep(attrs, 6);
    HasStep(attrs, 7);
  }

  lemma {:induction false} PeersKnown(attrs: seq<Attr>, e: Device, d: Device, ps: seq<Peer>)
    requires attrs != [] && attrs[0].typ == WGDEVICE_A_PEERS && DeviceKnown(attrs, e, d)
    ensures DeviceKnown(attrs[1..], e.(peers := ps), d)
  {
  }

  lemma {:induction false} NoDeviceAttrs(e: Device, d: Device)
    ensures DeviceOk([]) && Entries([]) == [] && DeviceFold([], e) == e
    ensures DeviceKnown([], e, d) ==> e.(peers := []) == d.(peers := [])
  {
  }

  /** The rest of a message, heard on top of e: the device's own fields, and its entries. */
  lemma {:induction false} MessageHeard(attrs: seq<Attr>, e: Device, d: Device, ps: seq<Peer>)
    requires AllDeviceSay(attrs, d) && DeviceKnown(attrs, e, d) && EntriesTold(attrs, ps)
    ensures DeviceOk(attrs) && Entries(attrs) == ps
    ensures DeviceFold(attrs, e).(peers := []) == d.(peers := [])
    decreases |attrs|
  {
    hide DeviceAttrOk, DeviceSays, AllDeviceSay, DeviceKnown, DeviceTaken, EntriesSay, Walk, PeerList, PeerListOk, DeviceOk, MergeAll;
    if attrs == [] {
      NoDeviceAttrs(e, d);
    } else {
      var a := attrs[0];
      AllDeviceSayTail(attrs, d);
      if a.typ == WGDEVICE_A_PEERS {
        var n := |Walk(a.payload)|;
        PeersHeard(a, e, ps[..n]);
        PeersKnown(attrs, e, d, DeviceStep(a, e).peers);
        MessageHeard(attrs[1..], DeviceStep(a, e), d, ps[n..]);
        assert ps[..n] + ps[n..] == ps;
      } else {
        FieldHeard(a, e, d);
        DeviceTakenKnown(attrs, e, d);
        MessageHeard(attrs[1..], DeviceTaken(a.typ, e, d), d, ps);
      }
      DeviceOkCons(attrs);
    }
  }

  lemma {:induction false} PeersHeard(a: Attr, e: Device, ps: seq<Peer>)
    requires a.typ == WGDEVICE_A_PEERS && EntriesSay(a.payload, ps)
    ensures DeviceAttrOk(a) && PeerListOk(Walk(a.payload)) && PeerList(Walk(a.payload)) == ps
    ensures DeviceStep(a, e) == e.(peers := DeviceStep(a, e).peers)
  {
    hide EntriesSay, Walk, PeerListOk, PeerList, MergeAll;
    EntriesHeard(a.payload, ps);
  }

  // ----- whole dumps -----

  function Concat(chunks: seq<seq<Peer>>): seq<Peer> {
    if chunks == [] then [] else chunks[0] + Concat(chunks[1..])
  }

  /** Messages that dump `d`, each with its chunk of entries: the first says the device's own
      fields, and those it leaves out have the values `start` brings; the others carry entries. */
  predicate DumpTold(msgs: seq<seq<byte>>, chunks: seq<seq<Peer>>, start: Device, d: Device) {
    && |msgs| == |chunks| && msgs != []
    && AllDeviceSay(MessageAttrs(msgs[0]), d) && DeviceKnown(MessageAttrs(msgs[0]), start, d)
    && (forall i :: 0 <= i < |msgs| ==> EntriesTold(MessageAttrs(msgs[i]), chunks[i]))
    && (forall i :: 1 <= i < |msgs| ==> PeersOnly(MessageAttrs(msgs[i])))
  }

  lemma {:induction false} PeersOnlySays(attrs: seq<Attr>, d: Device)
    requires PeersOnly(attrs)
    ensures AllDeviceSay(attrs, d) && DeviceKnown(attrs, d, d)
  {
  }

  lemma {:induction false} ChunksHeard(msgs: seq<seq<byte>>, chunks: seq<seq<Peer>>)
    requires |msgs| == |chunks| && AllOk(msgs)
    requires forall i :: 0 <= i < |msgs| ==> Entries(MessageAttrs(msgs[i])) == chunks[i]
    ensures AllEntries(msgs) == Concat(chunks)
    decreases |msgs|
  {
    hide DeviceOk, Entries, MessageAttrs;
    if msgs != [] {
      assert forall i :: 0 <= i < |msgs| - 1 ==> msgs[1..][i] == msgs[i + 1] && chunks[1..][i] == chunks[i + 1];
      assert AllOk(msgs[1..]);
      ChunksHeard(msgs[1..], chunks[1..]);
    }
  }

  lemma {:induction false} DumpTaken(msgs: seq<seq<byte>>, chunks: seq<seq<Peer>>, start: Device, d: Device)
    requires DumpTold(msgs, chunks, start, d)
    ensures AllOk(msgs) && Parsed(msgs[0], start).(peers := []) == d.(peers := [])
    ensures AllEntries(msgs) == Concat(chunks)
  {
    hide DeviceOk, DeviceFold, Entries, MessageAttrs, AllDeviceSay, DeviceKnown, EntriesTold, PeersOnly, Concat, AllEntries;
    forall i | 0 <= i < |msgs|
      ensures MessageOk(msgs[i]) && Entries(MessageAttrs(msgs[i])) == chunks[i]
      ensures i == 0 ==> Parsed(msgs[i], start).(peers := []) == d.(peers := [])
    {
      if i > 0 {
        PeersOnlySays(MessageAttrs(msgs[i]), d);
      }
      MessageHeard(MessageAttrs(msgs[i]), if i == 0 then start else d, d, chunks[i]);
    }
    ChunksHeard(msgs, chunks);
  }

  /** Whatever says a device, cut over entries and messages in any way and in any order of
      attributes, is heard as that device. */
  lemma {:induction false} AnyDumpHeard(msgs: seq<seq<byte>>, chunks: seq<seq<Peer>>, d: Device, name: string)
    requires DumpTold(msgs, chunks, BlankDevice(name, false), d)
    requires NoNeighbours(d.peers) && IsCut(Concat(chunks), d.peers)
    ensures AllOk(msgs) && Assemble(msgs, BlankDevice(name, false)) == d
  {
    hide Parsed, MessageAttrs, MessageOk, AllDeviceSay, DeviceKnown, EntriesTold, PeersOnly, NoNeighbours, IsCut, Concat, Assemble, AllEntries;
    DumpTaken(msgs, chunks, BlankDevice(name, false), d);
    ReassemblyInvertsCut(msgs, d, name);
  }
}
