/** Writing netlink requests in place (src/netlink/NlAttr.cpp): a flat buffer, a length cursor
    kept in the header's first four bytes, nest lengths patched in afterwards. Every write below
    is bounds-checked by the verifier against the buffer the caller sized with the estimate. */
module NlBuild {
  import opened Core
  import opened WireGuard
  import opened Text
  import opened Inet
  import opened Address
  import opened Mnl
  import opened NlTree
  import opened Wire

  const MAX_LENGTH: nat := 0xFFFF_FFFF

  /** No single attribute the builders put is longer. */
  const MAX_PUT: nat := 64

  // ----- overwriting a stretch of bytes -----

  ghost function Splice(s: seq<byte>, pos: nat, data: seq<byte>): (r: seq<byte>)
    requires pos + |data| <= |s|
    ensures |r| == |s|
  {
    s[..pos] + data + s[pos + |data|..]
  }

  lemma {:induction false} SpliceNext(s: seq<byte>, pos: nat, a: seq<byte>, b: seq<byte>)
    requires pos + |a| + |b| <= |s|
    ensures Splice(Splice(s, pos, a), pos + |a|, b) == Splice(s, pos, a + b)
  {
  }

  lemma {:induction false} SpliceBefore(s: seq<byte>, pos: nat, a: seq<byte>, b: seq<byte>)
    requires pos + |a| + |b| <= |s|
    ensures Splice(Splice(s, pos + |a|, b), pos, a) == Splice(s, pos, a + b)
  {
  }

  /** The four writes of `mnl_attr_put` leave one attribute. */
  lemma {:induction false} PutSplices(s: seq<byte>, pos: nat, typ: u16, data: seq<byte>)
    requires pos + 4 + Align4(|data|) <= |s|
    ensures var s1 := Splice(s, pos + 2, U16(typ));
            var s2 := Splice(s1, pos, U16((4 + |data|) % 0x1_0000));
            var s3 := Splice(s2, pos + 4, data);
            Splice(s3, pos + 4 + |data|, Zeros(Pad(|data|))) == Splice(s, pos, Tlv(typ, data))
  {
    hide Splice, U16;
    var l, t := U16((4 + |data|) % 0x1_0000), U16(typ);
    SpliceBefore(s, pos, l, t);
    SpliceNext(s, pos, l + t, data);
    SpliceNext(s, pos, l + t + data, Zeros(Pad(|data|)));
  }

  /** Appending bytes at the cursor and then storing the new length in the header. */
  lemma {:induction false} AppendSplices(s: seq<byte>, len: nat, data: seq<byte>, length: seq<byte>)
    requires 20 <= len && len + |data| <= |s| && |length| == 4
    ensures var t := Splice(Splice(s, len, data), 0, length);
            && t[..4] == length && t[4..20] == s[4..20]
            && t[20..len + |data|] == s[20..len] + data
  {
    var u := Splice(s, len, data);
    var t := Splice(u, 0, length);
    assert t == length + u[4..];
    assert u[4..20] == s[4..20] && u[20..len + |data|] == s[20..len] + data;
    assert t[4..20] == u[4..20] && t[20..len + |data|] == u[20..len + |data|];
  }

  lemma {:induction false} SliceOfPrefix(t: seq<byte>, s: seq<byte>, n: nat, i: nat, j: nat)
    requires i <= j <= n <= |s| && n <= |t| && t[..n] == s[..n]
    ensures t[i..j] == s[i..j]
  {
    assert t[i..j] == t[..n][i..j] && s[i..j] == s[..n][i..j];
  }

  lemma {:induction false} SliceOfSlice(s: seq<byte>, a: nat, b: nat, i: nat)
    requires a <= b <= |s| && i <= b - a
    ensures s[a..b][..i] == s[a..a + i] && s[a..b][i..] == s[a + i..b]
  {
  }

  /** Patching bytes inside the attributes leaves everything around them alone. */
  lemma {:induction false} PatchSplices(s: seq<byte>, len: nat, pos: nat, data: seq<byte>)
    requires 20 <= pos && pos + |data| <= len <= |s|
    ensures var t := Splice(s, pos, data);
            && t[..4] == s[..4] && t[4..20] == s[4..20]
            && t[20..len] == s[20..pos] + data + s[pos + |data|..len]
  {
    var t := Splice(s, pos, data);
    assert t[..pos] == s[..pos] && t[pos + |data|..] == s[pos + |data|..];
    SliceOfPrefix(t, s, pos, 0, 4);
    SliceOfPrefix(t, s, pos, 4, 20);
    SliceOfPrefix(t, s, pos, 20, pos);
    assert t[pos..pos + |data|] == data;
    assert t[pos + |data|..][..len - pos - |data|] == t[pos + |data|..len];
    assert s[pos + |data|..][..len - pos - |data|] == s[pos + |data|..len];
    assert t[20..len] == t[20..pos] + t[pos..pos + |data|] + t[pos + |data|..len];
  }

  lemma {:induction false} PatchAttrs(s: seq<byte>, len: nat, at: nat, data: seq<byte>)
    requires |data| == 2 && 20 + at + 2 <= len <= |s|
    ensures var t := Splice(s, 20 + at, data);
            && t[..4] == s[..4] && t[4..20] == s[4..20]
            && t[20..len] == s[20..len][..at] + data + s[20..len][at + 2..]
  {
    hide Splice;
    PatchSplices(s, len, 20 + at, data);
    SliceOfSlice(s, 20, len, at);
    SliceOfSlice(s, 20, len, at + 2);
  }

  // ----- the message buffer -----

  /** The buffer a message is written into. `nlmsg_len` lies in its first four bytes and is the
      cursor of every write; `head` and `attrs` are what has been written behind it. Once more
      than 2^32 - 1 bytes are written `nlmsg_len` wraps and the buffer no longer holds them; the
      writes still land inside it, because a buffer with room for them is larger than any
      cursor can point. */
  class MsgBuffer {
    const buf: array<byte>
    ghost var head: seq<byte>
    ghost var attrs: seq<byte>

    ghost function Len(): nat
      reads this
    {
      20 + |attrs|
    }

    ghost predicate Valid()
      reads this, buf
    {
      && |head| == 16 && |attrs| % 4 == 0
      && if Len() <= MAX_LENGTH then
           Len() <= buf.Length && buf[..4] == U32(Len()) && buf[4..20] == head && buf[20..Len()] == attrs
         else buf.Length >= MAX_LENGTH + 1 + MAX_PUT
    }

    /** Room for n more bytes, with one more put to spare. */
    ghost predicate Room(n: nat)
      reads this
    {
      Len() + n + MAX_PUT <= buf.Length
    }

    /** `nlmsg_len`. */
    function Cursor(): u32
      reads buf
      requires buf.Length >= 4
    {
      GetU32(buf[..4])
    }

    lemma {:induction false} CursorAtEnd()
      requires Valid()
      ensures buf.Length >= 4
      ensures if Len() <= MAX_LENGTH then Cursor() == Len() else Cursor() + MAX_PUT <= buf.Length
    {
      hide U32, GetU32;
      if Len() <= MAX_LENGTH {
        U32RoundTrip(Len(), []);
        assert U32(Len()) + [] == buf[..4];
      }
    }

    /** `memcpy` into the buffer. */
    method WriteAt(pos: nat, data: seq<byte>)
      requires pos + |data| <= buf.Length
      modifies buf
      ensures buf[..] == Splice(old(buf[..]), pos, data)
    {
      forall k | 0 <= k < |data| {
        buf[pos + k] := data[k];
      }
    }

    /** `mnl_nlmsg_put_header` and `mnl_nlmsg_put_extra_header`, with the fields the callers set. */
    constructor (buffer: array<byte>, typ: u16, flags: u16, seqno: u32, cmd: byte)
      requires buffer.Length >= 20
      modifies buffer
      ensures Valid() && buf == buffer && head == Body(typ, flags, seqno, cmd) && attrs == []
    {
      buf := buffer;
      head := Body(typ, flags, seqno, cmd);
      attrs := [];
      new;
      WriteAt(0, U32(20) + Body(typ, flags, seqno, cmd));
      assert buf[..20] == U32(20) + head;
      assert buf[..4] == buf[..20][..4] && buf[4..20] == buf[..20][4..];
    }

    /** `mnl_attr_put`. */
    method Put(typ: u16, data: seq<byte>)
      requires Valid() && Room(4 + Align4(|data|)) && 4 + Align4(|data|) <= MAX_PUT
      modifies this, buf
      ensures Valid() && head == old(head) && attrs == old(attrs) + Tlv(typ, data)
    {
      hide Splice, Align4, U32, GetU32, U16, Tlv;
      ghost var s := buf[..];
      CursorAtEnd();
      var attr := Cursor();
      WriteAt(attr + 2, U16(typ));
      WriteAt(attr, U16((4 + |data|) % 0x1_0000));
      WriteAt(attr + 4, data);
      WriteAt(attr + 4 + |data|, Zeros(Pad(|data|)));
      PutSplices(s, attr, typ, data);
      SumAligned(4, Align4(|data|));
      Advance(4 + Align4(|data|), s, attr, Tlv(typ, data));
    }

    /** `nlmsg_len += n`, once `data` stands at the cursor. */
    method Advance(n: nat, ghost s: seq<byte>, ghost attr: nat, ghost data: seq<byte>)
      requires |head| == 16 && |attrs| % 4 == 0 && n % 4 == 0 && Room(n) && |data| == n && |s| == buf.Length
      requires Len() <= MAX_LENGTH ==>
        Len() == attr && s[..4] == U32(attr) && s[4..20] == head && s[20..attr] == attrs && buf[..] == Splice(s, attr, data)
      requires Len() > MAX_LENGTH ==> buf.Length >= MAX_LENGTH + 1 + MAX_PUT
      modifies this, buf
      ensures Valid() && head == old(head) && attrs == old(attrs) + data
    {
      hide Splice, U32, GetU32;
      ghost var len := Len();
      if len <= MAX_LENGTH {
        AppendSplices(s, attr, data, U32((attr + n) % 0x1_0000_0000));
        HeadKept(s, attr, data);
        U32RoundTrip(attr, []);
        assert U32(attr) + [] == buf[..4];
      }
      SumAligned(|attrs|, n);
      var longer := (Cursor() + n) % 0x1_0000_0000;
      WriteAt(0, U32(longer));
      attrs := attrs + data;
      ghost var t := buf[..];
      if Len() <= MAX_LENGTH {
        assert buf[..4] == t[..4] && buf[4..20] == t[4..20] && buf[20..Len()] == t[20..Len()];
      }
    }

    /** `mnl_attr_nest_start`: the type is written, the length is left as it is. `at` is where the
        nest stands among the attributes. */
    method NestStart(typ: u16) returns (start: u32, ghost at: nat)
      requires Valid() && Room(4)
      modifies this, buf
      ensures Valid() && head == old(head)
      ensures at == old(|attrs|) && |attrs| == at + 4 && (Len() <= MAX_LENGTH ==> start == 20 + at)
      ensures attrs[..at] == old(attrs) && attrs[at + 2..] == U16(NestType(typ))
    {
      hide Splice, U32, GetU32, U16;
      ghost var s := buf[..];
      CursorAtEnd();
      start := Cursor();
      at := |attrs|;
      WriteAt(start + 2, U16(NestType(typ)));
      ghost var junk := s[start..start + 2];
      NestSplice(s, start, U16(NestType(typ)));
      Advance(4, s, start, junk + U16(NestType(typ)));
    }

    /** `mnl_attr_nest_end`: the distance to the tail goes into the reserved length, modulo 2^16. */
    method NestEnd(start: u32, ghost at: nat)
      requires Valid() && at + 4 <= |attrs| && (Len() <= MAX_LENGTH ==> start == 20 + at)
      modifies this, buf
      ensures Valid() && head == old(head)
      ensures attrs == old(attrs)[..at] + U16((|old(attrs)| - at) % 0x1_0000) + old(attrs)[at + 2..]
    {
      hide Splice, U32, GetU32, U16;
      ghost var s, len := buf[..], Len();
      CursorAtEnd();
      var patch := U16((Cursor() - start) % 0x1_0000);
      if len <= MAX_LENGTH {
        assert s[20..len] == buf[20..len] && s[..4] == buf[..4] && s[4..20] == buf[4..20];
        PatchAttrs(s, len, at, patch);
      }
      WriteAt(start, patch);
      ghost var t := buf[..];
      attrs := attrs[..at] + U16((|attrs| - at) % 0x1_0000) + attrs[at + 2..];
      if len <= MAX_LENGTH {
        assert buf[..4] == t[..4] && buf[4..20] == t[4..20] && buf[20..len] == t[20..len];
      }
    }
  }

  lemma {:induction false} HeadKept(s: seq<byte>, pos: nat, data: seq<byte>)
    requires 20 <= pos && pos + |data| <= |s|
    ensures Splice(s, pos, data)[..4] == s[..4]
  {
  }

  lemma {:induction false} NestSplice(s: seq<byte>, start: nat, t: seq<byte>)
    requires start + 4 <= |s| && |t| == 2
    ensures Splice(s, start + 2, t) == Splice(s, start, s[start..start + 2] + t)
  {
  }

  /** A nest opened at `start`, filled with encoded children and closed, is an encoded nest. */
  lemma {:induction false} NestCloses(before: seq<byte>, begun: seq<byte>, filled: seq<byte>, closed: seq<byte>, typ: u16, children: seq<Node>)
    requires |begun| == |before| + 4
    requires begun[..|before|] == before && begun[|before| + 2..] == U16(NestType(typ))
    requires filled == begun + EncodeAll(children)
    requires closed == filled[..|before|] + U16((|filled| - |before|) % 0x1_0000) + filled[|before| + 2..]
    ensures closed == before + Encode(Nest(typ, children))
  {
    hide U16, EncodeAll;
    var body := EncodeAll(children);
    assert filled[..|before|] == before;
    assert filled[|before| + 2..] == U16(NestType(typ)) + body;
    assert Pad(|body|) == 0;
    assert Encode(Nest(typ, children)) == U16((4 + |body|) % 0x1_0000) + U16(NestType(typ)) + body;
  }

  // ----- allowed ips -----

  method PutAllowedIP(m: MsgBuffer, i: nat, aip: AllowedIP)
    requires m.Valid() && m.Room(40)
    modifies m, m.buf
    ensures m.Valid() && m.Len() <= old(m.Len()) + 40 && m.head == old(m.head)
    ensures m.attrs == old(m.attrs) + Encode(IpNode(i, aip))
  {
    hide m.Valid, EncodeAll, Encode, Tlv, U16, IpBytes;
    ghost var before := m.attrs;
    var entry, at := m.NestStart(i % 0x1_0000);
    ghost var begun := m.attrs;
    m.Put(WGALLOWEDIP_A_FAMILY, U16(aip.family));
    var addr := IpBytes(aip);
    m.Put(WGALLOWEDIP_A_IPADDR, addr);
    m.Put(WGALLOWEDIP_A_CIDR_MASK, [aip.cidr]);
    ghost var filled := m.attrs;
    IpChildren(begun, filled, aip);
    m.NestEnd(entry, at);
    NestCloses(before, begun, filled, m.attrs, i % 0x1_0000, IpNode(i, aip).children);
  }

  lemma {:induction false} IpChildren(begun: seq<byte>, filled: seq<byte>, aip: AllowedIP)
    requires filled == begun + Tlv(WGALLOWEDIP_A_FAMILY, U16(aip.family)) + Tlv(WGALLOWEDIP_A_IPADDR, IpBytes(aip))
                       + Tlv(WGALLOWEDIP_A_CIDR_MASK, [aip.cidr])
    ensures filled == begun + EncodeAll(IpNode(0, aip).children)
  {
    hide Tlv, IpBytes, U16, EncodeAll;
    var a, b, c := Leaf(WGALLOWEDIP_A_FAMILY, U16(aip.family)), Leaf(WGALLOWEDIP_A_IPADDR, IpBytes(aip)), Leaf(WGALLOWEDIP_A_CIDR_MASK, [aip.cidr]);
    ThreeNodes(a, b, c);
    assert begun + Encode(a) + Encode(b) + Encode(c) == begun + (Encode(a) + Encode(b) + Encode(c));
  }

  lemma {:induction false} NextNode(begun: seq<byte>, ns: seq<Node>, i: nat)
    requires i < |ns|
    ensures begun + EncodeAll(ns[..i]) + Encode(ns[i]) == begun + EncodeAll(ns[..i + 1])
  {
    hide Encode;
    assert ns[..i + 1] == ns[..i] + [ns[i]];
    EncodeAllAppend(ns[..i], [ns[i]]);
    EncodeOne(ns[i]);
  }

  lemma {:induction false} NodesEnds(begun: seq<byte>, ns: seq<Node>)
    ensures begun + EncodeAll(ns[..0]) == begun
    ensures ns[..|ns|] == ns
  {
  }

  method PutAllowedIPs(m: MsgBuffer, ips: seq<AllowedIP>)
    requires m.Valid() && m.Room(4 + 40 * |ips|)
    modifies m, m.buf
    ensures m.Valid() && m.Len() <= old(m.Len()) + 4 + 40 * |ips| && m.head == old(m.head)
    ensures m.attrs == old(m.attrs) + Encode(Nest(WGPEER_A_ALLOWEDIPS, IpNodes(ips)))
  {
    hide m.Valid, EncodeAll, Encode, U16;
    ghost var before := m.attrs;
    var ipsNest, at := m.NestStart(WGPEER_A_ALLOWEDIPS);
    ghost var begun := m.attrs;
    ghost var ns := IpNodes(ips);
    NodesEnds(begun, ns);
    var i := 0;
    while i < |ips|
      invariant 0 <= i <= |ips|
      invariant m.Valid() && m.Len() <= 24 + at + 40 * i && at + 4 <= |m.attrs| && m.head == old(m.head)
      invariant m.attrs == begun + EncodeAll(ns[..i])
    {
      NextNode(begun, ns, i);
      PutAllowedIP(m, i, ips[i]);
      i := i + 1;
    }
    ghost var filled := m.attrs;
    m.NestEnd(ipsNest, at);
    NestCloses(before, begun, filled, m.attrs, WGPEER_A_ALLOWEDIPS, ns);
  }

  // ----- peers -----

  /** A put inside `if (field)`, of at most `budget` payload bytes. */
  method PutOpt(m: MsgBuffer, typ: u16, payload: Option<seq<byte>>, ghost budget: nat)
    requires m.Valid() && (payload.Some? ==> |payload.value| <= budget && m.Room(4 + budget)) && budget % 4 == 0 && 4 + budget <= MAX_PUT
    modifies m, m.buf
    ensures m.Valid() && m.head == old(m.head)
    ensures old(m.Len()) <= m.Len() <= old(m.Len()) + 4 + budget
    ensures m.attrs == old(m.attrs) + EncodeAll(OptLeaf(typ, payload))
  {
    hide m.Valid, Tlv;
    if payload.Some? {
      EncodeOne(Leaf(typ, payload.value));
      m.Put(typ, payload.value);
    }
  }

  lemma {:induction false} Appended(before: seq<byte>, a: seq<Node>, b: seq<Node>)
    ensures before + EncodeAll(a) + EncodeAll(b) == before + EncodeAll(a + b)
  {
    hide EncodeAll;
    EncodeAllAppend(a, b);
  }

  lemma {:induction false} LeafBytes(typ: u16, data: seq<byte>)
    ensures EncodeAll([Leaf(typ, data)]) == Tlv(typ, data)
  {
    EncodeOne(Leaf(typ, data));
  }

  /** The scalar attributes of a peer, up to the endpoint that may throw. */
  method PutPeerScalars(m: MsgBuffer, peer: PeerConfig) returns (ok: bool)
    requires m.Valid() && m.Room(120)
    modifies m, m.buf
    ensures m.Valid() && old(m.Len()) <= m.Len() <= old(m.Len()) + 120 && m.head == old(m.head)
    ensures ok <==> EndpointOk(peer)
    ensures ok ==> m.attrs == old(m.attrs) + EncodeAll(PeerScalars(peer))
  {
    hide m.Valid, EncodeAll, Encode, Tlv, OptLeaf, ParseEndpoint, FlagsPayload, EndpointPayload, KeyPayload, U16Payload, U16, U32;
    ghost var before := m.attrs;
    ghost var a := [Leaf(WGPEER_A_PUBLIC_KEY, peer.publicKey)];
    ghost var b := a + OptLeaf(WGPEER_A_FLAGS, FlagsPayload(peer));
    ghost var c := b + OptLeaf(WGPEER_A_PRESHARED_KEY, KeyPayload(peer.presharedKey));
    ghost var d := c + OptLeaf(WGPEER_A_ENDPOINT, EndpointPayload(peer));
    ghost var e := d + OptLeaf(WGPEER_A_PERSISTENT_KEEPALIVE_INTERVAL, U16Payload(peer.persistentKeepaliveInterval));
    LeafBytes(WGPEER_A_PUBLIC_KEY, peer.publicKey);
    m.Put(WGPEER_A_PUBLIC_KEY, peer.publicKey);
    assert m.attrs == before + EncodeAll(a);
    Appended(before, a, OptLeaf(WGPEER_A_FLAGS, FlagsPayload(peer)));
    PutOpt(m, WGPEER_A_FLAGS, FlagsPayload(peer), 4);
    Appended(before, b, OptLeaf(WGPEER_A_PRESHARED_KEY, KeyPayload(peer.presharedKey)));
    PutOpt(m, WGPEER_A_PRESHARED_KEY, KeyPayload(peer.presharedKey), 32);
    ok := EndpointOk(peer);
    if !ok {
      return;
    }
    Appended(before, c, OptLeaf(WGPEER_A_ENDPOINT, EndpointPayload(peer)));
    PutOpt(m, WGPEER_A_ENDPOINT, EndpointPayload(peer), 28);
    Appended(before, d, OptLeaf(WGPEER_A_PERSISTENT_KEEPALIVE_INTERVAL, U16Payload(peer.persistentKeepaliveInterval)));
    PutOpt(m, WGPEER_A_PERSISTENT_KEEPALIVE_INTERVAL, U16Payload(peer.persistentKeepaliveInterval), 4);
  }

  method PutPeer(m: MsgBuffer, i: nat, peer: PeerConfig) returns (ok: bool)
    requires m.Valid() && m.Room(128 + 64 * |peer.allowedIPs|)
    modifies m, m.buf
    ensures m.Valid() && m.Len() <= old(m.Len()) + 128 + 64 * |peer.allowedIPs| && m.head == old(m.head)
    ensures old(m.Len()) <= m.Len()
    ensures ok <==> EndpointOk(peer)
    ensures ok ==> m.attrs == old(m.attrs) + Encode(PeerNode(i, peer))
  {
    hide m.Valid, EncodeAll, Encode, PeerScalars, U16, EndpointOk;
    ghost var before := m.attrs;
    var entry, at := m.NestStart(i % 0x1_0000);
    ghost var begun := m.attrs;
    ok := PutPeerScalars(m, peer);
    if !ok {
      return;
    }
    if peer.allowedIPs != [] {
      EncodeOne(Nest(WGPEER_A_ALLOWEDIPS, IpNodes(peer.allowedIPs)));
      PutAllowedIPs(m, peer.allowedIPs);
    } else {
      EmptySize();
    }
    ghost var filled := m.attrs;
    assert filled == begun + EncodeAll(PeerScalars(peer)) + EncodeAll(IpsNode(peer.allowedIPs));
    Appended(begun, PeerScalars(peer), IpsNode(peer.allowedIPs));
    m.NestEnd(entry, at);
    NestCloses(before, begun, filled, m.attrs, i % 0x1_0000, PeerAttrs(peer));
  }

  lemma {:induction false} PeersStep(peers: seq<PeerConfig>, i: nat)
    requires i < |peers|
    ensures EstimatePeers(peers[..i + 1]) == EstimatePeers(peers[..i]) + 128 + 64 * |peers[i].allowedIPs|
    ensures EstimatePeers(peers[..i + 1]) <= EstimatePeers(peers)
    ensures EndpointsOk(peers[i..]) == (EndpointOk(peers[i]) && EndpointsOk(peers[i + 1..]))
  {
    hide EndpointOk;
    assert peers[..i + 1][..i] == peers[..i];
    EstimateGrows(peers, i + 1);
    assert peers[i..][1..] == peers[i + 1..];
  }

  method PutPeers(m: MsgBuffer, peers: seq<PeerConfig>) returns (ok: bool)
    requires m.Valid() && m.Room(4 + EstimatePeers(peers))
    modifies m, m.buf
    ensures m.Valid() && m.head == old(m.head)
    ensures ok <==> EndpointsOk(peers)
    ensures ok ==> m.attrs == old(m.attrs) + Encode(Nest(WGDEVICE_A_PEERS, PeerNodes(peers)))
  {
    hide m.Valid, EncodeAll, Encode, U16, EndpointOk, EndpointsOk, EstimatePeers;
    ghost var before := m.attrs;
    var peersNest, at := m.NestStart(WGDEVICE_A_PEERS);
    ghost var begun := m.attrs;
    ghost var ns := PeerNodes(peers);
    NodesEnds(begun, ns);
    NoPeers(peers);
    var i := 0;
    while i < |peers|
      invariant 0 <= i <= |peers|
      invariant m.Valid() && m.head == old(m.head)
      invariant 24 + at <= m.Len() <= 24 + at + EstimatePeers(peers[..i])
      invariant EndpointsOk(peers) == EndpointsOk(peers[i..])
      invariant m.attrs == begun + EncodeAll(ns[..i])
    {
      PeersStep(peers, i);
      NextNode(begun, ns, i);
      ok := PutPeer(m, i, peers[i]);
      if !ok {
        return;
      }
      i := i + 1;
    }
    ok := true;
    ghost var filled := m.attrs;
    m.NestEnd(peersNest, at);
    NestCloses(before, begun, filled, m.attrs, WGDEVICE_A_PEERS, ns);
  }

  lemma {:induction false} NoPeers(peers: seq<PeerConfig>)
    ensures EstimatePeers(peers[..0]) == 0
    ensures peers[0..] == peers && EndpointsOk(peers[|peers|..])
  {
  }

  // ----- whole messages -----

  method PutDeviceScalars(m: MsgBuffer, ifname: string, cfg: Config)
    requires IsByteText(ifname) && |ifname| < IFNAMSIZ
    requires m.Valid() && m.Room(80)
    modifies m, m.buf
    ensures m.Valid() && m.Len() <= old(m.Len()) + 80 && m.head == old(m.head)
    ensures m.attrs == old(m.attrs) + EncodeAll(DeviceScalars(ifname, cfg))
  {
    hide m.Valid, EncodeAll, Encode, Tlv, TextBytes, OptLeaf, DeviceFlagsPayload, KeyPayload, U16Payload, U32Payload;
    ghost var before := m.attrs;
    ghost var f := DeviceFlagsPayload(cfg);
    ghost var a := [Leaf(WGDEVICE_A_IFNAME, TextBytes(ifname) + [0])];
    ghost var b := a + OptLeaf(WGDEVICE_A_FLAGS, f);
    ghost var c := b + OptLeaf(WGDEVICE_A_PRIVATE_KEY, KeyPayload(cfg.privateKey));
    ghost var d := c + OptLeaf(WGDEVICE_A_LISTEN_PORT, U16Payload(cfg.listenPort));
    LeafBytes(WGDEVICE_A_IFNAME, TextBytes(ifname) + [0]);
    m.Put(WGDEVICE_A_IFNAME, TextBytes(ifname) + [0]);
    assert m.attrs == before + EncodeAll(a);
    Appended(before, a, OptLeaf(WGDEVICE_A_FLAGS, f));
    PutOpt(m, WGDEVICE_A_FLAGS, DeviceFlagsPayload(cfg), 4);
    Appended(before, b, OptLeaf(WGDEVICE_A_PRIVATE_KEY, KeyPayload(cfg.privateKey)));
    PutOpt(m, WGDEVICE_A_PRIVATE_KEY, KeyPayload(cfg.privateKey), 32);
    Appended(before, c, OptLeaf(WGDEVICE_A_LISTEN_PORT, U16Payload(cfg.listenPort)));
    PutOpt(m, WGDEVICE_A_LISTEN_PORT, U16Payload(cfg.listenPort), 4);
    Appended(before, d, OptLeaf(WGDEVICE_A_FWMARK, U32Payload(cfg.firewallMark)));
    PutOpt(m, WGDEVICE_A_FWMARK, U32Payload(cfg.firewallMark), 4);
  }

  /** The message is at most 2^32 - 1 bytes long. */
  predicate FitsLength(ifname: string, cfg: Config)
    requires IsByteText(ifname)
  {
    20 + |EncodeAll(DeviceTree(ifname, cfg))| <= MAX_LENGTH
  }

  /** The SET_DEVICE message as bytes. */
  function SetMessage(familyId: u16, seqno: u32, ifname: string, cfg: Config): seq<byte>
    requires IsByteText(ifname) && FitsLength(ifname, cfg)
  {
    var attrs := EncodeAll(DeviceTree(ifname, cfg));
    Headers(20 + |attrs|, familyId, NLM_F_REQUEST + NLM_F_ACK, seqno, WG_CMD_SET_DEVICE) + attrs
  }

  /** The dump request for one interface. */
  function GetMessage(familyId: u16, seqno: u32, ifname: string): seq<byte>
    requires IsByteText(ifname) && |ifname| < IFNAMSIZ
  {
    var attrs := Tlv(WGDEVICE_A_IFNAME, TextBytes(ifname) + [0]);
    Headers(20 + |attrs|, familyId, NLM_F_REQUEST + NLM_F_ACK + NLM_F_DUMP, seqno, WG_CMD_GET_DEVICE) + attrs
  }

  /** What a request says in its headers: the family, request and acknowledge flags (with the two
      dump flags on a GET), the number it is answered by, port 0, the command and version 1. */
  lemma {:induction false} SetOnWire(familyId: u16, seqno: u32, ifname: string, cfg: Config)
    requires IsByteText(ifname) && FitsLength(ifname, cfg)
    ensures RequestOnWire(SetMessage(familyId, seqno, ifname, cfg), familyId, 5, seqno, 1)
  {
    hide Headers, RequestOnWire, EncodeAll;
    HeadersOnWire(familyId, NLM_F_REQUEST + NLM_F_ACK, seqno, WG_CMD_SET_DEVICE, EncodeAll(DeviceTree(ifname, cfg)));
  }

  lemma {:induction false} GetOnWire(familyId: u16, seqno: u32, ifname: string)
    requires IsByteText(ifname) && |ifname| < IFNAMSIZ
    ensures RequestOnWire(GetMessage(familyId, seqno, ifname), familyId, 0x305, seqno, 0)
  {
    hide Headers, RequestOnWire, Tlv;
    HeadersOnWire(familyId, NLM_F_REQUEST + NLM_F_ACK + NLM_F_DUMP, seqno, WG_CMD_GET_DEVICE,
      Tlv(WGDEVICE_A_IFNAME, TextBytes(ifname) + [0]));
  }

  lemma {:induction false} WholeMessage(m: MsgBuffer, typ: u16, flags: u16, seqno: u32, cmd: byte)
    requires m.Valid() && m.head == Body(typ, flags, seqno, cmd)
    ensures m.buf.Length >= 4 && m.Cursor() <= m.buf.Length
    ensures m.Len() <= MAX_LENGTH ==> m.buf[..m.Cursor()] == Headers(m.Len(), typ, flags, seqno, cmd) + m.attrs
  {
    hide U32, GetU32;
    m.CursorAtEnd();
    if m.Len() <= MAX_LENGTH {
      var b := m.buf[..m.Len()];
      assert b == b[..4] + b[4..20] + b[20..];
      assert b[..4] == m.buf[..4] && b[4..20] == m.buf[4..20] && b[20..] == m.buf[20..m.Len()];
    }
  }

  /** `BuildSetDeviceMessage`: it throws for a bad name or endpoint; otherwise, in any buffer at
      least as large as the estimate, every write lands inside, and what is written is exactly the
      encoded tree if its length fits the 32 bits of `nlmsg_len`. */
  method BuildSetDeviceMessage(buf: array<byte>, familyId: u16, seqno: u32, ifname: string, cfg: Config) returns (r: Result<MsgBuffer>)
    requires IsByteText(ifname) && Estimate(cfg) <= buf.Length
    modifies buf
    ensures r.Ok? <==> IsIfName(ifname) && EndpointsOk(cfg.peers)
    ensures r.Err? ==> r.error == InvalidArgument
    ensures r.Ok? ==> r.value.buf == buf && buf.Length >= 4 && r.value.Cursor() <= buf.Length
    ensures r.Ok? && FitsLength(ifname, cfg) ==>
      && buf[..r.value.Cursor()] == SetMessage(familyId, seqno, ifname, cfg)
      && RequestOnWire(buf[..r.value.Cursor()], familyId, 5, seqno, 1)
  {
    hide MsgBuffer.Valid, EncodeAll, Encode, U16, U32, GetU32, DeviceScalars, PeerNodes, EndpointsOk, EstimatePeers, RequestOnWire;
    if !IsIfName(ifname) {
      return Err(InvalidArgument);
    }
    var m := new MsgBuffer(buf, familyId, NLM_F_REQUEST + NLM_F_ACK, seqno, WG_CMD_SET_DEVICE);
    PutDeviceScalars(m, ifname, cfg);
    var ok := true;
    if cfg.peers != [] {
      EncodeOne(Nest(WGDEVICE_A_PEERS, PeerNodes(cfg.peers)));
      ok := PutPeers(m, cfg.peers);
    } else {
      NoPeers(cfg.peers);
      EmptySize();
    }
    if !ok {
      return Err(InvalidArgument);
    }
    assert m.attrs == [] + EncodeAll(DeviceScalars(ifname, cfg)) + EncodeAll(PeersNode(cfg.peers));
    Appended([], DeviceScalars(ifname, cfg), PeersNode(cfg.peers));
    assert m.attrs == EncodeAll(DeviceTree(ifname, cfg));
    WholeMessage(m, familyId, NLM_F_REQUEST + NLM_F_ACK, seqno, WG_CMD_SET_DEVICE);
    if FitsLength(ifname, cfg) {
      SetOnWire(familyId, seqno, ifname, cfg);
    }
    r := Ok(m);
  }

  /** `BuildGetDeviceMessage`. */
  method BuildGetDeviceMessage(buf: array<byte>, familyId: u16, seqno: u32, ifname: string) returns (r: Result<MsgBuffer>)
    requires IsByteText(ifname) && buf.Length >= 40 + MAX_PUT
    modifies buf
    ensures r.Ok? <==> IsIfName(ifname)
    ensures r.Err? ==> r.error == InvalidArgument
    ensures r.Ok? ==> r.value.buf == buf && r.value.Cursor() <= buf.Length
    ensures r.Ok? ==>
      && buf[..r.value.Cursor()] == GetMessage(familyId, seqno, ifname)
      && RequestOnWire(buf[..r.value.Cursor()], familyId, 0x305, seqno, 0)
  {
    hide MsgBuffer.Valid, Tlv, U16, U32, GetU32, RequestOnWire;
    if !IsIfName(ifname) {
      return Err(InvalidArgument);
    }
    var m := new MsgBuffer(buf, familyId, NLM_F_REQUEST + NLM_F_ACK + NLM_F_DUMP, seqno, WG_CMD_GET_DEVICE);
    m.Put(WGDEVICE_A_IFNAME, TextBytes(ifname) + [0]);
    WholeMessage(m, familyId, NLM_F_REQUEST + NLM_F_ACK + NLM_F_DUMP, seqno, WG_CMD_GET_DEVICE);
    assert [] + Tlv(WGDEVICE_A_IFNAME, TextBytes(ifname) + [0]) == m.attrs;
    GetOnWire(familyId, seqno, ifname);
    r := Ok(m);
  }

  /** The kernel branch of `ApplyConfig`: the buffer is the larger of the socket buffer and the
      estimate, whatever the socket buffer size is, so every write of the build lands inside it. */
  method SetRequestBytes(socketBufferSize: nat, familyId: u16, seqno: u32, ifname: string, cfg: Config) returns (r: Result<seq<byte>>)
    requires IsByteText(ifname)
    ensures r.Ok? <==> IsIfName(ifname) && EndpointsOk(cfg.peers)
    ensures r.Err? ==> r.error == InvalidArgument
    ensures r.Ok? && FitsLength(ifname, cfg) ==>
      r.value == SetMessage(familyId, seqno, ifname, cfg) && RequestOnWire(r.value, familyId, 5, seqno, 1)
  {
    hide MsgBuffer.Valid, EncodeAll, EndpointsOk, SetMessage, Estimate, GetU32, RequestOnWire;
    var estimate := EstimateSetDeviceMessageSize(cfg);
    var bufSize := if socketBufferSize >= estimate then socketBufferSize else estimate;
    var buf := new byte[bufSize](_ => 0);
    var m := BuildSetDeviceMessage(buf, familyId, seqno, ifname, cfg);
    r := if m.Ok? then Ok(buf[..m.value.Cursor()]) else Err(m.error);
  }
}
