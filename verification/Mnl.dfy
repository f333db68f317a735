/** The netlink wire format as libmnl reads and writes it: nested, 4-byte-aligned
    type-length-value attributes. */
module Mnl {
  import opened Core

  const NLA_F_NESTED: nat := 0x8000

  function Align4(n: nat): (a: nat)
    ensures n <= a < n + 4 && a % 4 == 0
    ensures n % 4 == 0 ==> a == n
  {
    (n + 3) / 4 * 4
  }

  function Pad(n: nat): (p: nat)
    ensures p < 4
  {
    Align4(n) - n
  }

  // ----- attribute trees -----

  datatype Node = Leaf(typ: u16, payload: seq<byte>) | Nest(typ: u16, children: seq<Node>)

  /** `NLA_F_NESTED | typ`. */
  function NestType(typ: u16): u16 {
    if typ >= NLA_F_NESTED then typ else typ + NLA_F_NESTED
  }

  lemma {:induction false} SumAligned(m: nat, n: nat)
    requires m % 4 == 0 && n % 4 == 0
    ensures (m + n) % 4 == 0
  {
  }

  /** One attribute: 16-bit length without padding (it wraps), type, payload, padding. */
  function Tlv(typ: u16, payload: seq<byte>): (b: seq<byte>)
    ensures |b| == 4 + Align4(|payload|) && |b| % 4 == 0
  {
    SumAligned(4, Align4(|payload|));
    U16((4 + |payload|) % 0x1_0000) + U16(typ) + payload + Zeros(Pad(|payload|))
  }

  function Encode(n: Node): (b: seq<byte>)
    ensures |b| >= 4 && |b| % 4 == 0
    decreases n
  {
    match n
    case Leaf(typ, payload) => Tlv(typ, payload)
    case Nest(typ, children) => Tlv(NestType(typ), EncodeAll(children))
  }

  function EncodeAll(ns: seq<Node>): (b: seq<byte>)
    ensures |b| % 4 == 0
    decreases ns
  {
    if ns == [] then []
    else
      var first, rest := Encode(ns[0]), EncodeAll(ns[1..]);
      SumAligned(|first|, |rest|);
      first + rest
  }

  /** No attribute's length wraps. */
  predicate Fits(n: Node)
    decreases n
  {
    match n
    case Leaf(_, payload) => 4 + |payload| < 0x1_0000
    case Nest(_, children) => 4 + |EncodeAll(children)| < 0x1_0000 && AllFit(children)
  }

  predicate AllFit(ns: seq<Node>)
    decreases ns
  {
    ns == [] || (Fits(ns[0]) && AllFit(ns[1..]))
  }

  // ----- walking attributes -----

  /** An attribute as a callback sees it: `mnl_attr_get_type` and the payload. */
  datatype Attr = Attr(typ: nat, payload: seq<byte>)

  /** `mnl_attr_ok` on what remains. */
  predicate AttrOk(b: seq<byte>) {
    |b| >= 4 && 4 <= GetU16(b) <= |b|
  }

  function FirstAttr(b: seq<byte>): Attr
    requires AttrOk(b)
  {
    Attr(GetU16(b[2..]) % 0x4000, b[4..GetU16(b)])
  }

  /** What remains after `mnl_attr_next`. */
  function NextAttr(b: seq<byte>): (rest: seq<byte>)
    requires AttrOk(b)
    ensures |rest| < |b|
  {
    var step := Align4(GetU16(b));
    if step <= |b| then b[step..] else []
  }

  /** The attributes `mnl_attr_for_each` visits in b. */
  function Walk(b: seq<byte>): seq<Attr>
    decreases |b|
  {
    if AttrOk(b) then [FirstAttr(b)] + Walk(NextAttr(b)) else []
  }

  /** The walk stops exactly at the end: the lengths tile the bytes without gap or overlap. */
  predicate Tiles(b: seq<byte>)
    decreases |b|
  {
    b == [] || (AttrOk(b) && Align4(GetU16(b)) <= |b| && Tiles(NextAttr(b)))
  }

  /** The attribute a node is read back as. */
  function Seen(n: Node): Attr {
    match n
    case Leaf(typ, payload) => Attr(typ % 0x4000, payload)
    case Nest(typ, children) => Attr(typ % 0x4000, EncodeAll(children))
  }

  function SeenAll(ns: seq<Node>): (s: seq<Attr>)
    ensures |s| == |ns|
    ensures forall i :: 0 <= i < |ns| ==> s[i] == Seen(ns[i])
  {
    seq(|ns|, i requires 0 <= i < |ns| => Seen(ns[i]))
  }

  lemma {:induction false} TlvHead(typ: u16, payload: seq<byte>, rest: seq<byte>)
    requires 4 + |payload| < 0x1_0000
    ensures var b := Tlv(typ, payload) + rest;
            |b| >= 4 && GetU16(b) == 4 + |payload| && GetU16(b[2..]) == typ
  {
    hide U16, GetU16, Align4;
    var n := 4 + |payload|;
    var tail := payload + Zeros(Pad(|payload|)) + rest;
    assert Tlv(typ, payload) + rest == U16(n) + (U16(typ) + tail);
    assert (Tlv(typ, payload) + rest)[2..] == U16(typ) + tail;
    U16RoundTrip(n, U16(typ) + tail);
    U16RoundTrip(typ, tail);
  }

  lemma {:induction false} TlvBody(typ: u16, payload: seq<byte>, rest: seq<byte>)
    ensures var b := Tlv(typ, payload) + rest;
            b[4..4 + |payload|] == payload && b[4 + Align4(|payload|)..] == rest
  {
  }

  lemma {:induction false} AlignHeader(n: nat)
    ensures Align4(4 + n) == 4 + Align4(n)
  {
  }

  lemma {:induction false} TlvFirst(typ: u16, payload: seq<byte>, rest: seq<byte>)
    requires 4 + |payload| < 0x1_0000
    ensures var b := Tlv(typ, payload) + rest;
            && AttrOk(b) && GetU16(b) == 4 + |payload|
            && FirstAttr(b) == Attr(typ % 0x4000, payload)
            && NextAttr(b) == rest && Align4(GetU16(b)) <= |b|
  {
    hide Align4, GetU16, Tlv;
    TlvHead(typ, payload, rest);
    TlvBody(typ, payload, rest);
    AlignHeader(|payload|);
  }

  /** An attribute reads back with its whole payload exactly when its 16-bit length does not wrap;
      a wrapped one is refused or loses the end of its payload. */
  lemma {:induction false} ReadsBackIffFits(typ: u16, payload: seq<byte>, rest: seq<byte>)
    ensures var b := Tlv(typ, payload) + rest;
            AttrOk(b) && FirstAttr(b).payload == payload <==> 4 + |payload| < 0x1_0000
  {
    hide Align4, Tlv;
    if 4 + |payload| < 0x1_0000 {
      TlvFirst(typ, payload, rest);
    }
  }

  lemma {:induction false} NestTypeMasked(typ: u16)
    ensures NestType(typ) % 0x4000 == typ % 0x4000
  {
  }

  lemma {:induction false} EncodeFirst(n: Node, rest: seq<byte>)
    requires Fits(n)
    ensures var b := Encode(n) + rest;
            AttrOk(b) && FirstAttr(b) == Seen(n) && NextAttr(b) == rest && Align4(GetU16(b)) <= |b|
  {
    hide FirstAttr, NextAttr, AttrOk, Tlv;
    match n
    case Leaf(typ, payload) =>
      TlvFirst(typ, payload, rest);
    case Nest(typ, children) =>
      TlvFirst(NestType(typ), EncodeAll(children), rest);
      NestTypeMasked(typ);
  }

  /** Reading back what was written: the walk over an encoded list sees each node once, in
      order, with its payload (for a nest, its encoded children). */
  lemma {:induction false} WalkEncoded(ns: seq<Node>)
    requires AllFit(ns)
    ensures Walk(EncodeAll(ns)) == SeenAll(ns)
    ensures Tiles(EncodeAll(ns))
    decreases |ns|
  {
    hide Fits, Encode, FirstAttr, NextAttr, Seen;
    if ns == [] {
      assert !AttrOk([]);
    } else {
      var rest := EncodeAll(ns[1..]);
      EncodeFirst(ns[0], rest);
      WalkEncoded(ns[1..]);
      assert EncodeAll(ns) == Encode(ns[0]) + rest;
    }
  }

  lemma {:induction false} EncodeAllAppend(a: seq<Node>, b: seq<Node>)
    ensures EncodeAll(a + b) == EncodeAll(a) + EncodeAll(b)
    decreases |a|
  {
    hide Encode;
    if a == [] {
      assert a + b == b;
    } else {
      assert (a + b)[1..] == a[1..] + b;
      EncodeAllAppend(a[1..], b);
    }
  }

  lemma {:induction false} EncodeOne(n: Node)
    ensures EncodeAll([n]) == Encode(n)
  {
    hide Encode;
    assert [n][1..] == [];
    assert EncodeAll([n][1..]) == [];
  }

  lemma {:induction false} AllFitAppend(a: seq<Node>, b: seq<Node>)
    ensures AllFit(a + b) <==> AllFit(a) && AllFit(b)
    decreases |a|
  {
    hide Fits;
    if a == [] {
      assert a + b == b;
    } else {
      assert (a + b)[1..] == a[1..] + b;
      AllFitAppend(a[1..], b);
    }
  }

  lemma {:induction false} AllFitEach(ns: seq<Node>, i: nat)
    requires AllFit(ns) && i < |ns|
    ensures Fits(ns[i])
    decreases i
  {
    hide Fits;
    if i > 0 {
      AllFitEach(ns[1..], i - 1);
    }
  }

  // ----- tiling at every depth -----

  /** The children of every nest, at every depth, tile it. */
  predicate TilesDeep(n: Node)
    decreases n
  {
    match n
    case Leaf(_, _) => true
    case Nest(_, children) => Tiles(EncodeAll(children)) && AllTileDeep(children)
  }

  predicate AllTileDeep(ns: seq<Node>)
    decreases ns
  {
    ns == [] || (TilesDeep(ns[0]) && AllTileDeep(ns[1..]))
  }

  lemma {:induction false} FitTilesDeep(n: Node)
    requires Fits(n)
    ensures TilesDeep(n)
    decreases n
  {
    hide Walk, Tiles, EncodeAll;
    match n
    case Leaf(_, _) =>
    case Nest(_, children) =>
      WalkEncoded(children);
      AllFitTileDeep(children);
  }

  lemma {:induction false} AllFitTileDeep(ns: seq<Node>)
    requires AllFit(ns)
    ensures AllTileDeep(ns)
    decreases ns
  {
    hide Fits, TilesDeep;
    if ns != [] {
      FitTilesDeep(ns[0]);
      AllFitTileDeep(ns[1..]);
    }
  }

  /** The attributes behind the netlink and generic-netlink headers. */
  function MessageAttrs(msg: seq<byte>): seq<Attr> {
    if |msg| >= 20 then Walk(msg[20..]) else []
  }
}
