/** Messages as a kernel frames and packs them for one socket (src/netlink/NlSocket.cpp:70-103). */
module Frames {
  import opened Core
  import opened Mnl
  import opened NlSocket
  import opened NlParse
  import opened Isolation

  // ----- one message -----

  /** A netlink header: length, type, flags, number and port. */
  function Header(length: u32, typ: u16, flags: u16, number: u32, pid: u32): (b: seq<byte>)
    ensures |b| == 16
  {
    U32(length) + U16(typ) + U16(flags) + U32(number) + U32(pid)
  }

  /** A message with its header in front of the body. */
  function Frame(typ: u16, flags: u16, number: u32, pid: u32, body: seq<byte>): (m: Msg)
    ensures |m.bytes| == 16 + |body| && m.bytes[16..] == body
  {
    Msg(typ, flags, number, pid, Header((16 + |body|) % 0x1_0000_0000, typ, flags, number, pid) + body)
  }

  lemma {:induction false} HeaderFields(length: u32, typ: u16, flags: u16, number: u32, pid: u32, body: seq<byte>)
    ensures var b := Header(length, typ, flags, number, pid) + body;
      && GetU32(b) == length && GetU16(b[4..]) == typ && GetU16(b[6..]) == flags
      && GetU32(b[8..]) == number && GetU32(b[12..]) == pid
  {
    hide U16, U32, GetU16, GetU32;
    var b := Header(length, typ, flags, number, pid) + body;
    var fromPid := U32(pid) + body;
    var fromNumber := U32(number) + fromPid;
    var fromFlags := U16(flags) + fromNumber;
    var fromType := U16(typ) + fromFlags;
    assert b == U32(length) + fromType;
    assert b[4..] == fromType;
    assert b[6..] == fromFlags;
    assert b[8..] == fromNumber;
    assert b[12..] == fromPid;
    U32RoundTrip(length, fromType);
    U16RoundTrip(typ, fromFlags);
    U16RoundTrip(flags, fromNumber);
    U32RoundTrip(number, fromPid);
    U32RoundTrip(pid, body);
  }

  lemma {:induction false} FrameWellFormed(typ: u16, flags: u16, number: u32, pid: u32, body: seq<byte>)
    requires |body| % 4 == 0 && 16 + |body| < 0x1_0000_0000
    ensures WellFormed(Frame(typ, flags, number, pid, body))
  {
    hide Header, GetU16, GetU32;
    var b := Frame(typ, flags, number, pid, body).bytes;
    HeaderFields(|b|, typ, flags, number, pid, body);
    assert b[..|b|] == b;
  }

  // ----- packing -----

  /** Groups of messages, each packed into a datagram. */
  function Packed(groups: seq<seq<Msg>>): (events: seq<Recv>)
    ensures |events| == |groups|
    ensures forall i :: 0 <= i < |groups| ==> events[i] == Datagram(Pack(groups[i]))
  {
    seq(|groups|, i requires 0 <= i < |groups| => Datagram(Pack(groups[i])))
  }

  function Join(groups: seq<seq<Msg>>): seq<Msg> {
    if groups == [] then [] else groups[0] + Join(groups[1..])
  }

  predicate NoneEmpty(groups: seq<seq<Msg>>) {
    forall i :: 0 <= i < |groups| ==> groups[i] != []
  }

  /** Any packing of well-formed messages flattens back to them. */
  lemma {:induction false} PackedFlatten(groups: seq<seq<Msg>>)
    requires NoneEmpty(groups) && AllWellFormed(Join(groups))
    ensures Datagrams(Packed(groups)) && Flatten(Packed(groups)) == Join(groups)
    decreases |groups|
  {
    hide WellFormed, Messages, Pack;
    if groups != [] {
      var g, more := groups[0], groups[1..];
      assert forall i :: 0 <= i < |g| ==> Join(groups)[i] == g[i];
      assert forall i :: 0 <= i < |Join(more)| ==> Join(groups)[|g| + i] == Join(more)[i];
      assert Packed(groups)[1..] == Packed(more);
      PackedFlatten(more);
      MessagesOfPack(g);
      PackNotEmpty(g);
      DatagramsStep(Packed(groups));
    }
  }

  lemma {:induction false} PackNotEmpty(ms: seq<Msg>)
    requires ms != [] && AllWellFormed(ms)
    ensures Pack(ms) != []
  {
    assert WellFormed(ms[0]);
  }

  /** Messages all bearing one number and port. */
  predicate AllOwn(ms: seq<Msg>, number: u32, pid: u32) {
    forall i :: 0 <= i < |ms| ==> Own(ms[i], number, pid)
  }

  lemma {:induction false} OwnOfOwn(ms: seq<Msg>, number: u32, pid: u32)
    requires AllOwn(ms, number, pid)
    ensures OwnOf(ms, number, pid) == ms
    decreases |ms|
  {
    hide Own;
    if ms != [] {
      OwnOfOwn(ms[1..], number, pid);
    }
  }

  // ----- the answer to the family lookup -----

  /** One message, not multipart, with family id 30. */
  function FamilyMessage(number: u32, pid: u32): Msg {
    Frame(GENL_ID_CTRL, 0, number, pid, [1, 2, 0, 0] + Tlv(CTRL_ATTR_FAMILY_ID, U16(30)))
  }

  function FamilyReply(number: u32, pid: u32): seq<byte> {
    FamilyMessage(number, pid).bytes
  }

  lemma {:induction false} FamilyReplyMessage(number: u32, pid: u32)
    ensures Messages(FamilyReply(number, pid)) == [FamilyMessage(number, pid)]
    ensures FamilyIdOf([FamilyMessage(number, pid)]) == 30
  {
    hide Tlv, U16, Frame, Messages, Walk, WellFormed;
    var m, attr := FamilyMessage(number, pid), Tlv(CTRL_ATTR_FAMILY_ID, U16(30));
    var body := [1, 2, 0, 0] + attr;
    FrameWellFormed(GENL_ID_CTRL, 0, number, pid, body);
    assert Pack([m]) == m.bytes + [] == m.bytes;
    MessagesOfPack([m]);
    assert m.bytes[20..] == m.bytes[16..][4..] == attr;
    FamilyAttr();
    assert [m][..0] == [];
  }

  lemma {:induction false} FamilyAttr()
    ensures var attrs := Walk(Tlv(CTRL_ATTR_FAMILY_ID, U16(30)));
            attrs == [Attr(CTRL_ATTR_FAMILY_ID, U16(30))] && FamilyIdIn(attrs, 0) == 30
  {
    hide Tlv, U16, GetU16, AttrOk, FirstAttr, NextAttr;
    var b := Tlv(CTRL_ATTR_FAMILY_ID, U16(30));
    TlvFirst(CTRL_ATTR_FAMILY_ID, U16(30), []);
    assert b + [] == b;
    WalkStep(b);
    NothingToWalk();
    WalkEnd([]);
    U16RoundTrip(30, []);
    assert U16(30) + [] == U16(30);
    var attrs := Walk(b);
    assert attrs == [attrs[0]] + attrs[1..];
    assert attrs[1..] == [];
  }

  lemma {:induction false} NothingToWalk()
    ensures !AttrOk([])
  {
  }
}
