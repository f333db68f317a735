/** What one received datagram does to a transaction, from its bytes with the numbers of
    linux/netlink.h written out (src/netlink/NlSocket.cpp:60-107, src/netlink/NlSocket.cpp:17-27). */
module Endings {
  import opened Core
  import opened Mnl
  import NlTree
  import opened NlSocket
  import opened Isolation
  import opened Frames
  import opened Wire
  import opened KernelReader

  /** One own message on its own in a datagram: the transaction takes one step. */
  lemma {:induction false} OwnAlone(b: seq<byte>, typ: u16, flags: u16, rest: seq<Recv>,
      seqno: u32, pid: u32, goOn: Handler, trace: seq<Msg>)
    requires MessageOnWire(b, typ, flags, seqno, pid)
    ensures Receive([Datagram(b)] + rest, seqno, pid, goOn, trace) == (
      var p := Step(Msg(typ, flags, seqno, pid, b), goOn, trace);
      if p.Done? then Received(p.outcome, p.trace, rest) else Receive(rest, seqno, pid, goOn, p.trace))
  {
    hide Receive, Messages, MessageOnWire, Step;
    var events := [Datagram(b)] + rest;
    assert events[0] == Datagram(b) && events[1..] == rest;
    ReceiveStep(events, seqno, pid, goOn, trace);
    MessageSeen(b, typ, flags, seqno, pid);
    assert b != [] by {
      NoMessages();
    }
    var m := Msg(typ, flags, seqno, pid, b);
    ScanStep([m], seqno, pid, goOn, trace);
    assert [m][1..] == [];
    ScanNothing(seqno, pid, goOn, Step(m, goOn, trace).trace);
  }

  /** The signed number behind the header, whatever its sign. */
  lemma {:induction false} ErrorFieldOnWire(m: Msg)
    requires |m.bytes| >= 20
    ensures ErrorField(m) == if Le32(m.bytes, 16) < 0x8000_0000 then Le32(m.bytes, 16) else Le32(m.bytes, 16) - 0x1_0000_0000
  {
    hide Le32, GetU32;
    ReadersRead(m.bytes[16..]);
    assert Le32(m.bytes[16..], 0) == Le32(m.bytes, 16) by {
      WordShifted(m.bytes, 16);
    }
  }

  lemma {:induction false} WordShifted(b: seq<byte>, at: nat)
    requires at + 4 <= |b|
    ensures Le32(b[at..], 0) == Le32(b, at)
  {
  }

  /** An error message (type 2) with the two's complement of -code behind its header fails the
      transaction with `code`, and nothing is handed over. */
  lemma {:induction false} ErrorEnds(b: seq<byte>, flags: u16, code: int, rest: seq<Recv>,
      seqno: u32, pid: u32, goOn: Handler, trace: seq<Msg>)
    requires MessageOnWire(b, 2, flags, seqno, pid) && |b| >= 20
    requires 1 <= code <= 0x8000_0000 && Le32(b, 16) == 0x1_0000_0000 - code
    ensures Receive([Datagram(b)] + rest, seqno, pid, goOn, trace) == Received(Failed(SystemError(code)), trace, rest)
  {
    hide Receive, MessageOnWire, Le32, ErrorField;
    OwnAlone(b, 2, flags, rest, seqno, pid, goOn, trace);
    ErrorFieldOnWire(Msg(2, flags, seqno, pid, b));
  }

  /** An error message with a positive number, which no kernel sends, fails with its negation. */
  lemma {:induction false} PositiveErrorEnds(b: seq<byte>, flags: u16, rest: seq<Recv>,
      seqno: u32, pid: u32, goOn: Handler, trace: seq<Msg>)
    requires MessageOnWire(b, 2, flags, seqno, pid) && |b| >= 20 && 0 < Le32(b, 16) < 0x8000_0000
    ensures Receive([Datagram(b)] + rest, seqno, pid, goOn, trace) == Received(Failed(SystemError(0 - Le32(b, 16))), trace, rest)
  {
    hide Receive, MessageOnWire, Le32, ErrorField;
    OwnAlone(b, 2, flags, rest, seqno, pid, goOn, trace);
    ErrorFieldOnWire(Msg(2, flags, seqno, pid, b));
  }

  /** An acknowledgement, type 2 with four zero bytes, and an end of dump, type 3, complete it. */
  lemma {:induction false} AckEnds(b: seq<byte>, flags: u16, rest: seq<Recv>,
      seqno: u32, pid: u32, goOn: Handler, trace: seq<Msg>)
    requires MessageOnWire(b, 2, flags, seqno, pid) && |b| >= 20 && b[16..20] == [0, 0, 0, 0]
    ensures Receive([Datagram(b)] + rest, seqno, pid, goOn, trace) == Received(Completed, trace, rest)
  {
    hide Receive, MessageOnWire, ErrorField;
    OwnAlone(b, 2, flags, rest, seqno, pid, goOn, trace);
    ErrorFieldOnWire(Msg(2, flags, seqno, pid, b));
    assert b[16] == b[16..20][0] && b[17] == b[16..20][1] && b[18] == b[16..20][2] && b[19] == b[16..20][3];
  }

  lemma {:induction false} DoneEnds(b: seq<byte>, flags: u16, rest: seq<Recv>,
      seqno: u32, pid: u32, goOn: Handler, trace: seq<Msg>)
    requires MessageOnWire(b, 3, flags, seqno, pid)
    ensures Receive([Datagram(b)] + rest, seqno, pid, goOn, trace) == Received(Completed, trace, rest)
  {
    hide Receive, MessageOnWire;
    OwnAlone(b, 3, flags, rest, seqno, pid, goOn, trace);
  }

  /** Any other own message is handed over; the transaction goes on exactly when flag 2 is set and
      the handler agrees. */
  lemma {:induction false} DataHandedOver(b: seq<byte>, typ: u16, flags: u16, rest: seq<Recv>,
      seqno: u32, pid: u32, goOn: Handler, trace: seq<Msg>)
    requires MessageOnWire(b, typ, flags, seqno, pid) && typ != 2 && typ != 3
    ensures var longer := trace + [Msg(typ, flags, seqno, pid, b)];
      Receive([Datagram(b)] + rest, seqno, pid, goOn, trace)
        == if flags / 2 % 2 == 1 && goOn(longer) then Receive(rest, seqno, pid, goOn, longer)
           else Received(Completed, longer, rest)
  {
    hide Receive, MessageOnWire;
    OwnAlone(b, typ, flags, rest, seqno, pid, goOn, trace);
  }

  /** A message with another number or another port is passed over. */
  lemma {:induction false} OthersPass(b: seq<byte>, typ: u16, flags: u16, number: u32, port: u32, rest: seq<Recv>,
      seqno: u32, pid: u32, goOn: Handler, trace: seq<Msg>)
    requires MessageOnWire(b, typ, flags, number, port) && (number != seqno || port != pid)
    ensures Receive([Datagram(b)] + rest, seqno, pid, goOn, trace) == Receive(rest, seqno, pid, goOn, trace)
  {
    hide Receive, Messages, MessageOnWire;
    var events := [Datagram(b)] + rest;
    assert events[0] == Datagram(b) && events[1..] == rest;
    ReceiveStep(events, seqno, pid, goOn, trace);
    MessageSeen(b, typ, flags, number, port);
    assert b != [] by {
      NoMessages();
    }
    var m := Msg(typ, flags, number, port, b);
    ScanStep([m], seqno, pid, goOn, trace);
    assert [m][1..] == [];
    ScanNothing(seqno, pid, goOn, trace);
  }

  /** A failed `recvfrom` ends with its errno, one that returns nothing completes. */
  lemma {:induction false} BreaksEnd(errno: int, rest: seq<Recv>,
      seqno: u32, pid: u32, goOn: Handler, trace: seq<Msg>)
    ensures Receive([Failure(errno)] + rest, seqno, pid, goOn, trace) == Received(Failed(SystemError(errno)), trace, rest)
    ensures Receive([Datagram([])] + rest, seqno, pid, goOn, trace) == Received(Completed, trace, rest)
  {
    hide Receive;
    var a, b := [Failure(errno)] + rest, [Datagram([])] + rest;
    assert a[0] == Failure(errno) && a[1..] == rest && b[0] == Datagram([]) && b[1..] == rest;
    ReceiveStep(a, seqno, pid, goOn, trace);
    ReceiveStep(b, seqno, pid, goOn, trace);
  }

  /** A framed message lies on the wire as its header says. */
  lemma {:induction false} FrameOnWire(typ: u16, flags: u16, number: u32, pid: u32, body: seq<byte>)
    requires 16 + |body| < 0x1_0000_0000
    ensures MessageOnWire(Frame(typ, flags, number, pid, body).bytes, typ, flags, number, pid)
  {
    hide U16, U32, Le16, Le32;
    var b := U32(16 + |body|) + (U16(typ) + U16(flags) + (U32(number) + U32(pid) + body));
    NlTree.HeaderOnWire(16 + |body|, typ, flags, number, pid, body);
    assert Frame(typ, flags, number, pid, body).bytes == b;
  }

  /** The kernel's error reply, framed: four bytes of the two's complement of -code in front of
      whatever else it sends. */
  lemma {:induction false} FramedErrorEnds(body: seq<byte>, flags: u16, code: int, rest: seq<Recv>,
      seqno: u32, pid: u32, goOn: Handler, trace: seq<Msg>)
    requires 4 <= |body| < 0xFFFF_FFF0 && 1 <= code <= 0x8000_0000 && Le32(body, 0) == 0x1_0000_0000 - code
    ensures Receive([Datagram(Frame(2, flags, seqno, pid, body).bytes)] + rest, seqno, pid, goOn, trace)
         == Received(Failed(SystemError(code)), trace, rest)
  {
    hide Receive, MessageOnWire, Frame, Le32;
    var b := Frame(2, flags, seqno, pid, body).bytes;
    FrameOnWire(2, flags, seqno, pid, body);
    assert b[16..] == body;
    WordShifted(b, 16);
    ErrorEnds(b, flags, code, rest, seqno, pid, goOn, trace);
  }

  /** The kernel's answer for a name that is no WireGuard interface: -19 ends as ENODEV. */
  lemma {:induction false} NoDeviceEnds(flags: u16, rest: seq<Recv>, seqno: u32, pid: u32, goOn: Handler)
    ensures Receive([Datagram(Frame(2, flags, seqno, pid, [237, 255, 255, 255]).bytes)] + rest, seqno, pid, goOn, [])
         == Received(Failed(SystemError(19)), [], rest)
  {
    hide Receive, Frame;
    FramedErrorEnds([237, 255, 255, 255], flags, 19, rest, seqno, pid, goOn, []);
  }

  // ----- the family id -----

  /** The id is the two bytes of the last attribute of type 1 that is long enough. */
  lemma {:induction false} LastFamilyId(attrs: seq<Attr>, i: nat, id: u16)
    requires i < |attrs| && attrs[i].typ == 1 && |attrs[i].payload| >= 2
    requires forall j :: i < j < |attrs| ==> attrs[j].typ != 1
    ensures FamilyIdIn(attrs, id) == Le16(attrs[i].payload, 0)
    decreases |attrs|
  {
    hide GetU16, Le16;
    ReadersRead(attrs[i].payload);
    if i > 0 {
      var a := attrs[0];
      LastFamilyId(attrs[1..], i - 1, if a.typ == CTRL_ATTR_FAMILY_ID && |a.payload| >= 2 then GetU16(a.payload) else id);
    } else {
      NoFamilyId(attrs[1..], GetU16(attrs[0].payload));
    }
  }

  lemma {:induction false} NoFamilyId(attrs: seq<Attr>, id: u16)
    requires forall j :: 0 <= j < |attrs| ==> attrs[j].typ != 1
    ensures FamilyIdIn(attrs, id) == id
    decreases |attrs|
  {
    hide GetU16;
    if attrs != [] {
      NoFamilyId(attrs[1..], id);
    }
  }

  /** Replies none of which has an attribute of type 1 give no id. */
  lemma {:induction false} NoneFound(trace: seq<Msg>)
    requires forall i, j :: 0 <= i < |trace| && 0 <= j < |MessageAttrs(trace[i].bytes)| ==>
      MessageAttrs(trace[i].bytes)[j].typ != 1
    ensures FamilyIdOf(trace) == 0
    decreases |trace|
  {
    hide MessageAttrs, FamilyIdIn;
    if trace != [] {
      var n := |trace| - 1;
      NoneFound(trace[..n]);
      NoFamilyId(MessageAttrs(trace[n].bytes), FamilyIdOf(trace[..n]));
    }
  }

  /** A lookup that completes without an id fails with errno 19. */
  lemma {:induction false} NoIdFails(s: Sock, pid: u32, x: Exchange)
    requires s.familyId == 0 && Transact(s, pid, x, All).outcome == Completed
    requires FamilyIdOf(Transact(s, pid, x, All).trace) == 0
    ensures LookUp(s, pid, x).outcome == Failed(SystemError(19)) && LookUp(s, pid, x).sock.familyId == 0
  {
    hide Receive, FamilyIdOf;
  }
}
