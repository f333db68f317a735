/** The request/reply protocol over one netlink socket (src/netlink/NlSocket.cpp and
    src/netlink/NlSocket.h). */
module NlSocket {
  import opened Core
  import opened Mnl
  import opened Address
  import opened NlTree
  import opened NlBuild
  import opened Wire

  const NLMSG_ERROR: u16 := 2
  const NLMSG_DONE: u16 := 3
  const NLM_F_MULTI: u16 := 2
  const CTRL_ATTR_FAMILY_ID: u16 := 1
  const ENODEV: int := 19
  const GENL_ID_CTRL: u16 := 16
  const CTRL_CMD_GETFAMILY: byte := 3
  const CTRL_ATTR_FAMILY_NAME: u16 := 2

  /** `MNL_SOCKET_BUFFER_SIZE` on a page of 4096 bytes. */
  const SOCKET_BUFFER_SIZE: nat := 4096

  // ----- messages packed in a datagram -----

  /** One message as the loop sees it: header fields and all its bytes. */
  datatype Msg = Msg(typ: u16, flags: u16, seqno: u32, pid: u32, bytes: seq<byte>)

  /** `mnl_nlmsg_ok` on what remains, lengths compared as unsigned numbers. `SignedWalk` has the walk
      for a library that compares them as signed ones. */
  predicate NlmsgOk(b: seq<byte>) {
    |b| >= 16 && 16 <= GetU32(b) <= |b|
  }

  /** The message with its padding, as far as the datagram holds it. */
  function MsgBytes(b: seq<byte>): (m: seq<byte>)
    requires NlmsgOk(b)
    ensures |m| >= 16
  {
    var step := Align4(GetU32(b));
    if step <= |b| then b[..step] else b
  }

  function FirstMsg(b: seq<byte>): Msg
    requires NlmsgOk(b)
  {
    Msg(GetU16(b[4..]), GetU16(b[6..]), GetU32(b[8..]), GetU32(b[12..]), MsgBytes(b))
  }

  /** What remains after `mnl_nlmsg_next`. */
  function NextMsg(b: seq<byte>): (rest: seq<byte>)
    requires NlmsgOk(b)
    ensures |rest| < |b|
  {
    var step := Align4(GetU32(b));
    if step <= |b| then b[step..] else []
  }

  /** The messages the inner walk visits. */
  function Messages(b: seq<byte>): seq<Msg>
    decreases |b|
  {
    if NlmsgOk(b) then [FirstMsg(b)] + Messages(NextMsg(b)) else []
  }

  predicate Multi(m: Msg) {
    m.flags / NLM_F_MULTI % 2 == 1
  }

  /** The `error` field of an `nlmsgerr`, a signed 32-bit number behind the header. A message too
      short to hold it counts as zero here. */
  function ErrorField(m: Msg): int {
    if |m.bytes| < 20 then 0
    else
      var n := GetU32(m.bytes[16..]);
      if n < 0x8000_0000 then n else n - 0x1_0000_0000
  }

  // ----- one transaction, as a function of what is received -----

  /** What one `recvfrom` gives: a datagram (empty when it returns 0) or an errno. */
  datatype Recv = Datagram(bytes: seq<byte>) | Failure(errno: int)

  datatype Outcome = Completed | Failed(error: Error) | Waiting

  /** The handler may look at everything it was handed so far; it answers whether to go on. */
  type Handler = seq<Msg> -> bool

  datatype Progress = More(trace: seq<Msg>) | Done(trace: seq<Msg>, outcome: Outcome)

  predicate Own(m: Msg, seqno: u32, pid: u32) {
    m.seqno == seqno && m.pid == pid
  }

  /** One own message. */
  function Step(m: Msg, goOn: Handler, trace: seq<Msg>): Progress {
    if m.typ == NLMSG_ERROR then
      Done(trace, if ErrorField(m) != 0 then Failed(SystemError(-ErrorField(m))) else Completed)
    else if m.typ == NLMSG_DONE then Done(trace, Completed)
    else if !goOn(trace + [m]) || !Multi(m) then Done(trace + [m], Completed)
    else More(trace + [m])
  }

  /** The inner loop on a flat sequence of messages. */
  function Scan(ms: seq<Msg>, seqno: u32, pid: u32, goOn: Handler, trace: seq<Msg>): Progress
    decreases |ms|
  {
    if ms == [] then More(trace)
    else if !Own(ms[0], seqno, pid) then Scan(ms[1..], seqno, pid, goOn, trace)
    else
      match Step(ms[0], goOn, trace)
      case Done(t, o) => Done(t, o)
      case More(t) => Scan(ms[1..], seqno, pid, goOn, t)
  }

  /** One `recvfrom` and the walk over what it gave. */
  function RecvOne(event: Recv, seqno: u32, pid: u32, goOn: Handler, trace: seq<Msg>): Progress {
    match event
    case Failure(errno) => Done(trace, Failed(SystemError(errno)))
    case Datagram(b) => if b == [] then Done(trace, Completed) else Scan(Messages(b), seqno, pid, goOn, trace)
  }

  datatype Received = Received(outcome: Outcome, trace: seq<Msg>, rest: seq<Recv>)

  /** The outer loop: Waiting when everything queued has been read without reaching an end. */
  function Receive(events: seq<Recv>, seqno: u32, pid: u32, goOn: Handler, trace: seq<Msg>): Received
    decreases |events|
  {
    if events == [] then Received(Waiting, trace, [])
    else
      match RecvOne(events[0], seqno, pid, goOn, trace)
      case Done(t, o) => Received(o, t, events[1..])
      case More(t) => Receive(events[1..], seqno, pid, goOn, t)
  }

  /** `++seq_`, a 32-bit counter, `n` times. */
  function SeqAt(seqno: u32, n: nat): u32 {
    (seqno + n) % 0x1_0000_0000
  }

  /** The family id after `FamilyIdMsgCallback` saw every reply: the last one given, zero if none.
      A payload too short to hold an id is passed over here. */
  function FamilyIdIn(attrs: seq<Attr>, id: u16): u16
    decreases |attrs|
  {
    if attrs == [] then id
    else
      var a := attrs[0];
      FamilyIdIn(attrs[1..], if a.typ == CTRL_ATTR_FAMILY_ID && |a.payload| >= 2 then GetU16(a.payload) else id)
  }

  function FamilyIdOf(trace: seq<Msg>): u16
    decreases |trace|
  {
    if trace == [] then 0
    else FamilyIdIn(MessageAttrs(trace[|trace| - 1].bytes), FamilyIdOf(trace[..|trace| - 1]))
  }

  /** The request for the id of the family named "wireguard". */
  function LookupMessage(seqno: u32): seq<byte> {
    var attrs := Tlv(CTRL_ATTR_FAMILY_NAME, TextBytes("wireguard") + [0]);
    Headers(20 + |attrs|, GENL_ID_CTRL, NLM_F_REQUEST + NLM_F_ACK, seqno, CTRL_CMD_GETFAMILY) + attrs
  }

  lemma {:induction false} LookupOnWire(seqno: u32)
    ensures RequestOnWire(LookupMessage(seqno), 16, 5, seqno, 3)
  {
    hide Headers, RequestOnWire, Tlv;
    HeadersOnWire(GENL_ID_CTRL, NLM_F_REQUEST + NLM_F_ACK, seqno, CTRL_CMD_GETFAMILY,
      Tlv(CTRL_ATTR_FAMILY_NAME, TextBytes("wireguard") + [0]));
  }

  /** The receive loop reads the header of a message as it lies on the wire. */
  lemma {:induction false} MessageSeen(b: seq<byte>, typ: u16, flags: u16, number: u32, pid: u32)
    requires MessageOnWire(b, typ, flags, number, pid)
    ensures NlmsgOk(b) && FirstMsg(b) == Msg(typ, flags, number, pid, b) && NextMsg(b) == []
    ensures Messages(b) == [Msg(typ, flags, number, pid, b)]
  {
    hide Le16, Le32, GetU16, GetU32, Align4, Messages;
    ReadersRead(b);
    ReadersRead(b[4..]);
    ReadersRead(b[6..]);
    ReadersRead(b[8..]);
    ReadersRead(b[12..]);
    Shifted(b, 4);
    Shifted(b, 6);
    Shifted(b, 8);
    Shifted(b, 12);
    assert b[..|b|] == b && b[|b|..] == [];
    MessagesStep(b);
    NoMessages();
    assert Messages(b) == [Messages(b)[0]] + Messages(b)[1..];
  }

  /** So it finds a request's own number in it, the one its replies are matched by. */
  lemma {:induction false} RequestSeen(b: seq<byte>, typ: u16, flags: u16, number: u32, cmd: byte)
    requires RequestOnWire(b, typ, flags, number, cmd)
    ensures NlmsgOk(b) && FirstMsg(b) == Msg(typ, flags, number, 0, b) && b[16..18] == [cmd, 1]
  {
    hide NlmsgOk, FirstMsg, Messages, MessageOnWire;
    MessageSeen(b, typ, flags, number, 0);
  }

  /** The part of `WireGuardFamilyId` that builds its request. */
  method BuildLookup(reqSeq: u32) returns (sent: seq<byte>)
    ensures sent == LookupMessage(reqSeq)
  {
    hide MsgBuffer.Valid, Tlv, U16, U32, GetU32, TextBytes;
    var buf := new byte[SOCKET_BUFFER_SIZE](_ => 0);
    var m := new MsgBuffer(buf, GENL_ID_CTRL, NLM_F_REQUEST + NLM_F_ACK, reqSeq, CTRL_CMD_GETFAMILY);
    assert |"wireguard"| == 9;
    m.Put(CTRL_ATTR_FAMILY_NAME, TextBytes("wireguard") + [0]);
    WholeMessage(m, GENL_ID_CTRL, NLM_F_REQUEST + NLM_F_ACK, reqSeq, CTRL_CMD_GETFAMILY);
    assert [] + Tlv(CTRL_ATTR_FAMILY_NAME, TextBytes("wireguard") + [0]) == m.attrs;
    sent := buf[..m.Cursor()];
  }

  /** A handler that never stops early. */
  function All(trace: seq<Msg>): bool {
    true
  }

  // ----- whole transactions -----

  /** The socket's state: `seq_`, `wgFamilyId_`, and what the kernel queued and nobody read. */
  datatype Sock = Sock(seqno: u32, familyId: u16, inbox: seq<Recv>)

  /** The outside of one transaction: an errno from `sendto`, or what the kernel then queues. */
  datatype Exchange = Exchange(sendError: Option<int>, replies: seq<Recv>)

  datatype Transacted = Transacted(sock: Sock, outcome: Outcome, trace: seq<Msg>)

  function Transact(s: Sock, pid: u32, x: Exchange, goOn: Handler): Transacted {
    var q := SeqAt(s.seqno, 1);
    if x.sendError.Some? then Transacted(s.(seqno := q), Failed(SystemError(x.sendError.value)), [])
    else
      var r := Receive(s.inbox + x.replies, q, pid, goOn, []);
      Transacted(s.(seqno := q, inbox := r.rest), r.outcome, r.trace)
  }

  /** The cached family lookup. */
  function LookUp(s: Sock, pid: u32, x: Exchange): Transacted {
    if s.familyId != 0 then Transacted(s, Completed, [])
    else
      var t := Transact(s, pid, x, All);
      if t.outcome != Completed then t
      else if FamilyIdOf(t.trace) == 0 then t.(outcome := Failed(SystemError(ENODEV)))
      else t.(sock := t.sock.(familyId := FamilyIdOf(t.trace)))
  }

  // ----- the socket -----

  class Socket {
    const portid: u32
    var seqno: u32          // seq_
    var wgFamilyId: u16
    var inbox: seq<Recv>    // queued by the kernel, not read yet

    ghost function Now(): Sock
      reads this
    {
      Sock(seqno, wgFamilyId, inbox)
    }

    constructor (portid: u32)
      ensures this.portid == portid && Now() == Sock(0, 0, [])
    {
      this.portid := portid;
      seqno, wgFamilyId, inbox := 0, 0, [];
    }

    method NextSeq() returns (s: u32)
      modifies this`seqno
      ensures seqno == SeqAt(old(seqno), 1) && s == seqno
      ensures s == if old(seqno) == 0xFFFF_FFFF then 0 else old(seqno) + 1
    {
      seqno := (seqno + 1) % 0x1_0000_0000;
      s := seqno;
    }

    /** `SendAndReceive`. */
    method SendAndReceive(reqSeq: u32, x: Exchange, goOn: Handler) returns (outcome: Outcome, trace: seq<Msg>)
      modifies this`inbox
      ensures x.sendError.Some? ==> outcome == Failed(SystemError(x.sendError.value)) && trace == [] && inbox == old(inbox)
      ensures x.sendError.None? ==>
        Received(outcome, trace, inbox) == Receive(old(inbox) + x.replies, reqSeq, portid, goOn, [])
    {
      hide Scan, Messages;
      trace := [];
      if x.sendError.Some? {
        return Failed(SystemError(x.sendError.value)), trace;
      }
      inbox := inbox + x.replies;
      while inbox != []
        invariant Receive(inbox, reqSeq, portid, goOn, trace) == Receive(old(inbox) + x.replies, reqSeq, portid, goOn, [])
        decreases |inbox|
      {
        var event := inbox[0];
        inbox := inbox[1..];
        if event.Failure? {
          return Failed(SystemError(event.errno)), trace;
        }
        if event.bytes == [] {
          return Completed, trace;
        }
        var p := WalkDatagram(event.bytes, reqSeq, goOn, trace);
        trace := p.trace;
        if p.Done? {
          return p.outcome, trace;
        }
      }
      outcome := Waiting;
    }

    /** `WireGuardFamilyId`: a lookup answers once and is remembered; a failed one is not. */
    method WireGuardFamilyId(x: Exchange) returns (outcome: Outcome, id: u16, sent: Option<seq<byte>>)
      modifies this
      ensures var t := LookUp(old(Now()), portid, x); Now() == t.sock && outcome == t.outcome
      ensures outcome == Completed ==> id == wgFamilyId != 0
      ensures sent == if old(wgFamilyId) == 0 then Some(LookupMessage(seqno)) else None
      ensures sent.Some? ==> RequestOnWire(sent.value, 16, 5, seqno, 3)
    {
      hide Receive, FamilyIdOf, LookupMessage, RequestOnWire;
      id, sent := wgFamilyId, None;
      if wgFamilyId != 0 {
        return Completed, wgFamilyId, None;
      }
      var reqSeq := NextSeq();
      var request := BuildLookup(reqSeq);
      sent := Some(request);
      LookupOnWire(reqSeq);
      var trace;
      outcome, trace := SendAndReceive(reqSeq, x, All);
      if outcome != Completed {
        return;
      }
      if FamilyIdOf(trace) == 0 {
        return Failed(SystemError(ENODEV)), 0, sent;
      }
      wgFamilyId := FamilyIdOf(trace);
      id := wgFamilyId;
    }

    /** The walk over every message in one datagram. */
    method WalkDatagram(datagram: seq<byte>, reqSeq: u32, goOn: Handler, trace0: seq<Msg>) returns (p: Progress)
      ensures p == Scan(Messages(datagram), reqSeq, portid, goOn, trace0)
    {
      hide FirstMsg, NextMsg, NlmsgOk, ErrorField, Multi;
      var cur := datagram;
      var trace := trace0;
      while NlmsgOk(cur)
        invariant Scan(Messages(cur), reqSeq, portid, goOn, trace) == Scan(Messages(datagram), reqSeq, portid, goOn, trace0)
        decreases |cur|
      {
        var m := FirstMsg(cur);
        MessagesStep(cur);
        cur := NextMsg(cur);
        if m.seqno != reqSeq || m.pid != portid {
          continue;
        }
        if m.typ == NLMSG_ERROR {
          if ErrorField(m) != 0 {
            return Done(trace, Failed(SystemError(-ErrorField(m))));
          }
          return Done(trace, Completed);
        }
        if m.typ == NLMSG_DONE {
          return Done(trace, Completed);
        }
        trace := trace + [m];
        if !goOn(trace) {
          return Done(trace, Completed);
        }
        if !Multi(m) {
          return Done(trace, Completed);
        }
      }
      MessagesEnd(cur);
      p := More(trace);
    }
  }

  lemma {:induction false} MessagesStep(b: seq<byte>)
    requires NlmsgOk(b)
    ensures Messages(b) != [] && Messages(b)[0] == FirstMsg(b) && Messages(b)[1..] == Messages(NextMsg(b))
    ensures |NextMsg(b)| < |b|
  {
  }

  lemma {:induction false} MessagesEnd(b: seq<byte>)
    requires !NlmsgOk(b)
    ensures Messages(b) == []
  {
  }

  // ----- packing does not matter -----

  lemma {:induction false} ScanAppend(a: seq<Msg>, b: seq<Msg>, seqno: u32, pid: u32, goOn: Handler, trace: seq<Msg>)
    ensures Scan(a + b, seqno, pid, goOn, trace)
         == if Scan(a, seqno, pid, goOn, trace).Done? then Scan(a, seqno, pid, goOn, trace)
            else Scan(b, seqno, pid, goOn, Scan(a, seqno, pid, goOn, trace).trace)
    decreases |a|
  {
    hide Step, Own;
    if a == [] {
      assert a + b == b;
    } else {
      assert (a + b)[1..] == a[1..] + b;
      var t := if !Own(a[0], seqno, pid) then trace else Step(a[0], goOn, trace).trace;
      ScanAppend(a[1..], b, seqno, pid, goOn, t);
    }
  }

  predicate Datagrams(events: seq<Recv>) {
    forall i :: 0 <= i < |events| ==> events[i].Datagram? && events[i].bytes != []
  }

  /** All messages of a run of datagrams, in order. */
  function Flatten(events: seq<Recv>): seq<Msg>
    requires Datagrams(events)
  {
    if events == [] then [] else Messages(events[0].bytes) + Flatten(events[1..])
  }

  lemma {:induction false} ReceiveIsScan(events: seq<Recv>, seqno: u32, pid: u32, goOn: Handler, trace: seq<Msg>)
    requires Datagrams(events)
    ensures var r, p := Receive(events, seqno, pid, goOn, trace), Scan(Flatten(events), seqno, pid, goOn, trace);
            r.trace == p.trace && r.outcome == if p.Done? then p.outcome else Waiting
    decreases |events|
  {
    hide Scan, Messages;
    if events == [] {
      ScanNothing(seqno, pid, goOn, trace);
    } else {
      ScanAppend(Messages(events[0].bytes), Flatten(events[1..]), seqno, pid, goOn, trace);
      var p := Scan(Messages(events[0].bytes), seqno, pid, goOn, trace);
      if p.More? {
        ReceiveIsScan(events[1..], seqno, pid, goOn, p.trace);
      }
    }
  }

  lemma {:induction false} ScanNothing(seqno: u32, pid: u32, goOn: Handler, trace: seq<Msg>)
    ensures Scan([], seqno, pid, goOn, trace) == More(trace)
  {
  }

  /** Packing independence: what the handler is handed and how the transaction ends depend only
      on the sequence of messages, not on how they are packed into datagrams. */
  lemma {:induction false} PackingIndependence(a: seq<Recv>, b: seq<Recv>, seqno: u32, pid: u32, goOn: Handler)
    requires Datagrams(a) && Datagrams(b) && Flatten(a) == Flatten(b)
    ensures var r, s := Receive(a, seqno, pid, goOn, []), Receive(b, seqno, pid, goOn, []);
            r.trace == s.trace && r.outcome == s.outcome
  {
    hide Scan, Receive, Flatten;
    ReceiveIsScan(a, seqno, pid, goOn, []);
    ReceiveIsScan(b, seqno, pid, goOn, []);
  }

  // ----- every packing of well-formed messages reads back -----

  /** A message as the kernel lays it out: consistent length field, padded to 4 bytes. */
  predicate WellFormed(m: Msg) {
    && |m.bytes| >= 16 && NlmsgOk(m.bytes) && Align4(GetU32(m.bytes)) == |m.bytes|
    && m == FirstMsg(m.bytes)
  }

  predicate AllWellFormed(ms: seq<Msg>) {
    forall i :: 0 <= i < |ms| ==> WellFormed(ms[i])
  }

  function Pack(ms: seq<Msg>): seq<byte> {
    if ms == [] then [] else ms[0].bytes + Pack(ms[1..])
  }

  lemma {:induction false} PrefixFields(b: seq<byte>, rest: seq<byte>)
    requires |b| >= 16
    ensures GetU32(b + rest) == GetU32(b)
    ensures GetU16((b + rest)[4..]) == GetU16(b[4..]) && GetU16((b + rest)[6..]) == GetU16(b[6..])
    ensures GetU32((b + rest)[8..]) == GetU32(b[8..]) && GetU32((b + rest)[12..]) == GetU32(b[12..])
  {
    var c := b + rest;
    assert forall i :: 0 <= i < 16 ==> c[i] == b[i];
    assert forall i :: 0 <= i < 2 ==> c[4..][i] == b[4..][i] && c[6..][i] == b[6..][i];
    assert forall i :: 0 <= i < 4 ==> c[8..][i] == b[8..][i] && c[12..][i] == b[12..][i];
  }

  lemma {:induction false} PackFirst(m: Msg, rest: seq<byte>)
    requires WellFormed(m)
    ensures NlmsgOk(m.bytes + rest) && FirstMsg(m.bytes + rest) == m && NextMsg(m.bytes + rest) == rest
  {
    hide GetU32, GetU16, Align4;
    PrefixFields(m.bytes, rest);
    assert (m.bytes + rest)[..|m.bytes|] == m.bytes && (m.bytes + rest)[|m.bytes|..] == rest;
  }

  lemma {:induction false} MessagesOfPack(ms: seq<Msg>)
    requires AllWellFormed(ms)
    ensures Messages(Pack(ms)) == ms
    decreases |ms|
  {
    hide WellFormed, NlmsgOk, FirstMsg, NextMsg, Messages;
    if ms == [] {
      NoMessages();
    } else {
      PackFirst(ms[0], Pack(ms[1..]));
      MessagesStep(Pack(ms));
      MessagesOfPack(ms[1..]);
      assert Messages(Pack(ms)) == [Messages(Pack(ms))[0]] + Messages(Pack(ms))[1..];
    }
  }

  lemma {:induction false} NoMessages()
    ensures Messages([]) == []
  {
  }
}
