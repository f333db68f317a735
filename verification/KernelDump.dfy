/** A kernel's answers, byte by byte: dumps of any device in one concrete layout, framed, packed and
    ended as the receive loop of src/netlink/NlSocket.cpp expects them. */
module KernelDump {
  import opened Core
  import opened WireGuard
  import opened Address
  import opened Mnl
  import opened NlTree
  import opened NlParse
  import opened NlRoundTrip
  import opened Reassembly
  import opened NlReport
  import opened NlDump
  import opened NlSocket
  import opened Isolation
  import opened Client
  import opened Frames
  import opened EndToEnd

  // ----- messages fit their length field -----

  lemma {:induction false} FitSize(n: Node)
    requires Fits(n)
    ensures |Encode(n)| <= 0x1_0004
  {
    hide EncodeAll, AllFit;
  }

  lemma {:induction false} AllFitSize(ns: seq<Node>)
    requires AllFit(ns)
    ensures |EncodeAll(ns)| <= 0x1_0004 * |ns|
    decreases |ns|
  {
    hide Fits, Encode;
    if ns != [] {
      FitSize(ns[0]);
      AllFitSize(ns[1..]);
    }
  }

  lemma {:induction false} FewNodes(d: Device, first: bool, es: seq<Entry>)
    requires IsByteText(d.name)
    ensures |MessageNodes(d, first, es)| <= 6
  {
  }

  lemma {:induction false} NodesFitMessage(d: Device, first: bool, es: seq<Entry>)
    requires IsByteText(d.name) && |d.name| < IFNAMSIZ && ChunkOk(es)
    ensures 20 + |EncodeAll(MessageNodes(d, first, es))| < 0x1_0000_0000
  {
    hide MessageNodes, ChunkOk, EncodeAll, AllFit;
    MessageNodesFit(d, first, es);
    AllFitSize(MessageNodes(d, first, es));
    FewNodes(d, first, es);
  }

  // ----- the messages of a dump -----

  /** A device a kernel may report, and the entries and messages its peers are cut into. */
  predicate ReportOk(d: Device, cut: seq<seq<Entry>>) {
    && IsByteText(d.name) && IsIfName(d.name) && !d.userspace && NoNeighbours(d.peers)
    && cut != [] && forall i :: 0 <= i < |cut| ==> ChunkOk(cut[i])
  }

  /** The generic header and the attributes of message i. */
  function DumpBody(d: Device, first: bool, es: seq<Entry>): seq<byte>
    requires IsByteText(d.name)
  {
    [0, 1, 0, 0] + EncodeAll(MessageNodes(d, first, es))
  }

  function DumpMessage(d: Device, first: bool, es: seq<Entry>, family: u16, number: u32, pid: u32): Msg
    requires IsByteText(d.name)
  {
    Frame(family, NLM_F_MULTI, number, pid, DumpBody(d, first, es))
  }

  function DumpMessages(d: Device, cut: seq<seq<Entry>>, family: u16, number: u32, pid: u32): (ms: seq<Msg>)
    requires IsByteText(d.name)
    ensures |ms| == |cut|
    ensures forall i :: 0 <= i < |cut| ==> ms[i] == DumpMessage(d, i == 0, cut[i], family, number, pid)
  {
    seq(|cut|, i requires 0 <= i < |cut| => DumpMessage(d, i == 0, cut[i], family, number, pid))
  }

  function DoneMessage(number: u32, pid: u32): Msg {
    Frame(NLMSG_DONE, NLM_F_MULTI, number, pid, [0, 0, 0, 0])
  }

  /** The dump with the message that ends it. */
  function WholeDump(d: Device, cut: seq<seq<Entry>>, family: u16, number: u32, pid: u32): seq<Msg>
    requires IsByteText(d.name)
  {
    DumpMessages(d, cut, family, number, pid) + [DoneMessage(number, pid)]
  }

  lemma {:induction false} DumpMessageOk(d: Device, first: bool, es: seq<Entry>, family: u16, number: u32, pid: u32)
    requires IsByteText(d.name) && |d.name| < IFNAMSIZ && ChunkOk(es) && family >= GENL_ID_CTRL
    ensures var m := DumpMessage(d, first, es, family, number, pid);
      WellFormed(m) && Own(m, number, pid) && Multi(m) && !Terminator(m)
  {
    hide MessageNodes, ChunkOk, EncodeAll, WellFormed;
    NodesFitMessage(d, first, es);
    FrameWellFormed(family, NLM_F_MULTI, number, pid, DumpBody(d, first, es));
  }

  lemma {:induction false} WholeDumpOk(d: Device, cut: seq<seq<Entry>>, family: u16, number: u32, pid: u32)
    requires ReportOk(d, cut) && family >= GENL_ID_CTRL
    ensures var whole := WholeDump(d, cut, family, number, pid);
      AllWellFormed(whole) && AllOwn(whole, number, pid)
    ensures var ms := DumpMessages(d, cut, family, number, pid);
      forall i :: 0 <= i < |ms| ==> !Terminator(ms[i]) && Multi(ms[i])
  {
    hide DumpMessage, WellFormed, ChunkOk, Multi, NoNeighbours, Terminator;
    FrameWellFormed(NLMSG_DONE, NLM_F_MULTI, number, pid, [0, 0, 0, 0]);
    forall i | 0 <= i < |cut|
      ensures var m := DumpMessages(d, cut, family, number, pid)[i];
        WellFormed(m) && Own(m, number, pid) && Multi(m) && !Terminator(m)
    {
      DumpMessageOk(d, i == 0, cut[i], family, number, pid);
    }
  }

  // ----- they are a dump -----

  /** The same messages as headers and chunks of entries. */
  function Parts(cut: seq<seq<Entry>>, ms: seq<Msg>): (parts: seq<Part>)
    requires |ms| == |cut| && forall i :: 0 <= i < |ms| ==> |ms[i].bytes| >= 20
    ensures |parts| == |cut|
    ensures forall i :: 0 <= i < |cut| ==> parts[i] == Part(ms[i].bytes[..20], cut[i])
  {
    seq(|cut|, i requires 0 <= i < |cut| => Part(ms[i].bytes[..20], cut[i]))
  }

  lemma {:induction false} MessageIsPart(d: Device, first: bool, es: seq<Entry>, family: u16, number: u32, pid: u32)
    requires IsByteText(d.name)
    ensures var b := DumpMessage(d, first, es, family, number, pid).bytes;
      |b| >= 20 && b[..20] + EncodeAll(MessageNodes(d, first, es)) == b
  {
    hide MessageNodes, EncodeAll, Frame;
    var b := DumpMessage(d, first, es, family, number, pid).bytes;
    assert b[20..] == b[16..][4..] == EncodeAll(MessageNodes(d, first, es));
  }

  lemma {:induction false} MessagesAreParts(d: Device, cut: seq<seq<Entry>>, family: u16, number: u32, pid: u32)
    returns (parts: seq<Part>)
    requires IsByteText(d.name) && forall i :: 0 <= i < |cut| ==> ChunkOk(cut[i])
    ensures PartsOk(parts) && |parts| == |cut| && forall i :: 0 <= i < |cut| ==> parts[i].entries == cut[i]
    ensures DumpBytes(d, parts) == Payloads(DumpMessages(d, cut, family, number, pid))
  {
    hide MessageNodes, EncodeAll, DumpMessage, ChunkOk;
    var ms := DumpMessages(d, cut, family, number, pid);
    forall i | 0 <= i < |cut|
      ensures |ms[i].bytes| >= 20 && ms[i].bytes[..20] + EncodeAll(MessageNodes(d, i == 0, cut[i])) == ms[i].bytes
    {
      MessageIsPart(d, i == 0, cut[i], family, number, pid);
    }
    parts := Parts(cut, ms);
  }

  /** The peers of the entries, message by message. */
  function CutPeers(cut: seq<seq<Entry>>): (chunks: seq<seq<Peer>>)
    ensures |chunks| == |cut|
    ensures forall i :: 0 <= i < |cut| ==> chunks[i] == EntryPeers(cut[i])
  {
    seq(|cut|, i requires 0 <= i < |cut| => EntryPeers(cut[i]))
  }

  lemma {:induction false} MessagesAreDump(d: Device, cut: seq<seq<Entry>>, family: u16, number: u32, pid: u32, name: string)
    requires ReportOk(d, cut) && family >= GENL_ID_CTRL && IsCut(Concat(CutPeers(cut)), d.peers)
    ensures Dump(DumpMessages(d, cut, family, number, pid), name, d)
  {
    hide DumpMessage, ChunkOk, Multi, Terminator, NoNeighbours, IsCut, Concat, EntryPeers, DumpTold, AllOk, Dump, Assemble;
    WholeDumpOk(d, cut, family, number, pid);
    var parts := MessagesAreParts(d, cut, family, number, pid);
    assert Chunks(parts) == CutPeers(cut);
    DumpReadsBack(d, parts, name);
    ToldIsDump(DumpMessages(d, cut, family, number, pid), CutPeers(cut), name, d);
  }

  // ----- kernels that send them -----

  /** Whatever device, whatever cut over entries and messages, whatever packing into datagrams, and
      whatever behind: such a kernel answers with a dump of the device. */
  lemma {:induction false} PackedDumpAnswers(kernel: Kernel, q: u32, d: Device, cut: seq<seq<Entry>>, family: u16,
      groups: seq<seq<Msg>>, back: seq<Recv>, name: string)
    requires ReportOk(d, cut) && family >= GENL_ID_CTRL && IsCut(Concat(CutPeers(cut)), d.peers)
    requires NoneEmpty(groups) && Join(groups) == WholeDump(d, cut, family, q, kernel.pid)
    requires kernel.replies(q) == Packed(groups) + back
    ensures AnswersWith(kernel, q, Packed(groups), back,
                        DumpMessages(d, cut, family, q, kernel.pid), DoneMessage(q, kernel.pid), [], name, d)
  {
    hide ChunkOk, NoNeighbours, IsCut, Concat, CutPeers, Packed, DumpMessages, Dump;
    hide Join, Flatten, Datagrams, OwnOf, AllOwn, AllWellFormed, NoneEmpty;
    WholeDumpOk(d, cut, family, q, kernel.pid);
    PackedFlatten(groups);
    OwnOfOwn(Join(groups), q, kernel.pid);
    MessagesAreDump(d, cut, family, q, kernel.pid, name);
    assert WholeDump(d, cut, family, q, kernel.pid) + [] == WholeDump(d, cut, family, q, kernel.pid);
  }

  /** A kernel that answers the first number with the family, and `extra` behind it, and every other
      one with a dump of `d` in one datagram. */
  function ReportKernel(pid: u32, extra: seq<Recv>, d: Device, cut: seq<seq<Entry>>): Kernel
    requires IsByteText(d.name)
  {
    Kernel(pid, (number: u32) => if number == 1 then [Datagram(FamilyReply(1, pid))] + extra
                                 else Packed([WholeDump(d, cut, 30, number, pid)]))
  }

  lemma {:induction false} OwnNumbered(ms: seq<Msg>, number: u32, pid: u32)
    requires AllOwn(ms, number, pid)
    ensures Numbered(ms, number, pid)
  {
  }

  lemma {:induction false} FamilyNumbered(pid: u32)
    ensures Numbered(Messages(FamilyReply(1, pid)), 1, pid)
  {
    hide FamilyReply, Messages;
    FamilyReplyMessage(1, pid);
  }

  lemma {:induction false} ReportKernelReplies(pid: u32, extra: seq<Recv>, d: Device, cut: seq<seq<Entry>>, number: u32)
    requires ReportOk(d, cut) && RepliesTo(extra, 1, pid)
    ensures RepliesTo(ReportKernel(pid, extra, d, cut).replies(number), number, pid)
  {
    hide ReportOk, WholeDump, Numbered, Messages, AllOwn, AllWellFormed, FamilyReply;
    assert IsByteText(d.name) by {
      ByteName(d, cut);
    }
    if number == 1 {
      FamilyNumbered(pid);
    } else {
      WholeDumpOk(d, cut, 30, number, pid);
      MessagesOfPack(WholeDump(d, cut, 30, number, pid));
      OwnNumbered(WholeDump(d, cut, 30, number, pid), number, pid);
    }
  }

  lemma {:induction false} ByteName(d: Device, cut: seq<seq<Entry>>)
    requires ReportOk(d, cut)
    ensures IsByteText(d.name)
  {
  }

  /** For every device, and every cut of it, there is an honest kernel that answers any request
      after the lookup with a dump of it. */
  lemma {:induction false} ReportKernelAnswers(pid: u32, extra: seq<Recv>, d: Device, cut: seq<seq<Entry>>, q: u32, name: string)
    requires ReportOk(d, cut) && IsCut(Concat(CutPeers(cut)), d.peers) && RepliesTo(extra, 1, pid) && q != 1
    ensures Honest(ReportKernel(pid, extra, d, cut))
    ensures AnswersWith(ReportKernel(pid, extra, d, cut), q, Packed([WholeDump(d, cut, 30, q, pid)]), [],
                        DumpMessages(d, cut, 30, q, pid), DoneMessage(q, pid), [], name, d)
  {
    hide RepliesTo, ChunkOk, NoNeighbours, IsCut, Concat, CutPeers, Packed, AnswersWith, DumpMessages;
    var kernel := ReportKernel(pid, extra, d, cut);
    forall n: u32
      ensures RepliesTo(kernel.replies(n), n, pid)
    {
      ReportKernelReplies(pid, extra, d, cut, n);
    }
    var groups := [WholeDump(d, cut, 30, q, pid)];
    assert groups[1..] == [] && Join([]) == [] && groups[0] + [] == groups[0];
    assert Join(groups) == groups[0];
    assert Packed(groups) + [] == Packed(groups);
    PackedDumpAnswers(kernel, q, d, cut, 30, groups, [], name);
  }
}
