/** What one native call does on the socket (src/WireGuardClient.cpp, kernel branch). */
module Client {
  import opened Core
  import opened WireGuard
  import opened Address
  import opened Mnl
  import opened NlTree
  import opened NlBuild
  import opened NlParse
  import opened Reassembly
  import opened NlSocket
  import opened Wire

  function Payloads(trace: seq<Msg>): (msgs: seq<seq<byte>>)
    ensures |msgs| == |trace|
    ensures forall i :: 0 <= i < |trace| ==> msgs[i] == trace[i].bytes
  {
    seq(|trace|, i requires 0 <= i < |trace| => trace[i].bytes)
  }

  /** The device assembled from the replies handed over. */
  function Fetched(name: string, trace: seq<Msg>): Device
    requires AllOk(Payloads(trace))
  {
    Assemble(Payloads(trace), BlankDevice(name, false))
  }

  /** One request on the socket: the family lookup, a sequence number, then the request, unless
      building it throws. */
  function Submit(s: Sock, pid: u32, builds: bool, lookup: Exchange, x: Exchange): Transacted {
    var f := LookUp(s, pid, lookup);
    if f.outcome != Completed then f.(trace := [])
    else if !builds then Transacted(f.sock.(seqno := SeqAt(f.sock.seqno, 1)), Failed(InvalidArgument), [])
    else Transact(f.sock, pid, x, All)
  }

  /** `FetchDeviceKernel`. `sent` are the bytes of the dump request given to `sendto`, if any. */
  method FetchDeviceKernel(sock: Socket, name: string, lookup: Exchange, dump: Exchange)
    returns (outcome: Outcome, device: Device, sent: Option<seq<byte>>)
    requires IsByteText(name)
    requires AllOk(Payloads(Submit(sock.Now(), sock.portid, IsIfName(name), lookup, dump).trace))
    modifies sock
    ensures var f := Submit(old(sock.Now()), sock.portid, IsIfName(name), lookup, dump);
      && sock.Now() == f.sock && outcome == f.outcome
      && AllOk(Payloads(f.trace)) && device == Fetched(name, f.trace)
      && (sent.Some? ==> IsIfName(name) && sent.value == GetMessage(sock.wgFamilyId, sock.seqno, name))
      && (sent.Some? ==> RequestOnWire(sent.value, sock.wgFamilyId, 0x305, sock.seqno, 0))
      && (outcome == Completed ==> sent.Some?)
  {
    hide LookUp, Receive, Assemble, MessageOk, GetMessage, Tlv, GetU32, RequestOnWire;
    sent := None;
    var box := new DeviceBox(name);
    ghost var f := Submit(sock.Now(), sock.portid, IsIfName(name), lookup, dump);
    device := box.device;
    NothingFetched(name);
    var id, request;
    outcome, id, request := sock.WireGuardFamilyId(lookup);
    if outcome != Completed {
      return;
    }
    var reqSeq := sock.NextSeq();
    var buf := new byte[SOCKET_BUFFER_SIZE](_ => 0);
    var m := BuildGetDeviceMessage(buf, id, reqSeq, name);
    if m.Err? {
      return Failed(m.error), device, None;
    }
    sent := Some(buf[..m.value.Cursor()]);
    var trace;
    outcome, trace := sock.SendAndReceive(reqSeq, dump, All);
    assert trace == f.trace;
    var msgs := Payloads(trace);
    for i := 0 to |msgs|
      invariant AllOk(msgs) && AllOk(msgs[i..])
      invariant Assemble(msgs[i..], box.device) == Fetched(name, trace)
      invariant sock.Now() == f.sock
    {
      AssembleStep(msgs[i..], box.device);
      assert msgs[i..][0] == msgs[i] && msgs[i..][1..] == msgs[i + 1..];
      box.ParseDeviceMessage(msgs[i]);
    }
    AssembleNothing(msgs[|msgs|..], box.device);
    device := box.device;
  }

  lemma {:induction false} NothingFetched(name: string)
    ensures AllOk(Payloads([])) && Fetched(name, []) == BlankDevice(name, false)
  {
  }

  lemma {:induction false} AssembleNothing(msgs: seq<seq<byte>>, d: Device)
    requires msgs == []
    ensures AllOk(msgs) && Assemble(msgs, d) == d
  {
  }

  lemma {:induction false} AssembleStep(msgs: seq<seq<byte>>, d: Device)
    requires AllOk(msgs) && msgs != []
    ensures MessageOk(msgs[0]) && AllOk(msgs[1..])
    ensures Assemble(msgs, d) == Assemble(msgs[1..], Parsed(msgs[0], d))
  {
    hide MessageOk, Parsed;
    assert MessageOk(msgs[0]);
  }

  /** The kernel branch of `ApplyConfig`. `sent` are the bytes given to `sendto`, if any. */
  method ApplyConfig(sock: Socket, name: string, cfg: Config, lookup: Exchange, x: Exchange)
    returns (outcome: Outcome, sent: Option<seq<byte>>)
    requires IsByteText(name)
    modifies sock
    ensures var builds := IsIfName(name) && EndpointsOk(cfg.peers);
            var f := Submit(old(sock.Now()), sock.portid, builds, lookup, x);
      && sock.Now() == f.sock && outcome == f.outcome
      && (sent.Some? ==> builds && (FitsLength(name, cfg) ==> sent.value == SetMessage(sock.wgFamilyId, sock.seqno, name, cfg)))
      && (sent.Some? && FitsLength(name, cfg) ==> RequestOnWire(sent.value, sock.wgFamilyId, 5, sock.seqno, 1))
      && (outcome == Completed ==> sent.Some?)
  {
    hide LookUp, Receive, SetMessage, EncodeAll, EndpointsOk, FitsLength, RequestOnWire;
    sent := None;
    var id, request;
    outcome, id, request := sock.WireGuardFamilyId(lookup);
    if outcome != Completed {
      return;
    }
    var reqSeq := sock.NextSeq();
    var bytes := SetRequestBytes(SOCKET_BUFFER_SIZE, id, reqSeq, name, cfg);
    if bytes.Err? {
      return Failed(bytes.error), None;
    }
    sent := Some(bytes.value);
    var trace;
    outcome, trace := sock.SendAndReceive(reqSeq, x, All);
  }
}
