/** One run of the whole machine, step by step: a device(name) call on a fresh client, and what may
    stand between its lookup and its request (lib/index.ts, src/WireGuardClient.cpp:187-200). */
module ReportRun {
  import opened Core
  import opened WireGuard
  import opened Mnl
  import opened Address
  import opened NlParse
  import opened Reassembly
  import opened NlReport
  import opened NlDump
  import opened NlSocket
  import opened Isolation
  import opened Client
  import opened Frames
  import opened EndToEnd
  import opened KernelDump
  import Q = CallQueue

  /** The call, the two jobs that start it, the lookup and its answer, the request and its answer,
      the end of the native call, and the job that settles the caller's promise. */
  function Run(name: string): seq<Step> {
    [Call([GetDevice(name)]), Job(Q.Pends), Job(Q.Pends), Socket(0, None), Socket(0, None),
     Socket(0, None), Socket(0, None), Socket(0, None), Finish(0), Job(Q.Pends)]
  }

  // ----- one step of a run -----

  lemma {:induction false} AfterStep(kernel: Kernel, steps: seq<Step>, n: nat, w: World)
    requires n < |steps| && After(kernel, steps[..n]) == Some(w) && Enabled(w, steps[n])
    ensures After(kernel, steps[..n + 1]) == Some(Apply(kernel, w, steps[n]))
  {
    hide Enabled, Apply;
    assert steps[..n + 1][..n] == steps[..n];
  }

  /** The one call stands at the head of the queue in the given phase, with its worker and the
      socket as given. */
  ghost predicate At(w: World, name: string, phase: Q.Phase<seq<Device>>, sock: Sock, workers: map<nat, Worker>) {
    && Q.Shape(w.queue, Q.View(1, [], phase)) && w.calls == [[GetDevice(name)]]
    && w.sock == sock && w.workers == workers && w.sends == sock.seqno
  }

  lemma {:induction false} Called(kernel: Kernel, name: string)
    ensures Enabled(Start(), Call([GetDevice(name)]))
    ensures At(Apply(kernel, Start(), Call([GetDevice(name)])), name, Q.Ready, Sock(0, 0, []), map[])
  {
    hide Q.Shape;
    var v := Q.ViewAfter<seq<Device>>([]);
    Q.ShapeInit<seq<Device>>();
    Q.EnqueueShape(Q.Init(), v);
    assert [] + [[GetDevice(name)]] == [[GetDevice(name)]];
  }

  /** A job: the first starts the native call, the others change the phase. */
  lemma {:induction false} JobRuns(kernel: Kernel, w: World, name: string, phase: Q.Phase<seq<Device>>,
      sock: Sock, workers: map<nat, Worker>)
    requires At(w, name, phase, sock, workers) && (phase.Ready? || phase == Q.Following(None) || phase.Landed?)
    ensures Enabled(w, Job(Q.Pends))
    ensures At(Apply(kernel, w, Job(Q.Pends)), name, Q.ViewStep(Q.View(1, [], phase), Q.JobStep(Q.Pends)).phase, sock,
               if phase.Ready? then workers[0 := Worker(0, [], Next)] else workers)
    ensures Apply(kernel, w, Job(Q.Pends)).sent == w.sent
  {
    hide Q.Shape, Q.JobDone;
    var v := Q.View(1, [], phase);
    Q.JobsRun(w.queue, v);
    Q.StepShape(w.queue, v, Q.JobStep(Q.Pends));
    JobEffect(w.queue, v, Q.Pends);
  }

  // ----- the socket operations -----

  /** The worker after its lookup, its request, and its answer. */
  function Asking(stage: Stage): map<nat, Worker> {
    map[0 := Worker(0, [], stage)]
  }

  lemma {:induction false} LookupSent(kernel: Kernel, w: World, name: string)
    requires At(w, name, Q.InFlight, Sock(0, 0, []), Asking(Next))
    ensures Enabled(w, Socket(0, None))
    ensures At(Apply(kernel, w, Socket(0, None)), name, Q.InFlight, Sock(1, 0, kernel.replies(1)), Asking(AwaitFamily(1, [])))
  {
    hide Q.Shape;
    assert w.calls[0] == [GetDevice(name)];
    assert [] + kernel.replies(1) == kernel.replies(1);
  }

  lemma {:induction false} FamilyHeard(kernel: Kernel, w: World, name: string, extra: seq<Recv>)
    requires At(w, name, Q.InFlight, Sock(1, 0, [Datagram(FamilyReply(1, kernel.pid))] + extra), Asking(AwaitFamily(1, [])))
    ensures Enabled(w, Socket(0, None))
    ensures At(Apply(kernel, w, Socket(0, None)), name, Q.InFlight, Sock(1, 30, extra), Asking(Next))
  {
    hide Q.Shape, FamilyReply, FamilyIdOf, RecvOne;
    FamilyReceived(kernel.pid);
    assert w.sock.inbox[1..] == extra;
    assert w.calls[0] == [GetDevice(name)];
  }

  lemma {:induction false} FamilyReceived(pid: u32)
    ensures RecvOne(Datagram(FamilyReply(1, pid)), 1, pid, All, []) == Done([FamilyMessage(1, pid)], Completed)
    ensures FamilyIdOf([FamilyMessage(1, pid)]) == 30
  {
    hide FamilyReply, Messages, FamilyIdOf;
    FamilyReplyMessage(1, pid);
    NoMessages();
    ScanStep(Messages(FamilyReply(1, pid)), 1, pid, All, []);
    NotMulti(FamilyMessage(1, pid));
    assert [] + [FamilyMessage(1, pid)] == [FamilyMessage(1, pid)];
  }

  lemma {:induction false} RequestSent(kernel: Kernel, w: World, name: string, extra: seq<Recv>)
    requires At(w, name, Q.InFlight, Sock(1, 30, extra), Asking(Next)) && IsIfName(name)
    ensures Enabled(w, Socket(0, None))
    ensures var t := Apply(kernel, w, Socket(0, None));
      && At(t, name, Q.InFlight, Sock(2, 30, extra + kernel.replies(2)), Asking(AwaitReply(2, [])))
      && (0, 0) in t.sent && t.sent[(0, 0)] == Sent(2, extra)
  {
    hide Q.Shape, IsIfName;
    assert w.calls[0] == [GetDevice(name)];
  }

  lemma {:induction false} ReplyHeard(kernel: Kernel, w: World, name: string, first: Recv, rest: seq<Recv>, trace: seq<Msg>)
    requires At(w, name, Q.InFlight, Sock(2, 30, [first] + rest), Asking(AwaitReply(2, [])))
    requires RecvOne(first, 2, kernel.pid, All, []) == Done(trace, Completed)
    ensures Enabled(w, Socket(0, None))
    ensures var t := Apply(kernel, w, Socket(0, None));
      && At(t, name, Q.InFlight, Sock(2, 30, rest), map[0 := Worker(1, [Read(name, trace)], Next)])
      && t.sent == w.sent
  {
    hide Q.Shape, RecvOne, Read;
    assert w.sock.inbox[1..] == rest;
    assert w.calls[0] == [GetDevice(name)];
    assert [] + [Read(name, trace)] == [Read(name, trace)];
  }

  lemma {:induction false} CallEnds(kernel: Kernel, w: World, name: string, sock: Sock, d: Device)
    requires At(w, name, Q.InFlight, sock, map[0 := Worker(1, [d], Next)])
    ensures Enabled(w, Socket(0, None))
    ensures var t := Apply(kernel, w, Socket(0, None));
      && At(t, name, Q.InFlight, sock, map[0 := Worker(1, [d], Over(Q.Fulfilled([d])))])
      && t.sent == w.sent
  {
    hide Q.Shape;
    assert w.calls[0] == [GetDevice(name)];
  }

  lemma {:induction false} CallFinishes(kernel: Kernel, w: World, name: string, sock: Sock, d: Device)
    requires At(w, name, Q.InFlight, sock, map[0 := Worker(1, [d], Over(Q.Fulfilled([d])))])
    ensures Enabled(w, Finish(0))
    ensures var t := Apply(kernel, w, Finish(0));
      && At(t, name, Q.Landed(Q.Fulfilled([d])), sock, map[]) && t.sent == w.sent
  {
    hide Q.Shape, Q.CanSettle, Q.NativeSettled;
    var v := Q.View(1, [], Q.InFlight);
    Q.PendingNative(w.queue, v, 0);
    Q.SettleShape(w.queue, v, 0, Q.Fulfilled([d]));
  }

  // ----- the whole run -----

  /** The first three steps: the call is made and its native call set to work. */
  lemma {:induction false} Opens(kernel: Kernel, name: string) returns (w: World)
    ensures After(kernel, Run(name)[..3]) == Some(w) && At(w, name, Q.InFlight, Sock(0, 0, []), Asking(Next))
  {
    hide At, Apply, Enabled, After;
    var steps := Run(name);
    assert steps[..0] == [];
    StartsEmpty(kernel);
    Called(kernel, name);
    AfterStep(kernel, steps, 0, Start());
    w := Apply(kernel, Start(), steps[0]);
    JobRuns(kernel, w, name, Q.Ready, Sock(0, 0, []), map[]);
    AfterStep(kernel, steps, 1, w);
    w := Apply(kernel, w, steps[1]);
    var workers: map<nat, Worker> := map[];
    assert workers[0 := Worker(0, [], Next)] == Asking(Next);
    JobRuns(kernel, w, name, Q.Following(None), Sock(0, 0, []), Asking(Next));
    AfterStep(kernel, steps, 2, w);
    w := Apply(kernel, w, steps[2]);
  }

  lemma {:induction false} StartsEmpty(kernel: Kernel)
    ensures After(kernel, []) == Some(Start())
  {
  }

  /** The next three: the lookup, its answer, and the request. */
  lemma {:induction false} Asks(kernel: Kernel, name: string, extra: seq<Recv>) returns (w: World)
    requires IsIfName(name) && kernel.replies(1) == [Datagram(FamilyReply(1, kernel.pid))] + extra
    ensures After(kernel, Run(name)[..6]) == Some(w)
    ensures At(w, name, Q.InFlight, Sock(2, 30, extra + kernel.replies(2)), Asking(AwaitReply(2, [])))
    ensures (0, 0) in w.sent && w.sent[(0, 0)] == Sent(2, extra)
  {
    hide At, Apply, Enabled, After, IsIfName, FamilyReply;
    var steps := Run(name);
    w := Opens(kernel, name);
    LookupSent(kernel, w, name);
    AfterStep(kernel, steps, 3, w);
    w := Apply(kernel, w, steps[3]);
    FamilyHeard(kernel, w, name, extra);
    AfterStep(kernel, steps, 4, w);
    w := Apply(kernel, w, steps[4]);
    RequestSent(kernel, w, name, extra);
    AfterStep(kernel, steps, 5, w);
    w := Apply(kernel, w, steps[5]);
  }

  /** The rest: an answer that ends with the first thing received, and the call resolves to the
      device read from it. */
  lemma {:induction false} Resolves(kernel: Kernel, name: string, extra: seq<Recv>, first: Recv, rest: seq<Recv>, trace: seq<Msg>)
    returns (w: World)
    requires IsIfName(name) && kernel.replies(1) == [Datagram(FamilyReply(1, kernel.pid))] + extra
    requires extra + kernel.replies(2) == [first] + rest
    requires RecvOne(first, 2, kernel.pid, All, []) == Done(trace, Completed)
    ensures After(kernel, Run(name)) == Some(w) && w.sends == 2 && w.calls == [[GetDevice(name)]]
    ensures Q.CallerSees(w.queue, 0, Q.Fulfilled([Read(name, trace)]))
    ensures (0, 0) in w.sent && w.sent[(0, 0)] == Sent(2, extra)
  {
    hide At, Apply, Enabled, After, IsIfName, FamilyReply, RecvOne, Read, Q.CallerSees;
    var steps, d, sock := Run(name), Read(name, trace), Sock(2, 30, rest);
    w := Asks(kernel, name, extra);
    ReplyHeard(kernel, w, name, first, rest, trace);
    AfterStep(kernel, steps, 6, w);
    w := Apply(kernel, w, steps[6]);
    CallEnds(kernel, w, name, sock, d);
    AfterStep(kernel, steps, 7, w);
    w := Apply(kernel, w, steps[7]);
    CallFinishes(kernel, w, name, sock, d);
    AfterStep(kernel, steps, 8, w);
    w := Apply(kernel, w, steps[8]);
    JobRuns(kernel, w, name, Q.Landed(Q.Fulfilled([d])), sock, map[]);
    AfterStep(kernel, steps, 9, w);
    w := Apply(kernel, w, steps[9]);
    assert steps[..10] == steps;
    SeesOutcome(w, name, sock, [d]);
  }

  lemma {:induction false} SeesOutcome(w: World, name: string, sock: Sock, devices: seq<Device>)
    requires At(w, name, Q.Resolved(Q.Fulfilled(devices)), sock, map[])
    ensures Q.CallerSees(w.queue, 0, Q.Fulfilled(devices))
    ensures w.sends == sock.seqno && w.calls == [[GetDevice(name)]]
  {
    hide Q.Shape, Q.CallerSees;
    Q.SettledResult(w.queue, Q.View(1, [], Q.Resolved(Q.Fulfilled(devices))), 0, Q.Fulfilled(devices));
  }

  // ----- with and without an empty datagram -----

  /** The end of the run, as the theorems about callers see it. */
  ghost predicate RunGives(kernel: Kernel, name: string, unread: seq<Recv>, devices: seq<Device>) {
    && Honest(kernel) && After(kernel, Run(name)).Some?
    && var w := After(kernel, Run(name)).value;
       && w.sends < 0x1_0000_0000 && w.calls == [[GetDevice(name)]]
       && (0, 0) in w.sent && w.sent[(0, 0)] == Sent(2, unread)
       && Q.CallerSees(w.queue, 0, Q.Fulfilled(devices))
  }

  /** The dump of `d` that the kernel sends for request 2, in one datagram. */
  ghost predicate Dumps(kernel: Kernel, d: Device, cut: seq<seq<Entry>>)
    requires IsByteText(d.name)
  {
    AnswersWith(kernel, 2, Packed([WholeDump(d, cut, 30, 2, kernel.pid)]), [],
                DumpMessages(d, cut, 30, 2, kernel.pid), DoneMessage(2, kernel.pid), [], d.name, d)
  }

  /** The failing run: the kernel is honest and dumps the device, any device, but an empty datagram
      stands behind its answer to the lookup. The call resolves to a blank device. */
  lemma {:induction false} BlankRun(pid: u32, d: Device, cut: seq<seq<Entry>>)
    requires ReportOk(d, cut) && IsCut(Concat(CutPeers(cut)), d.peers)
    ensures var kernel := ReportKernel(pid, [Datagram([])], d, cut);
      Dumps(kernel, d, cut) && RunGives(kernel, d.name, [Datagram([])], [BlankDevice(d.name, false)])
  {
    hide ChunkOk, NoNeighbours, IsCut, Concat, CutPeers, AnswersWith, Honest, RepliesTo, After, Q.CallerSees;
    hide Packed, WholeDump, FamilyReply, Read;
    var left := [Datagram([])];
    var kernel := ReportKernel(pid, left, d, cut);
    EmptyIsHonest(pid);
    ReportKernelAnswers(pid, left, d, cut, 2, d.name);
    EmptyEnds(pid);
    ReadNothing(d.name);
    var w := Resolves(kernel, d.name, left, Datagram([]), kernel.replies(2), []);
  }

  lemma {:induction false} EmptyIsHonest(pid: u32)
    ensures RepliesTo([Datagram([])], 1, pid) && RepliesTo([], 1, pid)
  {
    NoMessages();
  }

  lemma {:induction false} EmptyEnds(pid: u32)
    ensures RecvOne(Datagram([]), 2, pid, All, []) == Done([], Completed)
  {
  }

  /** The same run without the empty datagram: the call resolves to the device. */
  lemma {:induction false} DeviceRun(pid: u32, d: Device, cut: seq<seq<Entry>>)
    requires ReportOk(d, cut) && IsCut(Concat(CutPeers(cut)), d.peers)
    ensures var kernel := ReportKernel(pid, [], d, cut);
      Dumps(kernel, d, cut) && RunGives(kernel, d.name, [], [d])
  {
    hide ChunkOk, NoNeighbours, IsCut, Concat, CutPeers, AnswersWith, Honest, RepliesTo, After, Q.CallerSees;
    hide WholeDump, FamilyReply, Read, RecvOne, Receive, DumpMessages;
    var kernel := ReportKernel(pid, [], d, cut);
    EmptyIsHonest(pid);
    ReportKernelAnswers(pid, [], d, cut, 2, d.name);
    var front, ms := Packed([WholeDump(d, cut, 30, 2, pid)]), DumpMessages(d, cut, 30, 2, pid);
    DumpServed(kernel, 2, front, [], ms, DoneMessage(2, pid), [], d.name, d);
    assert front == [front[0]] + [] && front[1..] == [];
    ReceiveStep(front, 2, pid, All, []);
    ReceiveNothing(2, pid, All, RecvOne(front[0], 2, pid, All, []).trace);
    assert [] + kernel.replies(2) == front;
    assert [Datagram(FamilyReply(1, pid))] + [] == [Datagram(FamilyReply(1, pid))];
    var w := Resolves(kernel, d.name, [], front[0], [], ms);
  }

  /** One such device: interface wg0, listening on port 51820, without peers. */
  function Wg0(): Device {
    BlankDevice("wg0", false).(listenPort := 51820)
  }

  lemma {:induction false} Wg0Ok()
    ensures ReportOk(Wg0(), [[]]) && IsCut(Concat(CutPeers([[]])), Wg0().peers) && Wg0() != BlankDevice("wg0", false)
  {
    assert CutPeers([[]]) == [EntryPeers([])] == [[]];
    var chunks: seq<seq<Peer>> := [[]];
    assert chunks[1..] == [];
    assert EntryNodes([]) == [];
    assert |Wg0().name| == 3;
  }

  /** The concrete failing input: the kernel's dump says port 51820 and the caller sees port 0. */
  lemma {:induction false} BlankRunWg0(pid: u32)
    ensures var kernel := ReportKernel(pid, [Datagram([])], Wg0(), [[]]);
      && Dumps(kernel, Wg0(), [[]]) && RunGives(kernel, "wg0", [Datagram([])], [BlankDevice("wg0", false)])
      && Wg0() != BlankDevice("wg0", false)
  {
    hide ReportOk, IsCut, Concat, Dumps, RunGives, ReportKernel;
    Wg0Ok();
    BlankRun(pid, Wg0(), [[]]);
  }
}
