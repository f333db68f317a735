/** The promise queue over the socket: for every interleaving of enqueued calls, jobs, socket
    operations of native calls and native settlements, and for every kernel, a call resolves to
    what the kernel replied to its own requests (lib/index.ts, src/WireGuardClient.cpp,
    src/netlink/NlSocket.cpp). */
module EndToEnd {
  import opened Core
  import opened WireGuard
  import opened Mnl
  import opened Address
  import opened NlParse
  import opened Reassembly
  import opened NlReport
  import opened NlSocket
  import opened Isolation
  import opened Client
  import opened Frames
  import Q = CallQueue

  // ----- the machine -----

  /** What a native call asks of the socket: device(name) is one GetDevice, configureDevice one
      SetDevice, devices() any number of GetDevice, the link calls nothing. */
  datatype Ask = GetDevice(name: string) | SetDevice

  /** Where the native call stands between two socket operations. */
  datatype Stage =
    | Next                                        // about to send, or over
    | AwaitFamily(seqno: u32, trace: seq<Msg>)
    | AwaitReply(seqno: u32, trace: seq<Msg>)
    | Over(outcome: Q.Settlement<seq<Device>>)

  /** A native call on its worker thread: how many requests are answered, and the devices read. */
  datatype Worker = Worker(answered: nat, devices: seq<Device>, stage: Stage)

  /** A request as it was sent: its sequence number, and what then stood unread on the socket. */
  datatype Sent = Sent(number: u32, unread: seq<Recv>)

  datatype World = World(
    queue: Q.State<seq<Device>>,
    calls: seq<seq<Ask>>,
    sock: Sock,
    workers: map<nat, Worker>,
    sent: map<(nat, nat), Sent>,     // each request of each call
    sends: nat)                      // how often a number was taken

  /** The kernel's replies to the request bearing a number; the socket's port id. */
  datatype Kernel = Kernel(pid: u32, replies: u32 -> seq<Recv>)

  /** `refused` is the error of building or sending a request, if any, or of whatever a call does
      besides its requests. */
  datatype Step =
    | Call(asks: seq<Ask>)
    | Job(launch: Q.Launch<seq<Device>>)
    | Socket(k: nat, refused: Option<Error>)
    | Finish(k: nat)

  /** The device a completed GetDevice adds; only replies the parser may be given matter. */
  function Read(name: string, trace: seq<Msg>): Device {
    if AllOk(Payloads(trace)) then Fetched(name, trace) else BlankDevice(name, false)
  }

  function Reads(ask: Ask, trace: seq<Msg>): seq<Device> {
    match ask
    case GetDevice(name) => [Read(name, trace)]
    case SetDevice => []
  }

  function Start(): World {
    World(Q.Init(), [], Sock(0, 0, []), map[], map[], 0)
  }

  /** A native call that does not start working can only fail: a closed client or bad arguments. */
  predicate LaunchOk(launch: Q.Launch<seq<Device>>) {
    launch.Returns? ==> launch.outcome.Rejected?
  }

  predicate Startable(w: World) {
    && Q.JobReady(w.queue) && w.queue.jobs[0].React? && w.queue.jobs[0].reaction.callback.RunTask?
  }

  predicate CanWork(w: World, k: nat) {
    && k in w.workers && k < |w.calls| && w.workers[k].answered <= |w.calls[k]|
    && match w.workers[k].stage
       case Next => true
       case AwaitFamily(_, _) => w.sock.inbox != []
       case AwaitReply(_, _) => w.sock.inbox != [] && w.workers[k].answered < |w.calls[k]|
       case Over(_) => false
  }

  predicate BadName(ask: Ask) {
    ask.GetDevice? && !IsIfName(ask.name)
  }

  /** A request for a bad interface name is never sent. */
  predicate RefusedRightly(w: World, k: nat, refused: Option<Error>)
    requires CanWork(w, k)
  {
    var wk, asks := w.workers[k], w.calls[k];
    wk.stage.Next? && w.sock.familyId != 0 && wk.answered < |asks| && BadName(asks[wk.answered]) ==> refused.Some?
  }

  predicate Enabled(w: World, step: Step) {
    match step
    case Call(_) => Q.Wired(w.queue)
    case Job(launch) => Q.JobReady(w.queue) && LaunchOk(launch)
    case Socket(k, refused) => CanWork(w, k) && RefusedRightly(w, k, refused)
    case Finish(k) => k in w.workers && w.workers[k].stage.Over? && Q.CanSettle(w.queue, Q.Native(k))
  }

  function Apply(kernel: Kernel, w: World, step: Step): World
    requires Enabled(w, step)
  {
    match step
    case Call(asks) => w.(queue := Q.Enqueued(w.queue), calls := w.calls + [asks])
    case Job(launch) => RunJob(w, launch)
    case Socket(k, refused) => Work(kernel, w, k, refused)
    case Finish(k) =>
      w.(queue := Q.NativeSettled(w.queue, k, w.workers[k].stage.outcome), workers := w.workers - {k})
  }

  /** A job; one that calls a task may set a native call to work. */
  function RunJob(w: World, launch: Q.Launch<seq<Device>>): World
    requires Q.JobReady(w.queue)
  {
    var queue := Q.JobDone(w.queue, launch);
    if Startable(w) && launch.Pends? then
      w.(queue := queue, workers := w.workers[w.queue.jobs[0].reaction.callback.k := Worker(0, [], Next)])
    else w.(queue := queue)
  }

  function Put(w: World, k: nat, wk: Worker): World {
    w.(workers := w.workers[k := wk])
  }

  /** One socket operation of native call k: a send, or a receive and its walk. */
  function Work(kernel: Kernel, w: World, k: nat, refused: Option<Error>): World
    requires CanWork(w, k)
  {
    var wk := w.workers[k];
    match wk.stage
    case Next =>
      if wk.answered < |w.calls[k]| then Send(kernel, w, k, refused)
      else if refused.Some? then Put(w, k, wk.(stage := Over(Q.Rejected(refused.value))))
      else Put(w, k, wk.(stage := Over(Q.Fulfilled(wk.devices))))
    case AwaitFamily(q, t) =>
      var p := RecvOne(w.sock.inbox[0], q, kernel.pid, All, t);
      var sock := w.sock.(inbox := w.sock.inbox[1..]);
      if p.More? then Put(w, k, wk.(stage := AwaitFamily(q, p.trace))).(sock := sock)
      else if p.outcome.Failed? then Put(w, k, wk.(stage := Over(Q.Rejected(p.outcome.error)))).(sock := sock)
      else if FamilyIdOf(p.trace) == 0 then Put(w, k, wk.(stage := Over(Q.Rejected(SystemError(ENODEV))))).(sock := sock)
      else Put(w, k, wk.(stage := Next)).(sock := sock.(familyId := FamilyIdOf(p.trace)))
    case AwaitReply(q, t) =>
      var p := RecvOne(w.sock.inbox[0], q, kernel.pid, All, t);
      var sock := w.sock.(inbox := w.sock.inbox[1..]);
      if p.More? then Put(w, k, wk.(stage := AwaitReply(q, p.trace))).(sock := sock)
      else if p.outcome.Failed? then Put(w, k, wk.(stage := Over(Q.Rejected(p.outcome.error)))).(sock := sock)
      else
        var read := Reads(w.calls[k][wk.answered], p.trace);
        Put(w, k, Worker(wk.answered + 1, wk.devices + read, Next)).(sock := sock)
    case Over(_) => w
  }

  /** Take a number, build and send: the family lookup if it is not cached, else the request. */
  function Send(kernel: Kernel, w: World, k: nat, refused: Option<Error>): World
    requires k in w.workers
  {
    var wk, q := w.workers[k], SeqAt(w.sock.seqno, 1);
    var counted := w.(sends := w.sends + 1);
    if refused.Some? then
      Put(counted, k, wk.(stage := Over(Q.Rejected(refused.value)))).(sock := w.sock.(seqno := q))
    else
      var sock := w.sock.(seqno := q, inbox := w.sock.inbox + kernel.replies(q));
      if w.sock.familyId == 0 then Put(counted, k, wk.(stage := AwaitFamily(q, []))).(sock := sock)
      else
        Put(counted, k, wk.(stage := AwaitReply(q, [])))
          .(sock := sock, sent := w.sent[(k, wk.answered) := Sent(q, w.sock.inbox)])
  }

  /** The world after a run, if every step of it was enabled. */
  function After(kernel: Kernel, steps: seq<Step>): Option<World>
    decreases |steps|
  {
    if steps == [] then Some(Start())
    else
      var n := |steps| - 1;
      match After(kernel, steps[..n])
      case None => None
      case Some(w) => if Enabled(w, steps[n]) then Some(Apply(kernel, w, steps[n])) else None
  }

  // ----- what a kernel may do -----

  predicate NoEmpty(events: seq<Recv>) {
    forall i :: 0 <= i < |events| && events[i].Datagram? ==> events[i].bytes != []
  }

  /** Replies addressed to this socket bear the number of the request they answer. How they are
      packed and split, what else arrives in between, empty datagrams and failures are free. */
  ghost predicate Honest(kernel: Kernel) {
    forall q: u32 :: RepliesTo(kernel.replies(q), q, kernel.pid)
  }

  /** The replies to request `q` as a transaction of their own. */
  function Served(kernel: Kernel, q: u32): Received {
    Receive(kernel.replies(q), q, kernel.pid, All, [])
  }

  // ----- what a call should resolve to -----

  /** What is handed over for a request that completes: the messages of its own transaction, or
      nothing if a zero-length datagram stood unread when it was sent. */
  function Heard(kernel: Kernel, s: Sent): seq<Msg> {
    if NoEmpty(s.unread) then Served(kernel, s.number).trace else []
  }

  predicate Completes(kernel: Kernel, s: Sent) {
    NoEmpty(s.unread) ==> Served(kernel, s.number).outcome == Completed
  }

  /** The first `n` requests of call k were sent under their own numbers and ended well. */
  predicate Answered(kernel: Kernel, sent: map<(nat, nat), Sent>, k: nat, n: nat) {
    forall i :: 0 <= i < n ==> (k, i) in sent && Completes(kernel, sent[(k, i)])
  }

  /** The devices read from what was handed over for them. */
  function Answer(kernel: Kernel, sent: map<(nat, nat), Sent>, k: nat, asks: seq<Ask>): seq<Device>
    requires Answered(kernel, sent, k, |asks|)
    decreases |asks|
  {
    if asks == [] then []
    else
      var n := |asks| - 1;
      assert (k, n) in sent;
      Answer(kernel, sent, k, asks[..n]) + Reads(asks[n], Heard(kernel, sent[(k, n)]))
  }

  // ----- the invariant -----

  /** If the transaction completes from here on, it completes as the request should. */
  predicate Tracks(kernel: Kernel, inbox: seq<Recv>, s: Sent, trace: seq<Msg>) {
    var r := Receive(inbox, s.number, kernel.pid, All, trace);
    r.outcome == Completed ==> Completes(kernel, s) && r.trace == Heard(kernel, s)
  }

  /** Nothing unread is numbered like a request still to come. */
  ghost predicate Quiet(inbox: seq<Recv>, seqno: u32, pid: u32) {
    forall q: u32 :: q > seqno ==> Foreign(inbox, q, pid)
  }

  predicate StageOk(kernel: Kernel, sent: map<(nat, nat), Sent>, inbox: seq<Recv>, k: nat, asks: seq<Ask>, wk: Worker) {
    match wk.stage
    case AwaitReply(q, t) =>
      wk.answered < |asks| && (k, wk.answered) in sent && sent[(k, wk.answered)].number == q
      && Tracks(kernel, inbox, sent[(k, wk.answered)], t)
    case Over(o) => o.Fulfilled? ==> wk.answered == |asks| && o.value == wk.devices
    case _ => true
  }

  predicate WorkerOk(kernel: Kernel, sent: map<(nat, nat), Sent>, inbox: seq<Recv>, k: nat, asks: seq<Ask>, wk: Worker) {
    && wk.answered <= |asks| && Answered(kernel, sent, k, wk.answered)
    && wk.devices == Answer(kernel, sent, k, asks[..wk.answered])
    && StageOk(kernel, sent, inbox, k, asks, wk)
  }

  /** A call fulfilled only with its own answer. */
  predicate AnswerOk(kernel: Kernel, sent: map<(nat, nat), Sent>, calls: seq<seq<Ask>>, k: nat, devices: seq<Device>) {
    k < |calls| && Answered(kernel, sent, k, |calls[k]|) && devices == Answer(kernel, sent, k, calls[k])
  }

  predicate EventOk(kernel: Kernel, sent: map<(nat, nat), Sent>, calls: seq<seq<Ask>>, e: Q.Event<seq<Device>>) {
    e.Ended? && e.outcome.Fulfilled? ==> AnswerOk(kernel, sent, calls, e.k, e.outcome.value)
  }

  predicate LogOk(kernel: Kernel, sent: map<(nat, nat), Sent>, calls: seq<seq<Ask>>, log: seq<Q.Event<seq<Device>>>) {
    forall i :: 0 <= i < |log| ==> EventOk(kernel, sent, calls, log[i])
  }

  /** No two requests share a number, and none is ahead of the counter. */
  predicate NumbersOk(sent: map<(nat, nat), Sent>, seqno: u32) {
    && (forall a :: a in sent ==> sent[a].number <= seqno)
    && (forall a, b :: a in sent && b in sent && sent[a].number == sent[b].number ==> a == b)
  }

  predicate WorkersOk(kernel: Kernel, w: World) {
    forall k :: k in w.workers ==>
      && Q.CanSettle(w.queue, Q.Native(k)) && k < |w.calls|
      && WorkerOk(kernel, w.sent, w.sock.inbox, k, w.calls[k], w.workers[k])
  }

  /** Every native call in flight is at work. */
  ghost predicate Manned(w: World) {
    forall k: nat :: Q.CanSettle(w.queue, Q.Native(k)) ==> k in w.workers
  }

  ghost predicate Good(kernel: Kernel, w: World, v: Q.View<seq<Device>>) {
    && Q.Shape(w.queue, v) && |w.calls| == w.queue.calls
    && w.sends < 0x1_0000_0000 && w.sock.seqno == w.sends
    && Quiet(w.sock.inbox, w.sock.seqno, kernel.pid)
    && WorkersOk(kernel, w) && Manned(w)
    && LogOk(kernel, w.sent, w.calls, w.queue.log)
    && NumbersOk(w.sent, w.sock.seqno)
  }

  // ----- what stays true when something else changes -----

  /** An answer depends only on the call's own numbers. */
  lemma {:induction false} AnswerFrame(kernel: Kernel, m: map<(nat, nat), Sent>, n: map<(nat, nat), Sent>, k: nat, asks: seq<Ask>)
    requires Answered(kernel, m, k, |asks|)
    requires forall i :: 0 <= i < |asks| ==> (k, i) in n && n[(k, i)] == m[(k, i)]
    ensures Answered(kernel, n, k, |asks|) && Answer(kernel, n, k, asks) == Answer(kernel, m, k, asks)
    decreases |asks|
  {
    hide Heard, Completes, Reads;
    if asks != [] {
      AnswerFrame(kernel, m, n, k, asks[..|asks| - 1]);
    }
  }

  lemma {:induction false} AnswerPrefix(kernel: Kernel, sent: map<(nat, nat), Sent>, k: nat, asks: seq<Ask>, n: nat)
    requires n < |asks| && Answered(kernel, sent, k, n + 1)
    ensures Answered(kernel, sent, k, n)
    ensures Answer(kernel, sent, k, asks[..n + 1])
         == Answer(kernel, sent, k, asks[..n]) + Reads(asks[n], Heard(kernel, sent[(k, n)]))
  {
    hide Heard, Completes, Reads;
    assert asks[..n + 1][..n] == asks[..n];
  }

  /** Numbering request `at` of call k leaves the answers to earlier calls and requests alone. */
  lemma {:induction false} EventFrame(kernel: Kernel, sent: map<(nat, nat), Sent>, calls: seq<seq<Ask>>,
      log: seq<Q.Event<seq<Device>>>, k: nat, at: nat, s: Sent)
    requires LogOk(kernel, sent, calls, log)
    requires forall i :: 0 <= i < |log| && log[i].Ended? ==> log[i].k != k
    ensures LogOk(kernel, sent[(k, at) := s], calls, log)
  {
    hide Heard, Completes, Reads;
    forall i | 0 <= i < |log|
      ensures EventOk(kernel, sent[(k, at) := s], calls, log[i])
    {
      var e := log[i];
      assert EventOk(kernel, sent, calls, e);
      if e.Ended? && e.outcome.Fulfilled? {
        AnswerFrame(kernel, sent, sent[(k, at) := s], e.k, calls[e.k]);
      }
    }
  }

  /** While call k's native promise is pending, only earlier calls have ended. */
  lemma {:induction false} EndedEarlier(s: Q.State<seq<Device>>, k: nat)
    requires Q.Safe(s) && Q.CanSettle(s, Q.Native(k))
    ensures forall i :: 0 <= i < |s.log| && s.log[i].Ended? ==> s.log[i].k < k
  {
    assert |s.log| == 2 * k + 1;
    forall i | 0 <= i < |s.log| && s.log[i].Ended?
      ensures s.log[i].k < k
    {
      assert i % 2 == 1;
    }
  }

  /** Only one native call is ever at work. */
  lemma {:induction false} OneWorker(kernel: Kernel, w: World, v: Q.View<seq<Device>>, k: nat)
    requires Good(kernel, w, v) && k in w.workers
    ensures forall j :: j in w.workers ==> j == k
    ensures k < |w.calls| && WorkerOk(kernel, w.sent, w.sock.inbox, k, w.calls[k], w.workers[k])
    ensures Q.CanSettle(w.queue, Q.Native(k))
    ensures k == v.Head() && (v.phase.InFlight? || v.phase == Q.Following(None))
  {
    hide Q.Shape, Quiet, WorkerOk, LogOk, NumbersOk, Q.CanSettle;
    forall j | j in w.workers
      ensures j == v.Head() && (v.phase.InFlight? || v.phase == Q.Following(None))
    {
      Q.PendingNative(w.queue, v, j);
    }
  }

  // ----- a new call -----

  lemma {:induction false} CallGood(kernel: Kernel, w: World, v: Q.View<seq<Device>>, asks: seq<Ask>)
    requires Good(kernel, w, v) && Enabled(w, Call(asks))
    ensures Good(kernel, Apply(kernel, w, Call(asks)), Q.ViewStep(v, Q.EnqueueStep))
  {
    hide Q.Shape, Quiet, WorkerOk, NumbersOk, AnswerOk;
    Q.EnqueueShape(w.queue, v);
    QueueCalls(w.queue);
    var calls := w.calls + [asks];
    forall i | 0 <= i < |w.queue.log|
      ensures EventOk(kernel, w.sent, calls, w.queue.log[i])
    {
      var e := w.queue.log[i];
      assert EventOk(kernel, w.sent, w.calls, e);
      if e.Ended? && e.outcome.Fulfilled? {
        MoreCalls(kernel, w.sent, w.calls, asks, e.k, e.outcome.value);
      }
    }
  }

  lemma {:induction false} MoreCalls(kernel: Kernel, sent: map<(nat, nat), Sent>, calls: seq<seq<Ask>>, asks: seq<Ask>, k: nat, ds: seq<Device>)
    requires AnswerOk(kernel, sent, calls, k, ds)
    ensures AnswerOk(kernel, sent, calls + [asks], k, ds)
  {
    hide Answered, Answer;
  }

  lemma {:induction false} QueueCalls(s: Q.State<seq<Device>>)
    requires Q.Wired(s)
    ensures Q.Enqueued(s).calls == s.calls + 1 && Q.Enqueued(s).log == s.log
    ensures forall k: nat :: Q.CanSettle(s, Q.Native(k)) <==> Q.CanSettle(Q.Enqueued(s), Q.Native(k))
  {
  }

  // ----- a job -----

  lemma {:induction false} JobGood(kernel: Kernel, w: World, v: Q.View<seq<Device>>, launch: Q.Launch<seq<Device>>)
    requires Good(kernel, w, v) && Enabled(w, Job(launch))
    ensures Good(kernel, Apply(kernel, w, Job(launch)), Q.ViewStep(v, Q.JobStep(launch)))
  {
    hide Q.Shape, Quiet, WorkerOk, NumbersOk, Q.ViewStep, EventOk;
    var u, t := Q.ViewStep(v, Q.JobStep(launch)), RunJob(w, launch);
    Q.StepShape(w.queue, v, Q.JobStep(launch));
    Q.JobsRun(w.queue, v);
    JobEffect(w.queue, v, launch);
    forall e | e in t.queue.log
      ensures EventOk(kernel, w.sent, w.calls, e)
    {
      NewEvents(kernel, w, v, launch, e);
    }
    assert LogOk(kernel, w.sent, w.calls, t.queue.log);
    forall k | k in t.workers
      ensures Q.CanSettle(t.queue, Q.Native(k)) && k < |w.calls|
      ensures WorkerOk(kernel, w.sent, w.sock.inbox, k, w.calls[k], t.workers[k])
    {
      JobWorkers(kernel, w, v, launch, k);
    }
    JobManned(kernel, w, v, launch);
  }

  lemma {:induction false} JobManned(kernel: Kernel, w: World, v: Q.View<seq<Device>>, launch: Q.Launch<seq<Device>>)
    requires Good(kernel, w, v) && Enabled(w, Job(launch))
    ensures Manned(RunJob(w, launch))
  {
    hide Q.Shape, Quiet, LogOk, NumbersOk, WorkersOk, Q.JobDone, Q.CanSettle;
    var u, t := Q.ViewStep(v, Q.JobStep(launch)), RunJob(w, launch);
    Q.StepShape(w.queue, v, Q.JobStep(launch));
    Q.JobsRun(w.queue, v);
    JobEffect(w.queue, v, launch);
    forall k: nat | Q.CanSettle(t.queue, Q.Native(k))
      ensures k in t.workers
    {
      Q.PendingNative(t.queue, u, k);
      Q.PendingNative(w.queue, v, k);
    }
  }

  lemma {:induction false} JobEffect(s: Q.State<seq<Device>>, v: Q.View<seq<Device>>, launch: Q.Launch<seq<Device>>)
    requires Q.Shape(s, v) && Q.JobReady(s)
    ensures Q.JobDone(s, launch).calls == s.calls
    ensures s.jobs[0].React? && s.jobs[0].reaction.callback.RunTask? <==> v.phase.Ready?
    ensures v.phase.Ready? ==> s.jobs[0].reaction.callback.k == v.Head() < s.calls
    ensures Q.JobDone(s, launch).log == s.log
      || (exists k :: Q.JobDone(s, launch).log == s.log + [Q.Started(k)])
      || (launch.Returns? && exists k :: Q.JobDone(s, launch).log == s.log + [Q.Started(k), Q.Ended(k, launch.outcome)])
      || (launch.Throws? && exists k :: Q.JobDone(s, launch).log == s.log + [Q.Started(k), Q.Ended(k, Q.Rejected(launch.error))])
  {
    hide Q.HeapShape, Q.LogOf;
  }

  lemma {:induction false} NewEvents(kernel: Kernel, w: World, v: Q.View<seq<Device>>, launch: Q.Launch<seq<Device>>, e: Q.Event<seq<Device>>)
    requires Good(kernel, w, v) && Enabled(w, Job(launch)) && e in RunJob(w, launch).queue.log
    ensures EventOk(kernel, w.sent, w.calls, e)
  {
    hide Q.Shape, Quiet, WorkersOk, NumbersOk, Q.JobDone, AnswerOk, Q.JobReady;
    JobEffect(w.queue, v, launch);
    if e in w.queue.log {
      var i :| 0 <= i < |w.queue.log| && w.queue.log[i] == e;
      assert EventOk(kernel, w.sent, w.calls, w.queue.log[i]);
    }
  }

  lemma {:induction false} JobWorkers(kernel: Kernel, w: World, v: Q.View<seq<Device>>, launch: Q.Launch<seq<Device>>, k: nat)
    requires Good(kernel, w, v) && Enabled(w, Job(launch)) && k in RunJob(w, launch).workers
    ensures Q.CanSettle(RunJob(w, launch).queue, Q.Native(k)) && k < |w.calls|
    ensures WorkerOk(kernel, w.sent, w.sock.inbox, k, w.calls[k], RunJob(w, launch).workers[k])
  {
    hide Q.Shape, Quiet, LogOk, NumbersOk, Q.JobDone, Answered, Answer, StageOk, Q.CanSettle;
    var u, t := Q.ViewStep(v, Q.JobStep(launch)), RunJob(w, launch);
    Q.StepShape(w.queue, v, Q.JobStep(launch));
    Q.JobsRun(w.queue, v);
    JobEffect(w.queue, v, launch);
    Q.PendingNative(t.queue, u, k);
    if k in w.workers {
      OneWorker(kernel, w, v, k);
    } else {
      FreshWorker(kernel, w.sent, w.sock.inbox, k, w.calls[k]);
    }
  }

  lemma {:induction false} FreshWorker(kernel: Kernel, sent: map<(nat, nat), Sent>, inbox: seq<Recv>, k: nat, asks: seq<Ask>)
    ensures WorkerOk(kernel, sent, inbox, k, asks, Worker(0, [], Next))
  {
  }

  // ----- a native call ends -----

  lemma {:induction false} NoneLeft(t: Q.State<seq<Device>>, v: Q.View<seq<Device>>, k: nat, x: Q.Settlement<seq<Device>>)
    requires v.phase.InFlight? || v.phase == Q.Following(None)
    requires Q.Shape(t, Q.ViewStep(v, Q.SettleStep(k, x)))
    ensures forall j: nat :: !Q.CanSettle(t, Q.Native(j))
  {
    hide Q.Shape, Q.CanSettle;
    forall j: nat
      ensures !Q.CanSettle(t, Q.Native(j))
    {
      Q.PendingNative(t, Q.ViewStep(v, Q.SettleStep(k, x)), j);
    }
  }

  lemma {:induction false} FinishGood(kernel: Kernel, w: World, v: Q.View<seq<Device>>, k: nat)
    requires Good(kernel, w, v) && Enabled(w, Finish(k))
    ensures Good(kernel, Apply(kernel, w, Finish(k)), Q.ViewStep(v, Q.SettleStep(k, w.workers[k].stage.outcome)))
  {
    hide Q.Shape, Quiet, NumbersOk, Q.ViewStep, Answered, Answer;
    OneWorker(kernel, w, v, k);
    var x, t := w.workers[k].stage.outcome, Apply(kernel, w, Finish(k));
    Q.SettleShape(w.queue, v, k, x);
    assert w.calls[k][..|w.calls[k]|] == w.calls[k];
    assert t.queue.log == w.queue.log + [Q.Ended(k, x)];
    assert t.workers == map[];
    NoneLeft(t.queue, v, k, x);
    forall i | 0 <= i < |t.queue.log|
      ensures EventOk(kernel, t.sent, t.calls, t.queue.log[i])
    {
      if i < |w.queue.log| {
        assert EventOk(kernel, w.sent, w.calls, w.queue.log[i]);
      }
    }
  }

  // ----- a socket operation -----

  lemma {:induction false} QuietTail(inbox: seq<Recv>, seqno: u32, pid: u32)
    requires inbox != [] && Quiet(inbox, seqno, pid)
    ensures Quiet(inbox[1..], seqno, pid)
  {
    hide Foreign;
    forall q: u32 | q > seqno
      ensures Foreign(inbox[1..], q, pid)
    {
      ForeignTail(inbox, 1, q, pid);
    }
  }

  lemma {:induction false} QuietSend(inbox: seq<Recv>, replies: seq<Recv>, seqno: u32, next: u32, pid: u32)
    requires Quiet(inbox, seqno, pid) && next > seqno && RepliesTo(replies, next, pid)
    ensures Quiet(inbox + replies, next, pid)
  {
    hide Foreign, RepliesTo;
    forall q: u32 | q > next
      ensures Foreign(inbox + replies, q, pid)
    {
      RepliesForeign(replies, next, q, pid);
      ForeignAppend(inbox, replies, q, pid);
    }
  }

  lemma {:induction false} BreakFails(events: seq<Recv>)
    requires !Datagrams(events) && NoEmpty(events)
    ensures FirstBreak(events).Failed?
    decreases |events|
  {
    if !Breaks(events[0]) {
      DatagramsStep(events);
      assert forall i :: 0 <= i < |events| - 1 ==> events[1..][i] == events[i + 1];
      BreakFails(events[1..]);
    }
  }

  lemma {:induction false} DatagramsNotEmpty(events: seq<Recv>)
    requires Datagrams(events)
    ensures NoEmpty(events)
  {
  }

  lemma {:induction false} TrackStart(kernel: Kernel, inbox: seq<Recv>, seqno: u32, q: u32)
    requires Quiet(inbox, seqno, kernel.pid) && q > seqno
    ensures Tracks(kernel, inbox + kernel.replies(q), Sent(q, inbox), [])
  {
    hide Receive, Foreign, Datagrams, FirstBreak, NoEmpty;
    Leftovers(inbox, kernel.replies(q), q, kernel.pid, All, []);
    if Datagrams(inbox) {
      DatagramsNotEmpty(inbox);
    } else if NoEmpty(inbox) {
      BreakFails(inbox);
    }
  }

  lemma {:induction false} TrackStep(kernel: Kernel, inbox: seq<Recv>, s: Sent, trace: seq<Msg>)
    requires inbox != [] && Tracks(kernel, inbox, s, trace)
    ensures var p := RecvOne(inbox[0], s.number, kernel.pid, All, trace);
      && (p.More? ==> Tracks(kernel, inbox[1..], s, p.trace))
      && (p.Done? && !p.outcome.Failed? ==> Completes(kernel, s) && p.trace == Heard(kernel, s))
  {
    hide RecvOne, Receive, Heard, Completes;
    ReceiveStep(inbox, s.number, kernel.pid, All, trace);
    RecvEnds(inbox[0], s.number, kernel.pid, All, trace);
  }

  /** Replacing the one worker, with whatever went with it, keeps the invariant. */
  lemma {:induction false} ReplaceWorker(kernel: Kernel, w: World, v: Q.View<seq<Device>>, k: nat, t: World)
    requires Good(kernel, w, v) && k in w.workers && k < |w.calls|
    requires t.queue == w.queue && t.calls == w.calls && k in t.workers && t.workers == w.workers[k := t.workers[k]]
    requires t.sends < 0x1_0000_0000 && t.sock.seqno == t.sends && Quiet(t.sock.inbox, t.sock.seqno, kernel.pid)
    requires WorkerOk(kernel, t.sent, t.sock.inbox, k, t.calls[k], t.workers[k])
    requires LogOk(kernel, t.sent, t.calls, t.queue.log) && NumbersOk(t.sent, t.sock.seqno)
    ensures Good(kernel, t, v)
  {
    hide Q.Shape, Quiet, WorkerOk, LogOk, NumbersOk, Q.CanSettle;
    OneWorker(kernel, w, v, k);
  }

  lemma {:induction false} NumberTaken(sent: map<(nat, nat), Sent>, seqno: u32, q: u32, unread: seq<Recv>, a: (nat, nat))
    requires NumbersOk(sent, seqno) && q > seqno
    ensures NumbersOk(sent[a := Sent(q, unread)], q) && NumbersOk(sent, q)
  {
  }

  lemma {:induction false} SendGood(kernel: Kernel, w: World, v: Q.View<seq<Device>>, k: nat, refused: Option<Error>)
    requires Honest(kernel) && Good(kernel, w, v) && CanWork(w, k) && w.sends + 1 < 0x1_0000_0000
    requires w.workers[k].stage.Next? && w.workers[k].answered < |w.calls[k]|
    ensures Good(kernel, Send(kernel, w, k, refused), v)
  {
    hide Q.Shape, WorkersOk, LogOk, NumbersOk, Answered, Answer, Tracks, Quiet, RepliesTo;
    OneWorker(kernel, w, v, k);
    var wk, q, t := w.workers[k], SeqAt(w.sock.seqno, 1), Send(kernel, w, k, refused);
    assert q == w.sends + 1 > w.sock.seqno;
    NumberTaken(w.sent, w.sock.seqno, q, w.sock.inbox, (k, wk.answered));
    QuietLater(w.sock.inbox, w.sock.seqno, q, kernel.pid);
    QuietSend(w.sock.inbox, kernel.replies(q), w.sock.seqno, q, kernel.pid);
    if refused.None? && w.sock.familyId != 0 {
      TrackStart(kernel, w.sock.inbox, w.sock.seqno, q);
      NumberedWorker(kernel, w.sent, w.sock.inbox, t.sock.inbox, k, w.calls[k], wk, Sent(q, w.sock.inbox));
      GoodSafe(kernel, w, v);
      EndedEarlier(w.queue, k);
      EventFrame(kernel, w.sent, w.calls, w.queue.log, k, wk.answered, Sent(q, w.sock.inbox));
    }
    ReplaceWorker(kernel, w, v, k, t);
  }

  lemma {:induction false} QuietLater(inbox: seq<Recv>, seqno: u32, later: u32, pid: u32)
    requires Quiet(inbox, seqno, pid) && later > seqno
    ensures Quiet(inbox, later, pid)
  {
    hide Foreign;
  }

  lemma {:induction false} GoodSafe(kernel: Kernel, w: World, v: Q.View<seq<Device>>)
    requires Good(kernel, w, v)
    ensures Q.Safe(w.queue)
  {
    hide Q.Shape, Q.Safe, Quiet, WorkersOk, LogOk, NumbersOk;
    Q.ShapeSafe(w.queue, v);
  }

  lemma {:induction false} NumberedWorker(kernel: Kernel, sent: map<(nat, nat), Sent>, inbox: seq<Recv>, inbox2: seq<Recv>,
      k: nat, asks: seq<Ask>, wk: Worker, s: Sent)
    requires WorkerOk(kernel, sent, inbox, k, asks, wk) && wk.answered < |asks| && Tracks(kernel, inbox2, s, [])
    ensures WorkerOk(kernel, sent[(k, wk.answered) := s], inbox2, k, asks, wk.(stage := AwaitReply(s.number, [])))
  {
    hide Heard, Completes, Reads, Tracks;
    AnswerFrame(kernel, sent, sent[(k, wk.answered) := s], k, asks[..wk.answered]);
  }

  /** The reply is complete: its device joins the others. */
  lemma {:induction false} ReplyGood(kernel: Kernel, sent: map<(nat, nat), Sent>, inbox: seq<Recv>, inbox2: seq<Recv>,
      k: nat, asks: seq<Ask>, wk: Worker, trace: seq<Msg>)
    requires WorkerOk(kernel, sent, inbox, k, asks, wk) && wk.stage.AwaitReply?
    requires Completes(kernel, sent[(k, wk.answered)]) && Heard(kernel, sent[(k, wk.answered)]) == trace
    ensures WorkerOk(kernel, sent, inbox2, k, asks, Worker(wk.answered + 1, wk.devices + Reads(asks[wk.answered], trace), Next))
  {
    hide Heard, Completes, Reads, Tracks;
    AnswerPrefix(kernel, sent, k, asks, wk.answered);
  }

  lemma {:induction false} RecvGood(kernel: Kernel, w: World, v: Q.View<seq<Device>>, k: nat)
    requires Good(kernel, w, v) && CanWork(w, k) && (w.workers[k].stage.AwaitFamily? || w.workers[k].stage.AwaitReply?)
    ensures Good(kernel, Work(kernel, w, k, None), v)
  {
    hide Q.Shape, WorkersOk, LogOk, NumbersOk, Answered, Answer, Tracks, Quiet, RecvOne, Heard, Completes, Reads, FamilyIdOf;
    OneWorker(kernel, w, v, k);
    QuietTail(w.sock.inbox, w.sock.seqno, kernel.pid);
    var wk, t := w.workers[k], Work(kernel, w, k, None);
    if wk.stage.AwaitReply? {
      TrackStep(kernel, w.sock.inbox, w.sent[(k, wk.answered)], wk.stage.trace);
      var p := RecvOne(w.sock.inbox[0], wk.stage.seqno, kernel.pid, All, wk.stage.trace);
      if p.Done? && !p.outcome.Failed? {
        ReplyGood(kernel, w.sent, w.sock.inbox, t.sock.inbox, k, w.calls[k], wk, p.trace);
      }
    }
    ReplaceWorker(kernel, w, v, k, t);
  }

  lemma {:induction false} WorkGood(kernel: Kernel, w: World, v: Q.View<seq<Device>>, k: nat, refused: Option<Error>)
    requires Honest(kernel) && Good(kernel, w, v) && CanWork(w, k) && Work(kernel, w, k, refused).sends < 0x1_0000_0000
    ensures Good(kernel, Work(kernel, w, k, refused), v)
  {
    hide Q.Shape, WorkersOk, LogOk, NumbersOk, Answered, Answer, Tracks, Quiet, RecvOne, Heard, Completes, Reads, FamilyIdOf, Honest;
    OneWorker(kernel, w, v, k);
    var wk := w.workers[k];
    if !wk.stage.Next? {
      RecvGood(kernel, w, v, k);
    } else if wk.answered < |w.calls[k]| {
      SendGood(kernel, w, v, k, refused);
    } else {
      ReplaceWorker(kernel, w, v, k, Work(kernel, w, k, refused));
    }
  }

  // ----- every run -----

  lemma {:induction false} StartGood(kernel: Kernel)
    ensures Good(kernel, Start(), Q.ViewAfter([]))
  {
    hide Q.Shape;
    Q.ShapeInit<seq<Device>>();
  }

  lemma {:induction false} StepGood(kernel: Kernel, w: World, v: Q.View<seq<Device>>, step: Step) returns (u: Q.View<seq<Device>>)
    requires Honest(kernel) && Good(kernel, w, v) && Enabled(w, step) && Apply(kernel, w, step).sends < 0x1_0000_0000
    ensures Good(kernel, Apply(kernel, w, step), u)
  {
    hide Good, Honest, Q.ViewStep, Work;
    match step
    case Call(asks) =>
      CallGood(kernel, w, v, asks);
      u := Q.ViewStep(v, Q.EnqueueStep);
    case Job(launch) =>
      JobGood(kernel, w, v, launch);
      u := Q.ViewStep(v, Q.JobStep(launch));
    case Socket(k, refused) =>
      WorkGood(kernel, w, v, k, refused);
      u := v;
    case Finish(k) =>
      FinishGood(kernel, w, v, k);
      u := Q.ViewStep(v, Q.SettleStep(k, w.workers[k].stage.outcome));
  }

  lemma {:induction false} SendsGrow(kernel: Kernel, w: World, step: Step)
    requires Enabled(w, step)
    ensures w.sends <= Apply(kernel, w, step).sends
  {
    hide RecvOne, Q.Enqueued, Q.JobDone, Q.NativeSettled, Reads, FamilyIdOf;
  }

  lemma {:induction false} RunGood(kernel: Kernel, steps: seq<Step>) returns (v: Q.View<seq<Device>>)
    requires Honest(kernel) && After(kernel, steps).Some? && After(kernel, steps).value.sends < 0x1_0000_0000
    ensures Good(kernel, After(kernel, steps).value, v)
    decreases |steps|
  {
    hide Good, Honest, Apply, Enabled;
    if steps == [] {
      StartGood(kernel);
      v := Q.ViewAfter([]);
    } else {
      var n := |steps| - 1;
      var w := After(kernel, steps[..n]).value;
      SendsGrow(kernel, w, steps[n]);
      var u := RunGood(kernel, steps[..n]);
      v := StepGood(kernel, w, u, steps[n]);
    }
  }

  /** Progress of the whole: while a caller waits, some step other than a new call is enabled,
      unless the one native call in flight waits for the kernel to send something. */
  lemma {:induction false} WorldProgress(kernel: Kernel, steps: seq<Step>, k: nat)
    requires Honest(kernel) && After(kernel, steps).Some? && After(kernel, steps).value.sends < 0x1_0000_0000
    requires k < After(kernel, steps).value.queue.calls && !Q.CallerSettled(After(kernel, steps).value.queue, k)
    ensures var w := After(kernel, steps).value;
      || Enabled(w, Job(Q.Pends))
      || exists j: nat :: j in w.workers && (
           || Enabled(w, Finish(j)) || Enabled(w, Socket(j, None)) || Enabled(w, Socket(j, Some(InvalidArgument)))
           || (w.sock.inbox == [] && (w.workers[j].stage.AwaitFamily? || w.workers[j].stage.AwaitReply?)))
  {
    hide Honest, Quiet, LogOk, NumbersOk, Q.Shape, Q.CallerSettled, Answered, Answer, Tracks, Q.CanSettle, Q.JobReady, After;
    var v := RunGood(kernel, steps);
    var w := After(kernel, steps).value;
    Q.ShapeLog(w.queue, v);
    Q.JobsRun(w.queue, v);
    if k < v.Head() {
      Q.EarlierSettled(w.queue, v, k);
    } else if v.phase.InFlight? {
      var j := v.Head();
      Q.PendingNative(w.queue, v, j);
      assert j in w.workers;
      OneWorker(kernel, w, v, j);
      assert RefusedEither(w, j);
    }
  }

  /** Building and sending may succeed, or the interface name is refused. */
  predicate RefusedEither(w: World, k: nat) {
    CanWork(w, k) ==> RefusedRightly(w, k, None) || RefusedRightly(w, k, Some(InvalidArgument))
  }

  // ----- one request in small steps and in one -----

  predicate Awaits(stage: Stage) {
    stage.AwaitFamily? || stage.AwaitReply?
  }

  predicate Employed(w: World, k: nat) {
    && k in w.workers && k < |w.calls| && w.workers[k].answered <= |w.calls[k]|
    && (w.workers[k].stage.AwaitReply? ==> w.workers[k].answered < |w.calls[k]|)
  }

  /** Receiving for as long as the call waits and the inbox lasts. */
  function Drain(kernel: Kernel, w: World, k: nat): World
    requires Employed(w, k)
    decreases |w.sock.inbox|
  {
    if Awaits(w.workers[k].stage) && w.sock.inbox != [] then Drain(kernel, Work(kernel, w, k, None), k) else w
  }

  /** The socket operations of one request, from `Next`: the family lookup, if it is not cached,
      then the request itself. */
  function Turn(kernel: Kernel, w: World, k: nat, first: Option<Error>, second: Option<Error>): World
    requires Employed(w, k) && w.workers[k].stage.Next? && w.workers[k].answered < |w.calls[k]|
  {
    if w.sock.familyId != 0 then Drain(kernel, Work(kernel, w, k, second), k)
    else
      var found := Drain(kernel, Work(kernel, w, k, first), k);
      DrainFamily(kernel, Work(kernel, w, k, first), k);
      if found.workers[k].stage.Next? then Drain(kernel, Work(kernel, found, k, second), k) else found
  }

  /** The worker and socket once a reply came to an end, or the inbox did. */
  function Replied(w: World, k: nat, q: u32, r: Received): World
    requires k in w.workers && k < |w.calls| && w.workers[k].answered < |w.calls[k]|
  {
    var wk := w.workers[k];
    var after :=
      match r.outcome
      case Completed => Worker(wk.answered + 1, wk.devices + Reads(w.calls[k][wk.answered], r.trace), Next)
      case Failed(e) => wk.(stage := Over(Q.Rejected(e)))
      case Waiting => wk.(stage := AwaitReply(q, r.trace));
    Put(w, k, after).(sock := w.sock.(inbox := r.rest))
  }

  /** The same for the family lookup. */
  function Found(w: World, k: nat, q: u32, r: Received): World
    requires k in w.workers
  {
    var wk, id := w.workers[k], FamilyIdOf(r.trace);
    var stage :=
      match r.outcome
      case Completed => if id == 0 then Over(Q.Rejected(SystemError(ENODEV))) else Next
      case Failed(e) => Over(Q.Rejected(e))
      case Waiting => AwaitFamily(q, r.trace);
    var sock := w.sock.(inbox := r.rest);
    Put(w, k, wk.(stage := stage)).(sock := if r.outcome == Completed && id != 0 then sock.(familyId := id) else sock)
  }

  lemma {:induction false} SameWorker(w: World, k: nat, wk: Worker)
    requires k in w.workers
    ensures w.workers[k := w.workers[k]] == w.workers
    ensures w.workers[k := wk][k := w.workers[k]] == w.workers
  {
  }

  lemma {:induction false} DrainReply(kernel: Kernel, w: World, k: nat)
    requires Employed(w, k) && w.workers[k].stage.AwaitReply?
    ensures var q, t := w.workers[k].stage.seqno, w.workers[k].stage.trace;
      Drain(kernel, w, k) == Replied(w, k, q, Receive(w.sock.inbox, q, kernel.pid, All, t))
    decreases |w.sock.inbox|
  {
    hide RecvOne, Receive, Reads, Read, FamilyIdOf;
    var wk := w.workers[k];
    var q, t, inbox := wk.stage.seqno, wk.stage.trace, w.sock.inbox;
    SameWorker(w, k, wk);
    if inbox == [] {
      ReceiveNothing(q, kernel.pid, All, t);
    } else {
      ReceiveStep(inbox, q, kernel.pid, All, t);
      RecvEnds(inbox[0], q, kernel.pid, All, t);
      var p := RecvOne(inbox[0], q, kernel.pid, All, t);
      if p.More? {
        SameWorker(w, k, wk.(stage := AwaitReply(q, p.trace)));
        DrainReply(kernel, Work(kernel, w, k, None), k);
      }
    }
  }

  lemma {:induction false} DrainFamily(kernel: Kernel, w: World, k: nat)
    requires Employed(w, k)
    ensures w.workers[k].stage.AwaitFamily? ==>
      Drain(kernel, w, k) == Found(w, k, w.workers[k].stage.seqno,
        Receive(w.sock.inbox, w.workers[k].stage.seqno, kernel.pid, All, w.workers[k].stage.trace))
    ensures !Awaits(w.workers[k].stage) ==> Drain(kernel, w, k) == w
    decreases |w.sock.inbox|
  {
    hide RecvOne, Receive, Reads, Read, FamilyIdOf;
    var wk := w.workers[k];
    if wk.stage.AwaitFamily? {
      var q, t, inbox := wk.stage.seqno, wk.stage.trace, w.sock.inbox;
      SameWorker(w, k, wk);
      if inbox == [] {
        ReceiveNothing(q, kernel.pid, All, t);
      } else {
        ReceiveStep(inbox, q, kernel.pid, All, t);
        RecvEnds(inbox[0], q, kernel.pid, All, t);
        var p := RecvOne(inbox[0], q, kernel.pid, All, t);
        if p.More? {
          SameWorker(w, k, wk.(stage := AwaitFamily(q, p.trace)));
          DrainFamily(kernel, Work(kernel, w, k, None), k);
        }
      }
    }
  }

  function ErrorOf(sendError: Option<int>): Option<Error> {
    match sendError
    case None => None
    case Some(errno) => Some(SystemError(errno))
  }

  /** The number a request takes after the lookup it may need. */
  function RequestNumber(s: Sock): u32 {
    if s.familyId != 0 then SeqAt(s.seqno, 1) else SeqAt(SeqAt(s.seqno, 1), 1)
  }

  /** What the worker has done when one request went as `f` says. */
  predicate Did(w: World, k: nat, t: World, f: Transacted)
    requires Employed(w, k) && w.workers[k].answered < |w.calls[k]| && k in t.workers
  {
    var wk, after := w.workers[k], t.workers[k];
    t.sock == f.sock &&
    match f.outcome
    case Completed => after == Worker(wk.answered + 1, wk.devices + Reads(w.calls[k][wk.answered], f.trace), Next)
    case Failed(e) => after == wk.(stage := Over(Q.Rejected(e)))
    case Waiting => Awaits(after.stage) && after.(stage := Next) == wk.(stage := Next) && t.sock.inbox == []
  }

  /** The request itself, once the family is known. */
  lemma {:induction false} RequestIsTransact(kernel: Kernel, w: World, k: nat, builds: bool, x: Exchange)
    requires Employed(w, k) && w.workers[k].stage.Next? && w.workers[k].answered < |w.calls[k]| && w.sock.familyId != 0
    requires x.replies == kernel.replies(SeqAt(w.sock.seqno, 1))
    ensures var second := if builds then ErrorOf(x.sendError) else Some(InvalidArgument);
            var t := Drain(kernel, Work(kernel, w, k, second), k);
      k in t.workers && Did(w, k, t, if builds then Transact(w.sock, kernel.pid, x, All)
                                     else Transacted(w.sock.(seqno := SeqAt(w.sock.seqno, 1)), Failed(InvalidArgument), []))
  {
    hide Receive, RecvOne, Reads, Read, FamilyIdOf, SeqAt;
    var second := if builds then ErrorOf(x.sendError) else Some(InvalidArgument);
    var w1 := Work(kernel, w, k, second);
    DrainFamily(kernel, w1, k);
    if second.None? {
      DrainReply(kernel, w1, k);
      WaitingDrains(w1.sock.inbox, SeqAt(w.sock.seqno, 1), kernel.pid, All, []);
    }
  }

  lemma {:induction false} WaitingDrains(events: seq<Recv>, q: u32, pid: u32, goOn: Handler, trace: seq<Msg>)
    ensures Receive(events, q, pid, goOn, trace).outcome == Waiting ==> Receive(events, q, pid, goOn, trace).rest == []
    decreases |events|
  {
    hide RecvOne, Receive;
    if events == [] {
      ReceiveNothing(q, pid, goOn, trace);
    } else {
      ReceiveStep(events, q, pid, goOn, trace);
      RecvEnds(events[0], q, pid, goOn, trace);
      WaitingDrains(events[1..], q, pid, goOn, RecvOne(events[0], q, pid, goOn, trace).trace);
    }
  }

  /** The family lookup of a request. */
  lemma {:induction false} LookupIsTransact(kernel: Kernel, w: World, k: nat, lookup: Exchange)
    requires Employed(w, k) && w.workers[k].stage.Next? && w.workers[k].answered < |w.calls[k]| && w.sock.familyId == 0
    requires lookup.replies == kernel.replies(SeqAt(w.sock.seqno, 1))
    ensures Employed(Work(kernel, w, k, ErrorOf(lookup.sendError)), k)
    ensures var t := Drain(kernel, Work(kernel, w, k, ErrorOf(lookup.sendError)), k);
            var f := LookUp(w.sock, kernel.pid, lookup);
      && Employed(t, k) && t.calls == w.calls && t.sock == f.sock
      && match f.outcome
         case Completed => t.workers[k] == w.workers[k] && t.sock.familyId != 0
         case Failed(e) => t.workers[k] == w.workers[k].(stage := Over(Q.Rejected(e)))
         case Waiting => t.workers[k].stage.AwaitFamily? && t.workers[k].(stage := Next) == w.workers[k] && t.sock.inbox == []
  {
    hide Receive, RecvOne, Reads, Read, FamilyIdOf, SeqAt;
    var w1 := Work(kernel, w, k, ErrorOf(lookup.sendError));
    DrainFamily(kernel, w1, k);
    if lookup.sendError.None? {
      WaitingDrains(w1.sock.inbox, SeqAt(w.sock.seqno, 1), kernel.pid, All, []);
    }
  }

  /** The worker's small steps refine the call of one request: from `Next`, and while the inbox
      lasts, its socket operations compute `Submit`, which the methods of the client carry out. */
  lemma {:induction false} TurnIsSubmit(kernel: Kernel, w: World, k: nat, builds: bool, lookup: Exchange, x: Exchange)
    requires Employed(w, k) && w.workers[k].stage.Next? && w.workers[k].answered < |w.calls[k]|
    requires lookup.replies == kernel.replies(SeqAt(w.sock.seqno, 1))
    requires x.replies == kernel.replies(RequestNumber(w.sock))
    ensures var second := if builds then ErrorOf(x.sendError) else Some(InvalidArgument);
            var t := Turn(kernel, w, k, ErrorOf(lookup.sendError), second);
            k in t.workers && Did(w, k, t, Submit(w.sock, kernel.pid, builds, lookup, x))
  {
    hide Work, Drain, Receive, Reads, FamilyIdOf, SeqAt, LookUp, Transact;
    if w.sock.familyId != 0 {
      KnownFamilyLooksUp(w.sock, kernel.pid, lookup);
      RequestIsTransact(kernel, w, k, builds, x);
    } else {
      LookupIsTransact(kernel, w, k, lookup);
      LookUpNumber(w.sock, kernel.pid, lookup);
      var found := Drain(kernel, Work(kernel, w, k, ErrorOf(lookup.sendError)), k);
      if LookUp(w.sock, kernel.pid, lookup).outcome == Completed {
        RequestIsTransact(kernel, found, k, builds, x);
      }
    }
  }

  lemma {:induction false} KnownFamilyLooksUp(s: Sock, pid: u32, x: Exchange)
    requires s.familyId != 0
    ensures LookUp(s, pid, x) == Transacted(s, Completed, [])
  {
  }

  lemma {:induction false} LookUpNumber(s: Sock, pid: u32, x: Exchange)
    requires s.familyId == 0
    ensures LookUp(s, pid, x).sock.seqno == SeqAt(s.seqno, 1)
  {
    hide Receive, FamilyIdOf;
  }

  // ----- where a call reads nothing -----

  lemma {:induction false} LookupLeavesEmpty(pid: u32)
    ensures var lookup := Exchange(None, [Datagram(FamilyReply(1, pid)), Datagram([])]);
      && RepliesTo(lookup.replies, 1, pid)
      && LookUp(Sock(0, 0, []), pid, lookup) == Transacted(Sock(1, 30, [Datagram([])]), Completed, [FamilyMessage(1, pid)])
  {
    hide FamilyReply, Messages, Receive, FamilyIdOf, Multi;
    var b, left := FamilyReply(1, pid), [Datagram([])];
    var lookup := Exchange(None, [Datagram(b), Datagram([])]);
    FamilyReplyMessage(1, pid);
    NotMulti(Messages(b)[0]);
    EndsAtSingleReply(b, left, 1, pid);
    NoMessages();
    assert [] + lookup.replies == lookup.replies == [Datagram(b)] + left;
  }

  lemma {:induction false} EmptyEndsRequest(q: u32, pid: u32, replies: seq<Recv>)
    ensures Receive([Datagram([])] + replies, q, pid, All, []) == Received(Completed, [], replies)
  {
    hide Receive, Scan;
    var events := [Datagram([])] + replies;
    assert events[0] == Datagram([]) && events[1..] == replies;
    ReceiveStep(events, q, pid, All, []);
  }

  /** The failing case: on a fresh socket the lookup is answered in one datagram and an empty
      datagram follows it. Whatever the kernel then answers to the request, the device read is
      blank. All of it is honest. */
  lemma {:induction false} EmptyDatagramBlanks(pid: u32, x: Exchange, name: string)
    requires x.sendError.None?
    ensures var lookup := Exchange(None, [Datagram(FamilyReply(1, pid)), Datagram([])]);
            var f := Submit(Sock(0, 0, []), pid, true, lookup, x);
      && RepliesTo(lookup.replies, 1, pid)
      && f.outcome == Completed && f.trace == [] && Read(name, f.trace) == BlankDevice(name, false)
  {
    hide FamilyReply, Receive, LookUp, Read, RepliesTo;
    LookupLeavesEmpty(pid);
    EmptyEndsRequest(2, pid, x.replies);
    ReadNothing(name);
  }

  lemma {:induction false} NotMulti(m: Msg)
    requires m.flags == 0
    ensures !Multi(m)
  {
  }

  // ----- what callers see -----

  /** End to end: in every run that takes fewer than 2^32 sequence numbers, a call that resolves
      resolves to the devices read from the replies to its own requests, each taken as a
      transaction of its own, and no two requests were numbered alike. The one exception is a
      request sent while a zero-length datagram stood unread: it reads nothing at all. */
  lemma {:induction false} CallsGetOwnReplies(kernel: Kernel, steps: seq<Step>, k: nat, devices: seq<Device>)
    requires Honest(kernel) && After(kernel, steps).Some? && After(kernel, steps).value.sends < 0x1_0000_0000
    requires Q.CallerSees(After(kernel, steps).value.queue, k, Q.Fulfilled(devices))
    ensures var w := After(kernel, steps).value;
      && AnswerOk(kernel, w.sent, w.calls, k, devices)
      && NumbersOk(w.sent, w.sock.seqno)
      && Q.Safe(w.queue)
  {
    hide Honest, Good, NumbersOk, AnswerOk, Q.CallerSees, Q.Safe, After;
    var v := RunGood(kernel, steps);
    var w := After(kernel, steps).value;
    GoodSafe(kernel, w, v);
    FulfilledAnswer(kernel, w, v, k, devices);
  }

  lemma {:induction false} FulfilledAnswer(kernel: Kernel, w: World, v: Q.View<seq<Device>>, k: nat, devices: seq<Device>)
    requires Good(kernel, w, v) && Q.Safe(w.queue) && Q.CallerSees(w.queue, k, Q.Fulfilled(devices))
    ensures AnswerOk(kernel, w.sent, w.calls, k, devices) && NumbersOk(w.sent, w.sock.seqno)
  {
    hide Quiet, WorkersOk, NumbersOk, AnswerOk, Q.Shape, Q.CallerSees, Q.Serial, Manned;
    assert w.queue.log[2 * k + 1] == Q.Ended(k, Q.Fulfilled(devices));
    assert EventOk(kernel, w.sent, w.calls, w.queue.log[2 * k + 1]);
  }

  /** A device(name) call that resolves gives the one device assembled from its own replies, or a
      blank one if a zero-length datagram stood unread when its request was sent. */
  lemma {:induction false} DeviceCall(kernel: Kernel, steps: seq<Step>, k: nat, name: string, devices: seq<Device>)
    requires Honest(kernel) && After(kernel, steps).Some? && After(kernel, steps).value.sends < 0x1_0000_0000
    requires k < |After(kernel, steps).value.calls| && After(kernel, steps).value.calls[k] == [GetDevice(name)]
    requires Q.CallerSees(After(kernel, steps).value.queue, k, Q.Fulfilled(devices))
    ensures (k, 0) in After(kernel, steps).value.sent
    ensures var s := After(kernel, steps).value.sent[(k, 0)];
      if NoEmpty(s.unread) then Served(kernel, s.number).outcome == Completed && devices == [Read(name, Served(kernel, s.number).trace)]
      else devices == [BlankDevice(name, false)]
  {
    hide Honest, NumbersOk, Q.CallerSees, Served, Read, NoEmpty, Q.Safe;
    CallsGetOwnReplies(kernel, steps, k, devices);
    var sent, asks := After(kernel, steps).value.sent, [GetDevice(name)];
    assert (k, 0) in sent;
    assert asks[..0] == [] && Answer(kernel, sent, k, asks[..0]) == [];
    assert Answer(kernel, sent, k, asks) == [] + Reads(asks[0], Heard(kernel, sent[(k, 0)]));
    ReadNothing(name);
  }

  lemma {:induction false} ReadNothing(name: string)
    ensures Read(name, []) == BlankDevice(name, false)
  {
    NothingFetched(name);
  }

  /** Messages of a dump of `d`: data, all multipart, the device fields in the first, the peers
      cut into entries in any way and the entries spread over the messages in any way. */
  ghost predicate Dump(ms: seq<Msg>, name: string, d: Device) {
    && (forall i :: 0 <= i < |ms| ==> !Terminator(ms[i]) && Multi(ms[i]))
    && ms != [] && AllOk(Payloads(ms))
    && Parsed(Payloads(ms)[0], BlankDevice(name, false)).(peers := []) == d.(peers := [])
    && (forall i :: 1 <= i < |ms| ==> PeersOnly(MessageAttrs(Payloads(ms)[i])))
    && NoNeighbours(d.peers) && IsCut(AllEntries(Payloads(ms)), d.peers)
  }

  /** Multipart messages that say a device, attribute by attribute, are a dump of it. */
  lemma {:induction false} ToldIsDump(ms: seq<Msg>, chunks: seq<seq<Peer>>, name: string, d: Device)
    requires forall i :: 0 <= i < |ms| ==> !Terminator(ms[i]) && Multi(ms[i])
    requires DumpTold(Payloads(ms), chunks, BlankDevice(name, false), d)
    requires NoNeighbours(d.peers) && IsCut(Concat(chunks), d.peers)
    ensures Dump(ms, name, d)
  {
    hide Terminator, Multi, Parsed, MessageAttrs, MessageOk, AllDeviceSay, DeviceKnown, EntriesTold, PeersOnly, NoNeighbours, IsCut, Concat, AllEntries;
    DumpTaken(Payloads(ms), chunks, BlankDevice(name, false), d);
  }

  /** A kernel that answers request `q` with a dump of `d` and an end-of-dump message, packed in any
      way, with anything addressed elsewhere in between. `front` are the datagrams up to the one
      with the end of the dump, where `later` may follow it; `back` is what comes behind: more
      datagrams, empty ones and failures included. */
  ghost predicate AnswersWith(kernel: Kernel, q: u32, front: seq<Recv>, back: seq<Recv>,
      ms: seq<Msg>, end: Msg, later: seq<Msg>, name: string, d: Device)
  {
    && kernel.replies(q) == front + back && Datagrams(front)
    && OwnOf(Flatten(front), q, kernel.pid) == ms + [end] + later
    && end.typ == NLMSG_DONE && Dump(ms, name, d)
  }

  /** Exactly the messages before the terminator are handed over. */
  lemma {:induction false} EndsAtDone(own: seq<Msg>, ms: seq<Msg>, end: Msg, later: seq<Msg>, n: nat, outcome: Option<Outcome>)
    requires own == ms + [end] + later && end.typ == NLMSG_DONE
    requires forall i :: 0 <= i < |ms| ==> !Terminator(ms[i]) && Multi(ms[i])
    requires HandsOver(own, n, All, outcome)
    ensures n == |ms| && outcome == Some(Completed)
  {
    hide Multi;
    assert forall i :: 0 <= i < |ms| ==> own[i] == ms[i];
    assert own[|ms|] == end;
    assert !GoesOn(own, |ms|, All);
  }

  lemma {:induction false} DumpServed(kernel: Kernel, q: u32, front: seq<Recv>, back: seq<Recv>,
      ms: seq<Msg>, end: Msg, later: seq<Msg>, name: string, d: Device)
    requires AnswersWith(kernel, q, front, back, ms, end, later, name, d)
    ensures Served(kernel, q).outcome == Completed && Served(kernel, q).trace == ms
    ensures Read(name, ms) == d
  {
    hide HandsOver, Receive, OwnOf, Flatten, Datagrams, Multi, AllOk, IsCut, NoNeighbours, PeersOnly, MessageAttrs, AllEntries, Parsed, Assemble;
    TransactionHandsOver(front, q, kernel.pid, All);
    var r, own := Receive(front, q, kernel.pid, All, []), OwnOf(Flatten(front), q, kernel.pid);
    EndsAtDone(own, ms, end, later, |r.trace|, if r.outcome == Waiting then None else Some(r.outcome));
    assert r.trace == own[..|ms|] == ms;
    EndsBefore(front, back, q, kernel.pid, All, []);
    ReassemblyInvertsCut(Payloads(ms), d, name);
  }

  /** A device(name) call whose request the kernel answers with a dump of `d` resolves, if it does,
      to exactly `d`: for any interleaving with other calls, any messages left on the socket, any
      packing into datagrams and any cut of the peers. It does so if and only if no zero-length
      datagram stood unread when the request was sent, unless `d` is blank anyway. */
  lemma {:induction false} DeviceCallReturnsDevice(kernel: Kernel, steps: seq<Step>, k: nat, name: string,
      front: seq<Recv>, back: seq<Recv>, ms: seq<Msg>, end: Msg, later: seq<Msg>, d: Device, devices: seq<Device>)
    requires Honest(kernel) && After(kernel, steps).Some? && After(kernel, steps).value.sends < 0x1_0000_0000
    requires k < |After(kernel, steps).value.calls| && After(kernel, steps).value.calls[k] == [GetDevice(name)]
    requires Q.CallerSees(After(kernel, steps).value.queue, k, Q.Fulfilled(devices))
    requires (k, 0) in After(kernel, steps).value.sent ==>
      AnswersWith(kernel, After(kernel, steps).value.sent[(k, 0)].number, front, back, ms, end, later, name, d)
    ensures (k, 0) in After(kernel, steps).value.sent
    ensures devices == [d] <==> NoEmpty(After(kernel, steps).value.sent[(k, 0)].unread) || d == BlankDevice(name, false)
  {
    hide Honest, AnswersWith, Served, Read, Q.CallerSees, After, NoEmpty;
    DeviceCall(kernel, steps, k, name, devices);
    DumpServed(kernel, After(kernel, steps).value.sent[(k, 0)].number, front, back, ms, end, later, name, d);
  }
}
