/** The promise chain that serialises native calls (lib/index.ts). Promises, their reactions and
    the job queue follow sections 27.2.1 and 27.2.5.4 of ECMA-262; enqueue calls, jobs and native
    settlements may come in any order the machine allows. */
module CallQueue {
  import opened Core

  // ----- promises -----

  /** Undefined is fulfilment with `undefined`. */
  datatype Settlement<V> = Fulfilled(value: V) | Undefined | Rejected(error: Error)

  /** Promises by what they are for: the queue before the k-th call, the promise handed to the
      k-th caller, and the one the k-th native call returned. */
  datatype Id = Queue(k: nat) | Result(k: nat) | Native(k: nat)

  /** The handler pairs used: `then(task, task)`, `then(() => undefined, () => undefined)`, and the
      resolving functions by which a promise follows another. */
  datatype Callback = RunTask(k: nat) | Forget | Adopt

  datatype Reaction = Reaction(callback: Callback, target: Id)

  datatype Promise<V> = Pending(reactions: seq<Reaction>) | Settled(settlement: Settlement<V>)

  /** Jobs of section 27.2.2: a reaction to run, or a thenable to follow. */
  datatype Job<V> = React(reaction: Reaction, argument: Settlement<V>) | Follow(thenable: Id, target: Id)

  datatype Event<V> = Started(k: nat) | Ended(k: nat, outcome: Settlement<V>)

  datatype State<V> = State(
    heap: map<Id, Promise<V>>,
    queue: Id,
    jobs: seq<Job<V>>,
    calls: nat,
    log: seq<Event<V>>)

  /** How calling a task goes: it returns a pending promise, a settled one, or throws. */
  datatype Launch<V> = Pends | Returns(outcome: Settlement<V>) | Throws(error: Error)

  function Init<V>(): State<V> {
    State(map[Queue(0) := Settled(Undefined)], Queue(0), [], 0, [])
  }

  function ReactionJobs<V>(rs: seq<Reaction>, v: Settlement<V>): seq<Job<V>> {
    seq(|rs|, i requires 0 <= i < |rs| => React(rs[i], v))
  }

  /** PerformPromiseThen. */
  function Then<V>(s: State<V>, p: Id, r: Reaction): State<V>
    requires p in s.heap
  {
    match s.heap[p]
    case Pending(rs) => s.(heap := s.heap[p := Pending(rs + [r])])
    case Settled(v) => s.(jobs := s.jobs + [React(r, v)])
  }

  /** FulfillPromise and RejectPromise. */
  function Settle<V>(s: State<V>, p: Id, v: Settlement<V>): State<V>
    requires p in s.heap && s.heap[p].Pending?
  {
    s.(heap := s.heap[p := Settled(v)], jobs := s.jobs + ReactionJobs(s.heap[p].reactions, v))
  }

  function Allocate<V>(s: State<V>, p: Id, v: Promise<V>): State<V> {
    s.(heap := s.heap[p := v])
  }

  // ----- the three kinds of step -----

  predicate Wired<V>(s: State<V>) {
    s.queue in s.heap
  }

  /** `enqueue`. */
  function Enqueued<V>(s: State<V>): State<V>
    requires Wired(s)
  {
    var k := s.calls;
    var s1 := Then(Allocate(s, Result(k), Pending([])), s.queue, Reaction(RunTask(k), Result(k)));
    var s2 := Allocate(s1, Queue(k + 1), Pending([]));
    assert Result(k) in s2.heap;
    Then(s2, Result(k), Reaction(Forget, Queue(k + 1))).(queue := Queue(k + 1), calls := k + 1)
  }

  predicate CanSettle<V>(s: State<V>, p: Id) {
    p in s.heap && s.heap[p].Pending?
  }

  predicate JobReady<V>(s: State<V>) {
    && s.jobs != []
    && match s.jobs[0]
       case React(r, _) => CanSettle(s, r.target)
       case Follow(n, _) => n in s.heap
  }

  /** Running the job at the head of the queue. */
  function JobDone<V>(s: State<V>, launch: Launch<V>): State<V>
    requires JobReady(s)
  {
    var job, popped := s.jobs[0], s.(jobs := s.jobs[1..]);
    match job
    case Follow(n, target) => Then(popped, n, Reaction(Adopt, target))
    case React(Reaction(Forget, target), _) => Settle(popped, target, Undefined)
    case React(Reaction(Adopt, target), v) => Settle(popped, target, v)
    case React(Reaction(RunTask(k), target), _) => StartTask(popped, k, target, launch)
  }

  function StartTask<V>(s: State<V>, k: nat, target: Id, launch: Launch<V>): State<V>
    requires CanSettle(s, target)
  {
    match launch
    case Pends =>
      Allocate(s, Native(k), Pending([])).(jobs := s.jobs + [Follow(Native(k), target)], log := s.log + [Started(k)])
    case Returns(v) =>
      Allocate(s, Native(k), Settled(v)).(jobs := s.jobs + [Follow(Native(k), target)], log := s.log + [Started(k), Ended(k, v)])
    case Throws(e) =>
      Settle(s.(log := s.log + [Started(k), Ended(k, Rejected(e))]), target, Rejected(e))
  }

  /** The native promise of call k settles. */
  function NativeSettled<V>(s: State<V>, k: nat, v: Settlement<V>): State<V>
    requires CanSettle(s, Native(k))
  {
    Settle(s.(log := s.log + [Ended(k, v)]), Native(k), v)
  }

  datatype Step<V> = EnqueueStep | JobStep(launch: Launch<V>) | SettleStep(k: nat, outcome: Settlement<V>)

  predicate Enabled<V>(s: State<V>, step: Step<V>) {
    match step
    case EnqueueStep => Wired(s)
    case JobStep(_) => JobReady(s)
    case SettleStep(k, _) => CanSettle(s, Native(k))
  }

  function Apply<V>(s: State<V>, step: Step<V>): State<V>
    requires Enabled(s, step)
  {
    match step
    case EnqueueStep => Enqueued(s)
    case JobStep(launch) => JobDone(s, launch)
    case SettleStep(k, v) => NativeSettled(s, k, v)
  }

  /** The state after a run, if every step of it was enabled. */
  function After<V>(steps: seq<Step<V>>): Option<State<V>>
    decreases |steps|
  {
    if steps == [] then Some(Init())
    else
      var n := |steps| - 1;
      match After(steps[..n])
      case None => None
      case Some(s) => if Enabled(s, steps[n]) then Some(Apply(s, steps[n])) else None
  }

  // ----- the simple queue it implements -----

  /** Where the call now at the head stands. */
  datatype Phase<V> =
    | Idle                                   // no call left
    | Ready                                  // its task is about to run
    | Following(native: Option<Settlement<V>>) // started; its promise not followed yet
    | InFlight                               // started and followed
    | Landed(outcome: Settlement<V>)         // the native call ended
    | Resolved(outcome: Settlement<V>)       // the caller's promise is settled

  /** `outcomes` are those of the calls that are over. */
  datatype View<V> = View(calls: nat, outcomes: seq<Settlement<V>>, phase: Phase<V>) {
    function Head(): nat {
      |outcomes|
    }

    predicate Valid() {
      |outcomes| <= calls && (phase.Idle? <==> |outcomes| == calls)
    }
  }

  function ViewStep<V>(v: View<V>, step: Step<V>): View<V> {
    match step
    case EnqueueStep => v.(calls := v.calls + 1, phase := if v.phase.Idle? then Ready else v.phase)
    case SettleStep(_, x) => v.(phase := if v.phase.InFlight? then Landed(x) else Following(Some(x)))
    case JobStep(launch) =>
      match v.phase
      case Ready =>
        v.(phase :=
          match launch
          case Pends => Following(None)
          case Returns(x) => Following(Some(x))
          case Throws(e) => Resolved(Rejected(e)))
      case Following(None) => v.(phase := InFlight)
      case Following(Some(x)) => v.(phase := Landed(x))
      case Landed(x) => v.(phase := Resolved(x))
      case Resolved(x) =>
        View(v.calls, v.outcomes + [x], if |v.outcomes| + 1 == v.calls then Idle else Ready)
      case _ => v
  }

  function ViewAfter<V>(steps: seq<Step<V>>): View<V>
    decreases |steps|
  {
    if steps == [] then View(0, [], Idle) else ViewStep(ViewAfter(steps[..|steps| - 1]), steps[|steps| - 1])
  }

  // ----- how the promises show it -----

  function QueuePromise<V>(v: View<V>, k: nat): Promise<V> {
    if k <= v.Head() then Settled(Undefined)
    else Pending(if k < v.calls then [Reaction(RunTask(k), Result(k))] else [])
  }

  function ResultPromise<V>(v: View<V>, k: nat): Promise<V> {
    if k < v.Head() then Settled(v.outcomes[k])
    else if k == v.Head() && v.phase.Resolved? then Settled(v.phase.outcome)
    else Pending([Reaction(Forget, Queue(k + 1))])
  }

  /** The native promise of call k; a call that threw has none. */
  ghost predicate NativeShape<V>(heap: map<Id, Promise<V>>, v: View<V>, k: nat) {
    var id := Native(k);
    if k < v.Head() || (k == v.Head() && v.phase.Resolved?) then id in heap ==> heap[id].Settled?
    else if k > v.Head() then id !in heap
    else
      match v.phase
      case Following(None) => id in heap && heap[id] == Pending([])
      case Following(Some(x)) => id in heap && heap[id] == Settled(x)
      case InFlight => id in heap && heap[id] == Pending([Reaction(Adopt, Result(k))])
      case Landed(x) => id in heap && heap[id] == Settled(x)
      case _ => id !in heap
  }

  ghost predicate Holds<V>(heap: map<Id, Promise<V>>, v: View<V>, id: Id) {
    match id
    case Queue(k) => (id in heap <==> k <= v.calls) && (id in heap ==> heap[id] == QueuePromise(v, k))
    case Result(k) => (id in heap <==> k < v.calls) && (id in heap ==> heap[id] == ResultPromise(v, k))
    case Native(k) => NativeShape(heap, v, k)
  }

  ghost predicate HeapShape<V>(heap: map<Id, Promise<V>>, v: View<V>) {
    forall id :: Holds(heap, v, id)
  }

  function JobsOf<V>(v: View<V>): seq<Job<V>> {
    var k := v.Head();
    match v.phase
    case Ready => [React(Reaction(RunTask(k), Result(k)), Undefined)]
    case Following(_) => [Follow(Native(k), Result(k))]
    case Landed(x) => [React(Reaction(Adopt, Result(k)), x)]
    case Resolved(x) => [React(Reaction(Forget, Queue(k + 1)), x)]
    case _ => []
  }

  function SerialLog<V>(outcomes: seq<Settlement<V>>): (log: seq<Event<V>>)
    ensures |log| == 2 * |outcomes|
  {
    if outcomes == [] then []
    else
      var n := |outcomes| - 1;
      SerialLog(outcomes[..n]) + [Started(n), Ended(n, outcomes[n])]
  }

  function LogOf<V>(v: View<V>): seq<Event<V>> {
    var k := v.Head();
    SerialLog(v.outcomes) +
    match v.phase
    case Following(Some(x)) => [Started(k), Ended(k, x)]
    case Landed(x) => [Started(k), Ended(k, x)]
    case Resolved(x) => [Started(k), Ended(k, x)]
    case Following(None) => [Started(k)]
    case InFlight => [Started(k)]
    case _ => []
  }

  ghost predicate Shape<V>(s: State<V>, v: View<V>) {
    && v.Valid()
    && s.calls == v.calls && s.queue == Queue(v.calls)
    && s.jobs == JobsOf(v) && s.log == LogOf(v)
    && HeapShape(s.heap, v)
  }

  // ----- the promises refine the simple queue -----

  lemma {:induction false} ShapeInit<V>()
    ensures Shape<V>(Init(), ViewAfter([]))
  {
    var s, v := Init<V>(), ViewAfter<V>([]);
    forall id
      ensures Holds(s.heap, v, id)
    {
    }
  }

  lemma {:induction false} ShapeHolds<V>(s: State<V>, v: View<V>, id: Id)
    requires Shape(s, v)
    ensures Holds(s.heap, v, id)
  {
  }

  lemma {:induction false} EnqueueLog<V>(v: View<V>)
    requires v.Valid()
    ensures LogOf(ViewStep(v, EnqueueStep)) == LogOf(v)
  {
  }

  lemma {:induction false} EnqueueShape<V>(s: State<V>, v: View<V>)
    requires Shape(s, v)
    ensures Wired(s) && Shape(Enqueued(s), ViewStep(v, EnqueueStep))
  {
    hide LogOf;
    var k := v.calls;
    ShapeHolds(s, v, Queue(k));
    var t, w := Enqueued(s), ViewStep(v, EnqueueStep);
    EnqueueLog(v);
    forall id
      ensures Holds(t.heap, w, id)
    {
      ShapeHolds(s, v, id);
    }
  }

  /** Whatever is at the head of the job queue can run. */
  lemma {:induction false} JobsRun<V>(s: State<V>, v: View<V>)
    requires Shape(s, v)
    ensures JobReady(s) <==> !v.phase.Idle? && !v.phase.InFlight?
  {
    hide LogOf;
    ShapeHolds(s, v, Result(v.Head()));
    ShapeHolds(s, v, Native(v.Head()));
    ShapeHolds(s, v, Queue(v.Head() + 1));
  }

  lemma {:induction false} StartShape<V>(s: State<V>, v: View<V>, launch: Launch<V>)
    requires Shape(s, v) && v.phase.Ready? && JobReady(s)
    ensures Shape(JobDone(s, launch), ViewStep(v, JobStep(launch)))
  {
    var k := v.Head();
    ShapeHolds(s, v, Result(k));
    var t, w := JobDone(s, launch), ViewStep(v, JobStep(launch));
    assert s.jobs[0] == React(Reaction(RunTask(k), Result(k)), Undefined) && s.jobs[1..] == [];
    assert s.log == SerialLog(v.outcomes);
    forall id
      ensures Holds(t.heap, w, id)
    {
      ShapeHolds(s, v, id);
    }
  }

  lemma {:induction false} FollowShape<V>(s: State<V>, v: View<V>, launch: Launch<V>)
    requires Shape(s, v) && v.phase.Following? && JobReady(s)
    ensures Shape(JobDone(s, launch), ViewStep(v, JobStep(launch)))
  {
    hide SerialLog;
    var k := v.Head();
    ShapeHolds(s, v, Native(k));
    var t, w := JobDone(s, launch), ViewStep(v, JobStep(launch));
    assert s.jobs[0] == Follow(Native(k), Result(k)) && s.jobs[1..] == [];
    forall id
      ensures Holds(t.heap, w, id)
    {
      ShapeHolds(s, v, id);
    }
  }

  lemma {:induction false} LandShape<V>(s: State<V>, v: View<V>, launch: Launch<V>)
    requires Shape(s, v) && v.phase.Landed? && JobReady(s)
    ensures Shape(JobDone(s, launch), ViewStep(v, JobStep(launch)))
  {
    hide SerialLog;
    var k := v.Head();
    ShapeHolds(s, v, Result(k));
    var t, w := JobDone(s, launch), ViewStep(v, JobStep(launch));
    assert s.jobs[0] == React(Reaction(Adopt, Result(k)), v.phase.outcome) && s.jobs[1..] == [];
    forall id
      ensures Holds(t.heap, w, id)
    {
      ShapeHolds(s, v, id);
    }
  }

  lemma {:induction false} ForgetLog<V>(v: View<V>, launch: Launch<V>)
    requires v.Valid() && v.phase.Resolved?
    ensures LogOf(ViewStep(v, JobStep(launch))) == LogOf(v)
  {
    var w := ViewStep(v, JobStep(launch));
    assert w.outcomes[..v.Head()] == v.outcomes;
  }

  lemma {:induction false} ForgetShape<V>(s: State<V>, v: View<V>, launch: Launch<V>)
    requires Shape(s, v) && v.phase.Resolved? && JobReady(s)
    ensures Shape(JobDone(s, launch), ViewStep(v, JobStep(launch)))
  {
    hide LogOf;
    var k := v.Head();
    ForgetLog(v, launch);
    ShapeHolds(s, v, Queue(k + 1));
    var t, w := JobDone(s, launch), ViewStep(v, JobStep(launch));
    assert s.jobs[0] == React(Reaction(Forget, Queue(k + 1)), v.phase.outcome) && s.jobs[1..] == [];
    forall id
      ensures Holds(t.heap, w, id)
    {
      ShapeHolds(s, v, id);
    }
  }

  lemma {:induction false} SettleShape<V>(s: State<V>, v: View<V>, k: nat, x: Settlement<V>)
    requires Shape(s, v) && CanSettle(s, Native(k))
    ensures Shape(NativeSettled(s, k, x), ViewStep(v, SettleStep(k, x)))
  {
    hide SerialLog;
    ShapeHolds(s, v, Native(k));
    var t, w := NativeSettled(s, k, x), ViewStep(v, SettleStep(k, x));
    forall id
      ensures Holds(t.heap, w, id)
    {
      ShapeHolds(s, v, id);
    }
  }

  lemma {:induction false} StepShape<V>(s: State<V>, v: View<V>, step: Step<V>)
    requires Shape(s, v) && Enabled(s, step)
    ensures Shape(Apply(s, step), ViewStep(v, step))
  {
    hide Shape, ViewStep;
    match step
    case EnqueueStep => EnqueueShape(s, v);
    case SettleStep(k, x) => SettleShape(s, v, k, x);
    case JobStep(launch) =>
      JobsRun(s, v);
      match v.phase
      case Ready => StartShape(s, v, launch);
      case Following(_) => FollowShape(s, v, launch);
      case Landed(_) => LandShape(s, v, launch);
      case Resolved(_) => ForgetShape(s, v, launch);
      case _ =>
  }

  /** Every reachable state of the promise machine is the picture of the simple queue after the
      same steps. */
  lemma {:induction false} PromisesRefineQueue<V>(steps: seq<Step<V>>)
    requires After(steps).Some?
    ensures Shape(After(steps).value, ViewAfter(steps))
    decreases |steps|
  {
    hide Shape, Apply, Enabled, ViewStep;
    if steps == [] {
      ShapeInit<V>();
    } else {
      var n := |steps| - 1;
      PromisesRefineQueue(steps[..n]);
      StepShape(After(steps[..n]).value, ViewAfter(steps[..n]), steps[n]);
    }
  }

  // ----- safety -----

  /** Calls start in the order they were enqueued, each ends before the next starts. */
  predicate Serial<V>(log: seq<Event<V>>, calls: nat) {
    && |log| <= 2 * calls
    && forall i :: 0 <= i < |log| ==>
         if i % 2 == 0 then log[i] == Started(i / 2) else log[i].Ended? && log[i].k == i / 2
  }

  lemma {:induction false} SerialLogEvents<V>(outcomes: seq<Settlement<V>>)
    ensures forall i :: 0 <= i < |outcomes| ==>
      SerialLog(outcomes)[2 * i] == Started(i) && SerialLog(outcomes)[2 * i + 1] == Ended(i, outcomes[i])
    decreases |outcomes|
  {
    if outcomes != [] {
      var n := |outcomes| - 1;
      SerialLogEvents(outcomes[..n]);
      assert SerialLog(outcomes) == SerialLog(outcomes[..n]) + [Started(n), Ended(n, outcomes[n])];
    }
  }

  lemma {:induction false} LogEvents<V>(v: View<V>)
    requires v.Valid()
    ensures 2 * v.Head() <= |LogOf(v)| <= 2 * v.Head() + 2 && Serial(LogOf(v), v.calls)
    ensures forall i :: 0 <= i < v.Head() ==> LogOf(v)[2 * i + 1] == Ended(i, v.outcomes[i])
    ensures v.phase.Resolved? ==> |LogOf(v)| == 2 * v.Head() + 2 && LogOf(v)[2 * v.Head() + 1] == Ended(v.Head(), v.phase.outcome)
    ensures v.phase.Idle? || v.phase.Ready? ==> |LogOf(v)| == 2 * v.Head()
    ensures v.phase.InFlight? || v.phase == Following(None) <==> |LogOf(v)| == 2 * v.Head() + 1
  {
    hide SerialLog;
    SerialLogEvents(v.outcomes);
    var log, done := LogOf(v), SerialLog(v.outcomes);
    forall i | 0 <= i < |log|
      ensures if i % 2 == 0 then log[i] == Started(i / 2) else log[i].Ended? && log[i].k == i / 2
    {
      if i < |done| {
        var j := i / 2;
        assert done[2 * j] == Started(j) && done[2 * j + 1] == Ended(j, v.outcomes[j]);
        assert log[i] == done[i];
      }
    }
    forall i | 0 <= i < v.Head()
      ensures log[2 * i + 1] == Ended(i, v.outcomes[i])
    {
      assert log[2 * i + 1] == done[2 * i + 1];
    }
  }

  /** The promise handed to caller k is settled, with `x`. */
  predicate CallerSees<V(==)>(s: State<V>, k: nat, x: Settlement<V>) {
    Result(k) in s.heap && s.heap[Result(k)] == Settled(x)
  }

  predicate CallerSettled<V>(s: State<V>, k: nat) {
    Result(k) in s.heap && s.heap[Result(k)].Settled?
  }

  /** Native calls start exactly once, in enqueue order, one at a time, and each caller's promise
      settles with the outcome of its own call. */
  ghost predicate Safe<V(!new)>(s: State<V>) {
    && Serial(s.log, s.calls)
    && (forall k: nat :: CanSettle(s, Native(k)) ==> |s.log| == 2 * k + 1)
    && (forall k: nat, x :: CallerSees(s, k, x) ==> 2 * k + 1 < |s.log| && s.log[2 * k + 1] == Ended(k, x))
    && (forall k: nat :: 2 * k + 2 < |s.log| ==> CallerSettled(s, k))
  }

  /** Queue safety over every run, whatever became of the calls before. */
  lemma {:induction false} QueueSafety<V(!new)>(steps: seq<Step<V>>)
    requires After(steps).Some?
    ensures Safe(After(steps).value)
  {
    hide Shape, Safe;
    PromisesRefineQueue(steps);
    ShapeSafe(After(steps).value, ViewAfter(steps));
  }

  lemma {:induction false} ShapeSafe<V(!new)>(s: State<V>, v: View<V>)
    requires Shape(s, v)
    ensures Safe(s)
  {
    hide Shape, Holds, LogOf;
    ShapeLog(s, v);
    LogEvents(v);
    forall k: nat | CanSettle(s, Native(k))
      ensures |s.log| == 2 * k + 1
    {
      PendingNative(s, v, k);
    }
    forall k: nat, x | CallerSees(s, k, x)
      ensures 2 * k + 1 < |s.log| && s.log[2 * k + 1] == Ended(k, x)
    {
      SettledResult(s, v, k, x);
    }
    forall k: nat | 2 * k + 2 < |s.log|
      ensures CallerSettled(s, k)
    {
      EarlierSettled(s, v, k);
    }
  }

  lemma {:induction false} ShapeLog<V>(s: State<V>, v: View<V>)
    requires Shape(s, v)
    ensures v.Valid() && s.calls == v.calls && s.log == LogOf(v) && s.jobs == JobsOf(v)
  {
  }

  lemma {:induction false} PendingNative<V>(s: State<V>, v: View<V>, k: nat)
    requires Shape(s, v)
    ensures CanSettle(s, Native(k)) <==> k == v.Head() && (v.phase.InFlight? || v.phase == Following(None))
  {
    hide LogOf;
    ShapeHolds(s, v, Native(k));
  }

  lemma {:induction false} SettledResult<V>(s: State<V>, v: View<V>, k: nat, x: Settlement<V>)
    requires Shape(s, v)
    ensures CallerSees(s, k, x) <==>
      (k < v.Head() && v.outcomes[k] == x) || (k == v.Head() && v.phase == Resolved(x))
  {
    hide LogOf;
    ShapeHolds(s, v, Result(k));
  }

  lemma {:induction false} EarlierSettled<V>(s: State<V>, v: View<V>, k: nat)
    requires Shape(s, v) && k < v.Head()
    ensures CallerSettled(s, k)
  {
    hide LogOf;
    ShapeHolds(s, v, Result(k));
  }

  /** No queue promise is ever rejected: of the two handlers `enqueue` passes, only the first can
      run, because the second `then` has turned every outcome into `undefined`. */
  lemma {:induction false} QueueNeverRejects<V>(steps: seq<Step<V>>, k: nat)
    requires After(steps).Some? && Queue(k) in After(steps).value.heap
    ensures After(steps).value.heap[Queue(k)].Settled? ==> After(steps).value.heap[Queue(k)] == Settled(Undefined)
    ensures k <= After(steps).value.calls
  {
    hide Shape, After, LogOf;
    PromisesRefineQueue(steps);
    var s, v := After(steps).value, ViewAfter(steps);
    ShapeLog(s, v);
    ShapeHolds(s, v, Queue(k));
  }

  // ----- progress -----

  /** Steps left before every call made so far is over. */
  function Work<V>(v: View<V>): nat
    requires v.Valid()
  {
    var before := 5 * (v.calls - v.Head());
    match v.phase
    case Idle => 0
    case Ready => before
    case Following(None) => before - 1
    case Following(Some(_)) => before - 2
    case InFlight => before - 2
    case Landed(_) => before - 3
    case Resolved(_) => before - 4
  }

  /** Queue progress: while any caller waits, a job can run or exactly the head's native call is
      in flight; with nothing left to do every caller's promise is settled. */
  lemma {:induction false} QueueProgress<V>(steps: seq<Step<V>>)
    requires After(steps).Some?
    ensures ViewAfter(steps).Valid()
    ensures var s, v := After(steps).value, ViewAfter(steps);
      && (Work(v) > 0 ==> JobReady(s) || CanSettle(s, Native(v.Head())))
      && (Work(v) == 0 <==> s.jobs == [] && forall k :: 0 <= k < s.calls ==> CallerSettled(s, k))
      && (forall k :: 0 <= k < s.calls && !CallerSettled(s, k) && !CanSettle(s, Native(v.Head())) ==> JobReady(s))
  {
    hide Shape, LogOf, JobReady, CallerSettled, CanSettle;
    PromisesRefineQueue(steps);
    var s, v := After(steps).value, ViewAfter(steps);
    ShapeLog(s, v);
    JobsRun(s, v);
    PendingNative(s, v, v.Head());
    forall k | 0 <= k < s.calls && v.phase.Idle?
      ensures CallerSettled(s, k)
    {
      EarlierSettled(s, v, k);
    }
    if v.phase.InFlight? {
      HeadWaits(s, v);
    }
  }

  lemma {:induction false} HeadWaits<V>(s: State<V>, v: View<V>)
    requires Shape(s, v) && v.phase.InFlight?
    ensures v.Head() < s.calls && !CallerSettled(s, v.Head())
  {
    hide LogOf;
    ShapeHolds(s, v, Result(v.Head()));
  }

  /** Every step but a new call brings the end nearer, whether calls succeed or fail: the calls
      made so far are all over after at most five steps each. */
  lemma {:induction false} QueueDrains<V>(steps: seq<Step<V>>, step: Step<V>)
    requires After(steps).Some? && Enabled(After(steps).value, step)
    ensures ViewAfter(steps).Valid() && ViewStep(ViewAfter(steps), step).Valid()
    ensures step.EnqueueStep? ==> Work(ViewStep(ViewAfter(steps), step)) <= Work(ViewAfter(steps)) + 5
    ensures !step.EnqueueStep? ==> Work(ViewStep(ViewAfter(steps), step)) < Work(ViewAfter(steps))
  {
    hide Shape, LogOf, JobReady, CanSettle, After, ViewStep, Work;
    PromisesRefineQueue(steps);
    var s, v := After(steps).value, ViewAfter(steps);
    ShapeLog(s, v);
    JobsRun(s, v);
    if step.SettleStep? {
      PendingNative(s, v, step.k);
    }
    WorkFalls(v, step);
  }

  lemma {:induction false} WorkFalls<V>(v: View<V>, step: Step<V>)
    requires v.Valid()
    requires step.JobStep? ==> !v.phase.Idle? && !v.phase.InFlight?
    requires step.SettleStep? ==> v.phase.InFlight? || v.phase == Following(None)
    ensures ViewStep(v, step).Valid()
    ensures if step.EnqueueStep? then Work(ViewStep(v, step)) <= Work(v) + 5 else Work(ViewStep(v, step)) < Work(v)
  {
  }

  // ----- the client's queue field, in place -----

  /** The client with the engine's heap of promises and its job queue. */
  class WireGuardClient<V> {
    var heap: map<Id, Promise<V>>
    var jobs: seq<Job<V>>
    var queue: Id
    var calls: nat
    ghost var log: seq<Event<V>>

    ghost function Now(): State<V>
      reads this
    {
      State(heap, queue, jobs, calls, log)
    }

    constructor ()
      ensures Now() == Init()
    {
      heap, jobs, queue, calls, log := map[Queue(0) := Settled(Undefined)], [], Queue(0), 0, [];
    }

    method AddReaction(p: Id, r: Reaction)
      requires p in heap
      modifies this`heap, this`jobs
      ensures Now() == Then(old(Now()), p, r)
    {
      match heap[p]
      case Pending(rs) => heap := heap[p := Pending(rs + [r])];
      case Settled(v) => jobs := jobs + [React(r, v)];
    }

    method SettlePromise(p: Id, v: Settlement<V>)
      requires CanSettle(Now(), p)
      modifies this`heap, this`jobs
      ensures Now() == Settle(old(Now()), p, v)
    {
      var rs := heap[p].reactions;
      heap := heap[p := Settled(v)];
      for i := 0 to |rs|
        invariant heap == old(heap)[p := Settled(v)]
        invariant jobs == old(jobs) + ReactionJobs(rs, v)[..i]
      {
        jobs := jobs + [React(rs[i], v)];
      }
    }

    /** `enqueue`: chains the task behind everything enqueued before. */
    method Enqueue() returns (result: Id)
      requires Wired(Now())
      modifies this
      ensures Now() == Enqueued(old(Now())) && result == Result(old(calls))
    {
      var k := calls;
      result := Result(k);
      heap := heap[result := Pending([])];
      AddReaction(queue, Reaction(RunTask(k), result));
      var next := Queue(k + 1);
      heap := heap[next := Pending([])];
      AddReaction(result, Reaction(Forget, next));
      queue := next;
      calls := k + 1;
    }

    /** Runs the job at the head; `launch` is how the task behaves if the job calls one. */
    method RunJob(launch: Launch<V>)
      requires JobReady(Now())
      modifies this`heap, this`jobs, this`log
      ensures Now() == JobDone(old(Now()), launch)
    {
      var job := jobs[0];
      jobs := jobs[1..];
      match job
      case Follow(n, target) => AddReaction(n, Reaction(Adopt, target));
      case React(Reaction(Forget, target), _) => SettlePromise(target, Undefined);
      case React(Reaction(Adopt, target), v) => SettlePromise(target, v);
      case React(Reaction(RunTask(k), target), _) =>
        match launch {
          case Pends =>
            log := log + [Started(k)];
            heap := heap[Native(k) := Pending([])];
            jobs := jobs + [Follow(Native(k), target)];
          case Returns(v) =>
            log := log + [Started(k), Ended(k, v)];
            heap := heap[Native(k) := Settled(v)];
            jobs := jobs + [Follow(Native(k), target)];
          case Throws(e) =>
            log := log + [Started(k), Ended(k, Rejected(e))];
            SettlePromise(target, Rejected(e));
        }
    }

    method NativeSettles(k: nat, v: Settlement<V>)
      requires CanSettle(Now(), Native(k))
      modifies this`heap, this`jobs, this`log
      ensures Now() == NativeSettled(old(Now()), k, v)
    {
      log := log + [Ended(k, v)];
      SettlePromise(Native(k), v);
    }
  }
}
