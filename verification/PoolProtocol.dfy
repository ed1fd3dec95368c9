/** The hand-off between a dispatch loop and its worker pool, and the order in which a consumer
    stops them. Workers are counted by what they are doing; tasks are message identifiers. Every
    atomic action of the dispatcher (the courier), the workers and the stopper is one step. */
module PoolProtocol {
  import opened Sequences

  type Task = string

  /** The dispatch loop. `batch[0]` is the message being handed off. */
  datatype Courier =
    | Idle
    | Claiming
    | Holding(batch: seq<Task>)
    | Admitted(batch: seq<Task>)
    | Offering(batch: seq<Task>)
    | Withdrawing(batch: seq<Task>)
    | Refused(batch: seq<Task>, poolStopped: bool)
    | Failed(batch: seq<Task>)
    | Gone

  /** Stopping a consumer: cancel, wait for the dispatcher, flag the pool, close its channel, wait for the workers. */
  datatype Stopper = Calm | Cancelled | Flagged | Closed | Returned

  datatype System = System(
    size: nat,
    capacity: nat,
    prefetch: nat,
    ordered: bool,
    // the channel and the shared flags
    buffer: seq<Task>,
    closed: bool,
    stopped: bool,
    cancelled: bool,
    queued: int,
    inFlight: int,
    panicked: bool,
    // workers
    idle: nat,
    taken: multiset<Task>,
    dequeued: multiset<Task>,
    running: multiset<Task>,
    ran: multiset<Task>,
    exited: nat,
    courier: Courier,
    stopper: Stopper,
    // the past
    claimed: multiset<Task>,
    accepted: multiset<Task>,
    finished: multiset<Task>,
    released: multiset<Task>)

  datatype CourierStep = Look | Claim(found: seq<Task>) | Done | Check | CountUp | Send | SendDirect | SendClosed
    | Withdraw | CountDown | Release | Quit

  datatype WorkerStep = Receive | Dequeue(task: Task) | Launch(task: Task) | Finish(task: Task) | Land(task: Task)
    | Leave

  datatype StopperStep = ParentCancel | StopCancel | StopFlag | StopClose | StopReturn

  datatype Step = ByCourier(c: CourierStep) | ByWorker(w: WorkerStep) | ByStopper(p: StopperStep)

  predicate Batched(c: Courier) {
    c.Holding? || c.Admitted? || c.Offering? || c.Withdrawing? || c.Refused? || c.Failed?
  }

  function Batch(c: Courier): seq<Task> {
    if Batched(c) then c.batch else []
  }

  predicate CourierMay(s: System, step: CourierStep) {
    match step
    case Look => s.courier == Idle && !s.cancelled
    case Claim(found) => s.courier == Claiming && |found| <= s.prefetch
    case Done => s.courier == Holding([])
    case Check => s.courier.Holding? && s.courier.batch != []
    case CountUp => s.courier.Admitted?
    case Send => s.courier.Offering? && s.courier.batch != [] && !s.closed && |s.buffer| < s.capacity
    case SendDirect => s.courier.Offering? && s.courier.batch != [] && !s.closed && s.buffer == [] && s.idle > 0
    case SendClosed => s.courier.Offering? && s.closed
    case Withdraw => s.courier.Offering? && s.cancelled
    case CountDown => s.courier.Withdrawing?
    case Release => s.courier.Refused? && s.courier.batch != []
    case Quit => s.courier == Idle && s.cancelled
  }

  function CourierDoes(s: System, step: CourierStep): System
    requires CourierMay(s, step)
  {
    match step
    case Look => s.(courier := Claiming)
    case Claim(found) => s.(courier := Holding(found), claimed := s.claimed + multiset(found))
    case Done => s.(courier := Idle)
    case Check => s.(courier := if s.stopped then Refused(s.courier.batch, true) else Admitted(s.courier.batch))
    case CountUp => s.(courier := Offering(s.courier.batch), queued := s.queued + 1)
    case Send => Accept(s).(buffer := s.buffer + [s.courier.batch[0]])
    case SendDirect => Accept(s).(idle := s.idle - 1, taken := s.taken + multiset{s.courier.batch[0]})
    case SendClosed => s.(panicked := true)
    case Withdraw => s.(courier := Withdrawing(s.courier.batch))
    case CountDown => s.(courier := Refused(s.courier.batch, false), queued := s.queued - 1)
    case Release =>
      var rest := s.courier.batch[1..];
      s.(courier := if s.courier.poolStopped || s.cancelled then Holding(rest) else Failed(rest),
         released := s.released + multiset{s.courier.batch[0]})
    case Quit => s.(courier := Gone)
  }

  function Accept(s: System): System
    requires s.courier.Offering? && s.courier.batch != []
  {
    s.(courier := Holding(s.courier.batch[1..]), accepted := s.accepted + multiset{s.courier.batch[0]})
  }

  predicate WorkerMay(s: System, step: WorkerStep) {
    match step
    case Receive => s.idle > 0 && s.buffer != []
    case Dequeue(t) => t in s.taken
    case Launch(t) => t in s.dequeued
    case Finish(t) => t in s.running
    case Land(t) => t in s.ran
    case Leave => s.idle > 0 && s.buffer == [] && s.closed
  }

  function WorkerDoes(s: System, step: WorkerStep): System
    requires WorkerMay(s, step)
  {
    match step
    case Receive => s.(idle := s.idle - 1, buffer := s.buffer[1..], taken := s.taken + multiset{s.buffer[0]})
    case Dequeue(t) => s.(taken := s.taken - multiset{t}, dequeued := s.dequeued + multiset{t}, queued := s.queued - 1)
    case Launch(t) => s.(dequeued := s.dequeued - multiset{t}, running := s.running + multiset{t},
                         inFlight := s.inFlight + 1)
    case Finish(t) => s.(running := s.running - multiset{t}, ran := s.ran + multiset{t},
                         finished := s.finished + multiset{t})
    case Land(t) => s.(ran := s.ran - multiset{t}, idle := s.idle + 1, inFlight := s.inFlight - 1)
    case Leave => s.(idle := s.idle - 1, exited := s.exited + 1)
  }

  /** The stop order is what `ordered` stands for: without it the pool may be stopped at any time. */
  predicate StopperMay(s: System, step: StopperStep) {
    match step
    case ParentCancel => !s.cancelled
    case StopCancel => s.stopper == Calm
    case StopFlag => s.stopper == Cancelled && (s.ordered ==> s.courier == Gone)
    case StopClose => s.stopper == Flagged
    case StopReturn => s.stopper == Closed && s.exited == s.size
  }

  function StopperDoes(s: System, step: StopperStep): System
    requires StopperMay(s, step)
  {
    match step
    case ParentCancel => s.(cancelled := true)
    case StopCancel => s.(stopper := Cancelled, cancelled := true)
    case StopFlag => s.(stopper := Flagged, stopped := true)
    case StopClose => s.(stopper := Closed, closed := true)
    case StopReturn => s.(stopper := Returned)
  }

  predicate Enabled(s: System, step: Step) {
    match step
    case ByCourier(c) => CourierMay(s, c)
    case ByWorker(w) => WorkerMay(s, w)
    case ByStopper(p) => StopperMay(s, p)
  }

  function Apply(s: System, step: Step): System
    requires Enabled(s, step)
  {
    match step
    case ByCourier(c) => CourierDoes(s, c)
    case ByWorker(w) => WorkerDoes(s, w)
    case ByStopper(p) => StopperDoes(s, p)
  }

  /** A new consumer; the pool configuration is lifted to at least one worker and a non-negative channel. */
  function Start(size: int, queueSize: int, prefetch: nat, ordered: bool): System {
    var (size, capacity) := (if size < 1 then 1 else size, if queueSize < 0 then 0 else queueSize);
    System(size, capacity, prefetch, ordered, [], false, false, false, 0, 0, false,
           size, multiset{}, multiset{}, multiset{}, multiset{}, 0, Idle, Calm,
           multiset{}, multiset{}, multiset{}, multiset{})
  }

  // ----- The invariant -----

  ghost predicate CountersOk(s: System) {
    && s.idle + |s.taken| + |s.dequeued| + |s.running| + |s.ran| + s.exited == s.size
    && s.queued == |s.buffer| + |s.taken| + One(s.courier.Offering? || s.courier.Withdrawing?)
    && s.inFlight == |s.running| + |s.ran|
    && |s.buffer| <= s.capacity
  }

  /** Nothing claimed is unaccounted for; nothing accepted is lost or run twice. */
  ghost predicate TaskOk(s: System, t: Task) {
    && s.claimed[t] == s.accepted[t] + s.released[t] + multiset(Batch(s.courier))[t]
    && s.accepted[t] == multiset(s.buffer)[t] + s.taken[t] + s.dequeued[t] + s.running[t] + s.finished[t]
  }

  ghost predicate TasksOk(s: System) {
    forall t :: TaskOk(s, t)
  }

  ghost predicate StagesOk(s: System) {
    && s.ordered && !s.panicked && !s.courier.Failed? && !(s.courier.Refused? && s.courier.poolStopped)
    && (s.stopped <==> s.stopper == Flagged || s.stopper == Closed || s.stopper == Returned)
    && (s.closed <==> s.stopper == Closed || s.stopper == Returned)
    && (s.stopped ==> s.courier == Gone)
    && (s.stopper != Calm ==> s.cancelled)
    && (s.courier.Withdrawing? || s.courier.Refused? || s.courier == Gone ==> s.cancelled)
    && (Batched(s.courier) && !s.courier.Holding? ==> s.courier.batch != [])
    && |Batch(s.courier)| <= s.prefetch
    && (s.exited > 0 ==> s.closed && s.buffer == [])
    && (s.stopper == Returned ==> s.exited == s.size)
  }

  ghost predicate SystemOk(s: System) {
    CountersOk(s) && TasksOk(s) && StagesOk(s)
  }

  lemma Removed(m: multiset<Task>, t: Task)
    requires t in m
    ensures |m - multiset{t}| == |m| - 1 && m == (m - multiset{t}) + multiset{t}
  {
    assert m == (m - multiset{t}) + multiset{t};
  }

  lemma Headed(xs: seq<Task>)
    requires xs != []
    ensures multiset(xs) == multiset{xs[0]} + multiset(xs[1..])
  {
    assert xs == [xs[0]] + xs[1..];
  }

  lemma SentTask(s: System, step: CourierStep, t: Task)
    requires TaskOk(s, t) && CourierMay(s, step) && (step.Send? || step.SendDirect?)
    ensures TaskOk(CourierDoes(s, step), t)
  {
    var batch := s.courier.batch;
    Headed(batch);
    assert Batch(CourierDoes(s, step).courier) == batch[1..] && Batch(s.courier) == batch;
    if step.Send? { assert multiset(s.buffer + [batch[0]])[t] == multiset(s.buffer)[t] + multiset{batch[0]}[t]; }
  }

  lemma ReleasedTask(s: System, t: Task)
    requires TaskOk(s, t) && CourierMay(s, Release)
    ensures TaskOk(CourierDoes(s, Release), t)
  {
    var batch := s.courier.batch;
    Headed(batch);
    assert Batch(CourierDoes(s, Release).courier) == batch[1..] && Batch(s.courier) == batch;
  }

  lemma HeldTask(s: System, step: CourierStep, t: Task)
    requires TaskOk(s, t) && CourierMay(s, step) && !step.Send? && !step.SendDirect? && !step.Release?
    ensures TaskOk(CourierDoes(s, step), t)
  {
    if step.Claim? {
      assert Batch(s.courier) == [] && Batch(CourierDoes(s, step).courier) == step.found;
    } else {
      assert Batch(CourierDoes(s, step).courier) == Batch(s.courier);
    }
  }

  lemma CourierTask(s: System, step: CourierStep, t: Task)
    requires TaskOk(s, t) && CourierMay(s, step)
    ensures TaskOk(CourierDoes(s, step), t)
  {
    hide TaskOk, CourierDoes;
    if step.Send? || step.SendDirect? {
      SentTask(s, step, t);
    } else if step.Release? {
      ReleasedTask(s, t);
    } else {
      HeldTask(s, step, t);
    }
  }

  lemma CourierCounters(s: System, step: CourierStep)
    requires CountersOk(s) && CourierMay(s, step)
    ensures CountersOk(CourierDoes(s, step))
  {}

  lemma CourierStages(s: System, step: CourierStep)
    requires StagesOk(s) && CourierMay(s, step)
    ensures StagesOk(CourierDoes(s, step))
  {}

  lemma CourierKeeps(s: System, step: CourierStep)
    requires SystemOk(s) && CourierMay(s, step)
    ensures SystemOk(CourierDoes(s, step))
  {
    hide CountersOk, StagesOk, TaskOk, CourierMay, CourierDoes;
    CourierCounters(s, step);
    CourierStages(s, step);
    forall t
      ensures TaskOk(CourierDoes(s, step), t)
    {
      assert TaskOk(s, t);
      CourierTask(s, step, t);
    }
  }

  lemma WorkerTask(s: System, step: WorkerStep, t: Task)
    requires TaskOk(s, t) && WorkerMay(s, step)
    ensures TaskOk(WorkerDoes(s, step), t)
  {
    if step.Receive? { Headed(s.buffer); }
  }

  lemma TakingCounters(s: System, step: WorkerStep)
    requires CountersOk(s) && WorkerMay(s, step) && (step.Receive? || step.Dequeue? || step.Leave?)
    ensures CountersOk(WorkerDoes(s, step))
  {
    if step.Dequeue? { Removed(s.taken, step.task); }
  }

  lemma RunningCounters(s: System, step: WorkerStep)
    requires CountersOk(s) && WorkerMay(s, step) && (step.Launch? || step.Finish? || step.Land?)
    ensures CountersOk(WorkerDoes(s, step))
  {
    match step
    case Launch(t) => Removed(s.dequeued, t);
    case Finish(t) => Removed(s.running, t);
    case Land(t) => Removed(s.ran, t);
  }

  lemma WorkerCounters(s: System, step: WorkerStep)
    requires CountersOk(s) && WorkerMay(s, step)
    ensures CountersOk(WorkerDoes(s, step))
  {
    hide CountersOk, WorkerMay, WorkerDoes;
    if step.Receive? || step.Dequeue? || step.Leave? {
      TakingCounters(s, step);
    } else {
      RunningCounters(s, step);
    }
  }

  lemma WorkerKeeps(s: System, step: WorkerStep)
    requires SystemOk(s) && WorkerMay(s, step)
    ensures SystemOk(WorkerDoes(s, step))
  {
    WorkerCounters(s, step);
    forall t
      ensures TaskOk(WorkerDoes(s, step), t)
    {
      assert TaskOk(s, t);
      WorkerTask(s, step, t);
    }
  }

  lemma StopperKeeps(s: System, step: StopperStep)
    requires SystemOk(s) && StopperMay(s, step)
    ensures SystemOk(StopperDoes(s, step))
  {
    forall t
      ensures TaskOk(StopperDoes(s, step), t)
    {
      assert TaskOk(s, t);
    }
  }

  lemma StepKeeps(s: System, step: Step)
    requires SystemOk(s) && Enabled(s, step)
    ensures SystemOk(Apply(s, step))
  {
    match step
    case ByCourier(c) => CourierKeeps(s, c);
    case ByWorker(w) => WorkerKeeps(s, w);
    case ByStopper(p) => StopperKeeps(s, p);
  }

  // ----- Every run -----

  ghost predicate Legal(s: System, steps: seq<Step>)
    decreases |steps|
  {
    steps == [] || (Enabled(s, steps[0]) && Legal(Apply(s, steps[0]), steps[1..]))
  }

  ghost function Run(s: System, steps: seq<Step>): System
    requires Legal(s, steps)
    decreases |steps|
  {
    if steps == [] then s else Run(Apply(s, steps[0]), steps[1..])
  }

  predicate SameSizes(s: System, t: System) {
    t.size == s.size && t.capacity == s.capacity && t.prefetch == s.prefetch
  }

  lemma CourierSizes(s: System, step: CourierStep)
    requires CourierMay(s, step)
    ensures SameSizes(s, CourierDoes(s, step))
  {}

  lemma WorkerSizes(s: System, step: WorkerStep)
    requires WorkerMay(s, step)
    ensures SameSizes(s, WorkerDoes(s, step))
  {}

  lemma StopperSizes(s: System, step: StopperStep)
    requires StopperMay(s, step)
    ensures SameSizes(s, StopperDoes(s, step))
  {}

  lemma SizesStay(s: System, step: Step)
    requires Enabled(s, step)
    ensures SameSizes(s, Apply(s, step))
  {
    hide SameSizes, CourierDoes, CourierMay, WorkerDoes, WorkerMay, StopperDoes, StopperMay;
    match step
    case ByCourier(c) => CourierSizes(s, c);
    case ByWorker(w) => WorkerSizes(s, w);
    case ByStopper(p) => StopperSizes(s, p);
  }

  lemma {:induction false} RunKeeps(s: System, steps: seq<Step>)
    requires SystemOk(s) && Legal(s, steps)
    ensures SystemOk(Run(s, steps))
    ensures SameSizes(s, Run(s, steps))
    decreases |steps|
  {
    hide SystemOk, Apply, Enabled;
    if steps != [] {
      StepKeeps(s, steps[0]);
      SizesStay(s, steps[0]);
      RunKeeps(Apply(s, steps[0]), steps[1..]);
    }
  }

  /** In every run: no send meets a closed channel, no hand-off meets a stopped pool or fails for the rest of its batch,
      every claimed message is accepted, released or still held, and the counters tell the truth. */
  lemma HandOffIsSafe(size: int, queueSize: int, prefetch: nat, steps: seq<Step>)
    requires Legal(Start(size, queueSize, prefetch, true), steps)
    ensures var s := Run(Start(size, queueSize, prefetch, true), steps);
            && !s.panicked && !s.courier.Failed? && !(s.courier.Refused? && s.courier.poolStopped)
            && s.claimed == s.accepted + s.released + multiset(Batch(s.courier))
            && s.accepted == multiset(s.buffer) + s.taken + s.dequeued + s.running + s.finished
            && 0 <= s.inFlight <= s.size
            && 0 <= s.queued <= s.capacity + s.size + 1
  {
    RunKeeps(Start(size, queueSize, prefetch, true), steps);
    TasksBalance(Run(Start(size, queueSize, prefetch, true), steps));
  }

  lemma TasksBalance(s: System)
    requires TasksOk(s)
    ensures s.claimed == s.accepted + s.released + multiset(Batch(s.courier))
    ensures s.accepted == multiset(s.buffer) + s.taken + s.dequeued + s.running + s.finished
  {
    forall t
      ensures s.claimed[t] == (s.accepted + s.released + multiset(Batch(s.courier)))[t]
      ensures s.accepted[t] == (multiset(s.buffer) + s.taken + s.dequeued + s.running + s.finished)[t]
    {
      assert TaskOk(s, t);
    }
  }

  /** Once stopping has returned: every accepted task ran exactly once, every other claimed message was
      released, nothing is left in the channel, and both counters are zero. */
  lemma StoppedMeansDrained(size: int, queueSize: int, prefetch: nat, steps: seq<Step>)
    requires Legal(Start(size, queueSize, prefetch, true), steps)
    requires Run(Start(size, queueSize, prefetch, true), steps).stopper == Returned
    ensures var s := Run(Start(size, queueSize, prefetch, true), steps);
            && s.finished == s.accepted && s.claimed == s.finished + s.released
            && s.buffer == [] && s.queued == 0 && s.inFlight == 0 && s.exited == s.size
  {
    var s := Run(Start(size, queueSize, prefetch, true), steps);
    RunKeeps(Start(size, queueSize, prefetch, true), steps);
    TasksBalance(s);
    assert |s.taken| == 0 && |s.dequeued| == 0 && |s.running| == 0 && |s.ran| == 0;
    assert s.taken == multiset{} && s.dequeued == multiset{} && s.running == multiset{};
  }

  // ----- Stopping ends -----

  function CourierWork(c: Courier, prefetch: nat): nat {
    match c
    case Idle => 1
    case Claiming => 12 * prefetch + 3
    case Holding(batch) => 12 * |batch| + 2
    case Admitted(batch) => 12 * |batch| + 1
    case Offering(batch) => 12 * |batch|
    case Withdrawing(batch) => if batch == [] then 0 else 12 * |batch| - 1
    case Refused(batch, _) => if batch == [] then 0 else 12 * |batch| - 2
    case _ => 0
  }

  function StopperWork(stopper: Stopper): nat {
    match stopper
    case Calm => 4
    case Cancelled => 3
    case Flagged => 2
    case Closed => 1
    case Returned => 0
  }

  /** An upper bound on the steps left once the consumer's context is cancelled. */
  ghost function Work(s: System): nat {
    CourierWork(s.courier, s.prefetch) + StopperWork(s.stopper)
    + 6 * |s.buffer| + 5 * |s.taken| + 4 * |s.dequeued| + 3 * |s.running| + 2 * |s.ran| + s.idle
  }

  lemma WorkerWorks(s: System, step: WorkerStep)
    requires WorkerMay(s, step)
    ensures Work(WorkerDoes(s, step)) < Work(s)
  {
    hide CourierWork, StopperWork;
    match step
    case Dequeue(t) => Removed(s.taken, t);
    case Launch(t) => Removed(s.dequeued, t);
    case Finish(t) => Removed(s.running, t);
    case Land(t) => Removed(s.ran, t);
    case _ =>
  }

  lemma CourierWorks(s: System, step: CourierStep)
    requires StagesOk(s) && s.cancelled && CourierMay(s, step)
    ensures Work(CourierDoes(s, step)) < Work(s)
  {}

  lemma StopperWorks(s: System, step: StopperStep)
    requires s.cancelled && StopperMay(s, step)
    ensures Work(StopperDoes(s, step)) < Work(s)
  {}

  lemma StepWorks(s: System, step: Step)
    requires SystemOk(s) && s.cancelled && Enabled(s, step)
    ensures Work(Apply(s, step)) < Work(s) && Apply(s, step).cancelled
  {
    hide Work;
    match step
    case ByCourier(c) => CourierWorks(s, c);
    case ByWorker(w) => WorkerWorks(s, w);
    case ByStopper(p) => StopperWorks(s, p);
  }

  /** After cancellation every run is short: no livelock between couriers, workers and stopper. */
  lemma {:induction false} CancelledRunsEnd(s: System, steps: seq<Step>)
    requires SystemOk(s) && s.cancelled && Legal(s, steps)
    ensures |steps| <= Work(s)
    decreases |steps|
  {
    if steps != [] {
      StepWorks(s, steps[0]);
      StepKeeps(s, steps[0]);
      CancelledRunsEnd(Apply(s, steps[0]), steps[1..]);
    }
  }

  ghost predicate CanStep(s: System) {
    exists step :: Enabled(s, step)
  }

  /** And none gets stuck before stopping has returned: no deadlock. */
  lemma StoppingNeverSticks(s: System)
    requires SystemOk(s) && s.stopper != Calm && s.stopper != Returned
    ensures CanStep(s)
  {
    if s.courier != Gone {
      CourierMoves(s);
    } else if s.stopper == Cancelled {
      assert Enabled(s, ByStopper(StopFlag));
    } else if s.stopper == Flagged {
      assert Enabled(s, ByStopper(StopClose));
    } else if s.exited == s.size {
      assert Enabled(s, ByStopper(StopReturn));
    } else {
      WorkersMove(s);
    }
  }

  lemma CourierMoves(s: System)
    requires SystemOk(s) && s.cancelled && s.courier != Gone
    ensures CanStep(s)
  {
    var step := match s.courier
      case Idle => Quit
      case Claiming => Claim([])
      case Holding(batch) => if batch == [] then Done else Check
      case Admitted(_) => CountUp
      case Offering(_) => Withdraw
      case Withdrawing(_) => CountDown
      case _ => Release;
    assert Enabled(s, ByCourier(step));
  }

  lemma WorkersMove(s: System)
    requires SystemOk(s) && s.closed && s.exited < s.size
    ensures CanStep(s)
  {
    if s.idle > 0 {
      assert Enabled(s, ByWorker(if s.buffer == [] then Leave else Receive));
    } else if |s.taken| > 0 {
      var t :| t in s.taken;
      assert Enabled(s, ByWorker(Dequeue(t)));
    } else if |s.dequeued| > 0 {
      var t :| t in s.dequeued;
      assert Enabled(s, ByWorker(Launch(t)));
    } else if |s.running| > 0 {
      var t :| t in s.running;
      assert Enabled(s, ByWorker(Finish(t)));
    } else {
      assert |s.ran| > 0;
      var t :| t in s.ran;
      assert Enabled(s, ByWorker(Land(t)));
    }
  }

  // ----- The order matters -----

  lemma {:induction false} OneMoreStep(s: System, steps: seq<Step>, t: System, step: Step)
    requires Legal(s, steps) && Run(s, steps) == t && Enabled(t, step)
    ensures Legal(s, steps + [step]) && Run(s, steps + [step]) == Apply(t, step)
    decreases |steps|
  {
    hide Enabled, Apply;
    if steps == [] {
      assert steps + [step] == [step] && [step][1..] == [];
      assert Legal(Apply(s, step), []);
    } else {
      assert (steps + [step])[1..] == steps[1..] + [step];
      OneMoreStep(Apply(s, steps[0]), steps[1..], t, step);
    }
  }

  /** A consumer that stops its pool without waiting for the dispatch loop: a hand-off already past its check
      sends on the closed channel. */
  lemma UnorderedStopPanics(size: int, queueSize: int, prefetch: nat) returns (steps: seq<Step>)
    requires prefetch >= 1
    ensures Legal(Start(size, queueSize, prefetch, false), steps)
    ensures Run(Start(size, queueSize, prefetch, false), steps).panicked
  {
    hide Run, Legal;
    var s0 := Start(size, queueSize, prefetch, false);
    var plan := [ByCourier(Look), ByCourier(Claim(["m"])), ByCourier(Check), ByCourier(CountUp),
                 ByStopper(StopCancel), ByStopper(StopFlag), ByStopper(StopClose), ByCourier(SendClosed)];
    var s1 := Apply(s0, plan[0]);
    var s2 := Apply(s1, plan[1]);
    var s3 := Apply(s2, plan[2]);
    var s4 := Apply(s3, plan[3]);
    var s5 := Apply(s4, plan[4]);
    var s6 := Apply(s5, plan[5]);
    var s7 := Apply(s6, plan[6]);
    NoSteps(s0);
    OneMoreStep(s0, [], s0, plan[0]);
    OneMoreStep(s0, [] + [plan[0]], s1, plan[1]);
    OneMoreStep(s0, [] + [plan[0]] + [plan[1]], s2, plan[2]);
    OneMoreStep(s0, [] + [plan[0]] + [plan[1]] + [plan[2]], s3, plan[3]);
    var half := [] + [plan[0]] + [plan[1]] + [plan[2]] + [plan[3]];
    OneMoreStep(s0, half, s4, plan[4]);
    OneMoreStep(s0, half + [plan[4]], s5, plan[5]);
    OneMoreStep(s0, half + [plan[4]] + [plan[5]], s6, plan[6]);
    OneMoreStep(s0, half + [plan[4]] + [plan[5]] + [plan[6]], s7, plan[7]);
    steps := half + [plan[4]] + [plan[5]] + [plan[6]] + [plan[7]];
  }

  lemma NoSteps(s: System)
    ensures Legal(s, []) && Run(s, []) == s
  {}

  /** Nothing to prefetch, nothing to hand off. */
  ghost predicate NothingHeld(s: System) {
    s.prefetch == 0 && !s.panicked && (s.courier in {Idle, Claiming, Gone} || s.courier == Holding([]))
  }

  lemma {:induction false} NothingHeldAlways(s: System, steps: seq<Step>)
    requires NothingHeld(s) && Legal(s, steps)
    ensures NothingHeld(Run(s, steps))
    decreases |steps|
  {
    if steps != [] {
      NothingHeldStep(s, steps[0]);
      NothingHeldAlways(Apply(s, steps[0]), steps[1..]);
    }
  }

  lemma NothingHeldStep(s: System, step: Step)
    requires NothingHeld(s) && Enabled(s, step)
    ensures NothingHeld(Apply(s, step))
  {
    hide WorkerDoes, StopperDoes;
    match step
    case ByCourier(_) =>
    case ByWorker(w) => WorkersHoldNothing(s, w);
    case ByStopper(p) => StopperHoldsNothing(s, p);
  }

  lemma WorkersHoldNothing(s: System, step: WorkerStep)
    requires NothingHeld(s) && WorkerMay(s, step)
    ensures NothingHeld(WorkerDoes(s, step))
  {}

  lemma StopperHoldsNothing(s: System, step: StopperStep)
    requires NothingHeld(s) && StopperMay(s, step)
    ensures NothingHeld(StopperDoes(s, step))
  {}

  /** No run panics, if and only if the stop order is kept or there is never anything to hand off. */
  lemma NeverPanicsIff(size: int, queueSize: int, prefetch: nat, ordered: bool)
    ensures (forall steps :: Legal(Start(size, queueSize, prefetch, ordered), steps) ==>
               !Run(Start(size, queueSize, prefetch, ordered), steps).panicked)
            <==> ordered || prefetch == 0
  {
    hide Run, Legal;
    var s := Start(size, queueSize, prefetch, ordered);
    if ordered {
      forall steps | Legal(s, steps)
        ensures !Run(s, steps).panicked
      {
        HandOffIsSafe(size, queueSize, prefetch, steps);
      }
    } else if prefetch == 0 {
      forall steps | Legal(s, steps)
        ensures !Run(s, steps).panicked
      {
        NothingHeldAlways(s, steps);
      }
    } else {
      var steps := UnorderedStopPanics(size, queueSize, prefetch);
    }
  }
}
