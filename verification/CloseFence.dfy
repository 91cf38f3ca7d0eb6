/**
Closing the plugin service while mutations, webhook producers, the queue worker, outbound
deliveries and other closers are still running.

One transition system over any number of threads: a thread is a mutation, a producer or a
closer for as long as it takes; the worker and the deliveries stand beside them.  Channel
operations, atomic loads and stores and lock operations are the atomic steps.
 */
module CloseFence {
  import opened Wrappers

  const MAX_QUEUED: nat := 64
  const MAX_DELIVERIES: nat := 4

  datatype Item = Payload | Delivery

  datatype Phase =
    | Out
    // mutations
    | MutationWaiting        // saw closing unset, waits for the gate
    | MutationChecking       // holds the gate, looks at closing again
    | MutationRunning
    // producers, between RLock and RUnlock of the admission lock
    | ProducerLocked(item: Item)
    | ProducerAdmitting(item: Item)  // saw stopped unset
    // closers
    | CloserFlagged          // stored closing
    | CloserStopping         // inside the once: about to store stopped
    | CloserClosingStop      // about to cancel deliveries and close the stop channel
    | CloserLocking          // waits for the admission lock to be free of readers
    | CloserWaiting          // the once is over; waits for the gate
    | CloserHolding
    | CloserJoining          // waits for the worker
    | CloserDraining

  datatype Worker =
    | Looping
    | Selecting
    | WantsGate
    | HoldsGate
    | Processing
    | Dispatching
    | Joining                // left the loop, waits for the deliveries
    | Done

  datatype Once = NotStarted | Running | Over

  datatype Holder = Thread(i: nat) | TheWorker

  datatype Caller = Mutation | Webhook | Closer

  /** Everything the threads share. */
  datatype Shared = Shared(
    closing: bool,
    stopped: bool,
    stopClosed: bool,        // the stop channel is closed and deliveries are cancelled
    once: Once,
    gate: Option<Holder>,
    queue: seq<Item>,
    worker: Worker,
    inFlight: nat,
    calls: seq<Caller>,      // backend calls so far
    fence: Option<nat>,      // how many of them had been made when a closer first held the gate
    enqueued: nat,           // items ever put on the queue
    drained: bool)           // some closer has finished its final drain

  datatype System = System(shared: Shared, threads: seq<Phase>)

  datatype MutationAction = Begin | TakeGate | CheckClosing | Call | Finish | Abandon
  datatype ProducerAction = Lock(item: Item) | CheckStopped | Enqueue | GiveUp
  datatype CloserAction =
    | SetClosing | EnterOnce | StoreStopped | CloseStop | FinishOnce
    | HoldGate | CleanUp | ReleaseGate | JoinWorker | Drain | TimeOut
  datatype WorkerAction =
    | Top | Stop | Take | WantGate | CheckStop | Block | Release(deliver: bool) | Dispatch | Join | DeliveryEnds

  datatype ThreadAction = Mutate(m: MutationAction) | Produce(p: ProducerAction) | Close(c: CloserAction)

  datatype Step = ThreadStep(i: nat, a: ThreadAction) | WorkerStep(w: WorkerAction)

  predicate Reads(p: Phase) {
    p.ProducerLocked? || p.ProducerAdmitting?
  }

  predicate NoReaders(threads: seq<Phase>) {
    forall i :: 0 <= i < |threads| ==> !Reads(threads[i])
  }

  function MutationMove(g: Shared, i: nat, p: Phase, a: MutationAction): Option<(Shared, Phase)> {
    match a
    case Begin => if p.Out? && !g.closing then Some((g, MutationWaiting)) else None
    case TakeGate =>
      if p.MutationWaiting? && g.gate.None? then Some((g.(gate := Some(Thread(i))), MutationChecking)) else None
    case CheckClosing =>
      if !p.MutationChecking? then None
      else if g.closing then Some((g.(gate := None), Out))
      else Some((g, MutationRunning))
    case Call => if p.MutationRunning? then Some((g.(calls := g.calls + [Mutation]), p)) else None
    case Finish => if p.MutationRunning? then Some((g.(gate := None), Out)) else None
    case Abandon =>  // its context ends
      if p.MutationWaiting? then Some((g, Out))
      else if p.MutationChecking? then Some((g.(gate := None), Out))
      else None
  }

  function ProducerMove(g: Shared, p: Phase, a: ProducerAction): Option<(Shared, Phase)> {
    match a
    case Lock(item) => if p.Out? then Some((g, ProducerLocked(item))) else None
    case CheckStopped =>
      if p.ProducerLocked? then Some((g, if g.stopped then Out else ProducerAdmitting(p.item))) else None
    case Enqueue =>
      if p.ProducerAdmitting? && |g.queue| < MAX_QUEUED then
        Some((g.(queue := g.queue + [p.item], enqueued := g.enqueued + 1), Out))
      else None
    case GiveUp => if p.ProducerAdmitting? then Some((g, Out)) else None
  }

  function CloserMove(g: Shared, i: nat, p: Phase, noReaders: bool, a: CloserAction): Option<(Shared, Phase)> {
    match a
    case SetClosing => if p.Out? then Some((g.(closing := true), CloserFlagged)) else None
    case EnterOnce =>
      if !p.CloserFlagged? || g.once.Running? then None
      else if g.once.NotStarted? then Some((g.(once := Running), CloserStopping))
      else Some((g, CloserWaiting))
    case StoreStopped => if p.CloserStopping? then Some((g.(stopped := true), CloserClosingStop)) else None
    case CloseStop => if p.CloserClosingStop? then Some((g.(stopClosed := true), CloserLocking)) else None
    case FinishOnce => if p.CloserLocking? && noReaders then Some((g.(once := Over), CloserWaiting)) else None
    case HoldGate =>
      if p.CloserWaiting? && g.gate.None? then
        Some((g.(gate := Some(Thread(i)), fence := if g.fence.None? then Some(|g.calls|) else g.fence), CloserHolding))
      else None
    case CleanUp => if p.CloserHolding? then Some((g.(calls := g.calls + [Closer]), p)) else None
    case ReleaseGate => if p.CloserHolding? then Some((g.(gate := None), CloserJoining)) else None
    case JoinWorker => if p.CloserJoining? && g.worker.Done? then Some((g, CloserDraining)) else None
    case Drain =>
      if !p.CloserDraining? then None
      else if g.queue != [] then Some((g.(queue := g.queue[1..]), p))
      else Some((g.(drained := true), Out))
    case TimeOut =>
      if p.CloserWaiting? || p.CloserJoining? then Some((g, Out))
      else if p.CloserHolding? then Some((g.(gate := None), Out))
      else None
  }

  function Move(g: Shared, i: nat, p: Phase, noReaders: bool, a: ThreadAction): Option<(Shared, Phase)> {
    match a
    case Mutate(m) => MutationMove(g, i, p, m)
    case Produce(q) => ProducerMove(g, p, q)
    case Close(c) => CloserMove(g, i, p, noReaders, c)
  }

  function WorkerMove(g: Shared, a: WorkerAction): Option<Shared> {
    match a
    case Top =>
      if !g.worker.Looping? then None
      else Some(g.(worker := if g.stopClosed then Joining else Selecting))
    case Stop =>
      if g.stopClosed && (g.worker.Selecting? || g.worker.WantsGate?) then Some(g.(worker := Joining)) else None
    case Take =>
      if g.worker.Selecting? && g.queue != [] then
        Some(g.(queue := g.queue[1..], worker := if g.queue[0].Delivery? then Dispatching else WantsGate))
      else None
    case WantGate =>
      if g.worker.WantsGate? && g.gate.None? then Some(g.(worker := HoldsGate, gate := Some(TheWorker))) else None
    case CheckStop =>
      if !g.worker.HoldsGate? then None
      else if g.stopClosed then Some(g.(worker := Joining, gate := None))
      else Some(g.(worker := Processing))
    case Block => if g.worker.Processing? then Some(g.(calls := g.calls + [Webhook])) else None
    case Release(deliver) =>
      if g.worker.Processing? then Some(g.(worker := if deliver then Dispatching else Looping, gate := None)) else None
    case Dispatch =>
      if !g.worker.Dispatching? then None
      else if g.stopClosed || g.inFlight >= MAX_DELIVERIES then Some(g.(worker := Looping))
      else Some(g.(worker := Looping, inFlight := g.inFlight + 1))
    case Join => if g.worker.Joining? && g.inFlight == 0 then Some(g.(worker := Done)) else None
    case DeliveryEnds => if g.inFlight > 0 then Some(g.(inFlight := g.inFlight - 1)) else None
  }

  function Next(s: System, step: Step): Option<System> {
    match step
    case ThreadStep(i, a) =>
      if i >= |s.threads| then None
      else
        var moved := Move(s.shared, i, s.threads[i], NoReaders(s.threads), a);
        if moved.None? then None else Some(System(moved.value.0, s.threads[i := moved.value.1]))
    case WorkerStep(w) =>
      var moved := WorkerMove(s.shared, w);
      if moved.None? then None else Some(System(moved.value, s.threads))
  }

  function Initial(n: nat): System {
    System(Shared(false, false, false, NotStarted, None, [], Looping, 0, [], None, 0, false), seq(n, _ => Out))
  }

  type Schedule = seq<Step>

  function Exec(s: System, schedule: Schedule): Option<System>
    decreases |schedule|
  {
    if schedule == [] then Some(s)
    else
      var next := Next(s, schedule[0]);
      if next.None? then None else Exec(next.value, schedule[1..])
  }

  // ---------- The invariant ----------

  predicate HoldsTheGate(p: Phase) {
    p.MutationChecking? || p.MutationRunning? || p.CloserHolding?
  }

  predicate InOnce(p: Phase) {
    p.CloserStopping? || p.CloserClosingStop? || p.CloserLocking?
  }

  predicate PastOnce(p: Phase) {
    p.CloserWaiting? || p.CloserHolding? || p.CloserJoining? || p.CloserDraining?
  }

  /** What must hold of one thread. */
  ghost predicate ThreadInv(g: Shared, i: nat, p: Phase) {
    && (HoldsTheGate(p) <==> g.gate == Some(Thread(i)))
    && (InOnce(p) || PastOnce(p) || p.CloserFlagged? ==> g.closing)
    && (PastOnce(p) ==> g.once.Over?)
    && (InOnce(p) ==> g.once.Running?)
    && (p.CloserClosingStop? || p.CloserLocking? ==> g.stopped)
    && (p.CloserLocking? ==> g.stopClosed)
    && (g.once.Over? ==> !p.ProducerAdmitting?)
    && (g.fence.Some? ==> !p.MutationRunning?)
    && (p.CloserHolding? ==> g.fence.Some?)
    && (p.CloserDraining? ==> g.worker.Done?)
  }

  ghost predicate SharedInv(g: Shared) {
    && (g.gate == Some(TheWorker) <==> g.worker.HoldsGate? || g.worker.Processing?)
    && (g.stopClosed ==> g.stopped)
    && (g.once.Over? ==> g.stopClosed && g.closing)
    && (g.fence.Some? ==> g.closing && g.once.Over? && !g.worker.Processing?)
    && (g.worker.Joining? || g.worker.Done? ==> g.stopClosed)
    && g.inFlight <= MAX_DELIVERIES && |g.queue| <= MAX_QUEUED
    && (g.worker.Done? ==> g.inFlight == 0)
    && (g.drained ==> g.queue == [] && g.once.Over? && g.worker.Done?)
    && FenceInv(g)
  }

  ghost predicate FenceInv(g: Shared) {
    g.fence.Some? ==>
      g.fence.value <= |g.calls| && forall k :: g.fence.value <= k < |g.calls| ==> g.calls[k] == Closer
  }

  /** At most one thread is inside the once. */
  ghost predicate OneInOnce(threads: seq<Phase>) {
    forall i, j :: 0 <= i < |threads| && 0 <= j < |threads| && i != j ==> !(InOnce(threads[i]) && InOnce(threads[j]))
  }

  ghost predicate Inv(s: System) {
    && SharedInv(s.shared)
    && OneInOnce(s.threads)
    && forall i :: 0 <= i < |s.threads| ==> ThreadInv(s.shared, i, s.threads[i])
  }

  /** The mover is left in order, and only enters the once if nobody had. */
  ghost predicate KeepsSelf(g: Shared, i: nat, p: Phase, moved: (Shared, Phase)) {
    && SharedInv(moved.0) && ThreadInv(moved.0, i, moved.1)
    && (InOnce(moved.1) ==> InOnce(p) || g.once.NotStarted?)
  }

  lemma {:induction false} MutationKeepsSelf(g: Shared, i: nat, p: Phase, m: MutationAction)
    requires SharedInv(g) && ThreadInv(g, i, p) && MutationMove(g, i, p, m).Some?
    ensures KeepsSelf(g, i, p, MutationMove(g, i, p, m).value)
  {
  }

  lemma {:induction false} ProducerKeepsSelf(g: Shared, i: nat, p: Phase, q: ProducerAction)
    requires SharedInv(g) && ThreadInv(g, i, p) && ProducerMove(g, p, q).Some?
    ensures KeepsSelf(g, i, p, ProducerMove(g, p, q).value)
  {
  }

  lemma {:induction false} CloserKeepsSelf(g: Shared, i: nat, p: Phase, noReaders: bool, c: CloserAction)
    requires SharedInv(g) && ThreadInv(g, i, p) && CloserMove(g, i, p, noReaders, c).Some?
    ensures KeepsSelf(g, i, p, CloserMove(g, i, p, noReaders, c).value)
  {
  }

  lemma {:induction false} MoveKeepsSelf(g: Shared, i: nat, p: Phase, noReaders: bool, a: ThreadAction)
    requires SharedInv(g) && ThreadInv(g, i, p) && Move(g, i, p, noReaders, a).Some?
    ensures KeepsSelf(g, i, p, Move(g, i, p, noReaders, a).value)
  {
    match a
    case Mutate(m) => MutationKeepsSelf(g, i, p, m);
    case Produce(q) => ProducerKeepsSelf(g, i, p, q);
    case Close(c) => CloserKeepsSelf(g, i, p, noReaders, c);
  }

  lemma {:induction false} MoveKeepsOther(g: Shared, i: nat, p: Phase, noReaders: bool, a: ThreadAction, j: nat, q: Phase)
    requires SharedInv(g) && ThreadInv(g, i, p) && Move(g, i, p, noReaders, a).Some?
    requires i != j && ThreadInv(g, j, q) && !(InOnce(p) && InOnce(q)) && (noReaders ==> !Reads(q))
    ensures ThreadInv(Move(g, i, p, noReaders, a).value.0, j, q)
  {
    match a
    case Mutate(m) =>
    case Produce(r) =>
    case Close(c) =>
  }

  lemma {:induction false} ThreadStepKeepsInv(s: System, i: nat, a: ThreadAction)
    requires Inv(s) && Next(s, ThreadStep(i, a)).Some?
    ensures Inv(Next(s, ThreadStep(i, a)).value)
  {
    var s' := Next(s, ThreadStep(i, a)).value;
    var noReaders := NoReaders(s.threads);
    MoveKeepsSelf(s.shared, i, s.threads[i], noReaders, a);
    forall j | 0 <= j < |s'.threads| ensures ThreadInv(s'.shared, j, s'.threads[j]) {
      if j != i {
        MoveKeepsOther(s.shared, i, s.threads[i], noReaders, a, j, s.threads[j]);
      }
    }
    forall j, k | 0 <= j < |s'.threads| && 0 <= k < |s'.threads| && j != k
      ensures !(InOnce(s'.threads[j]) && InOnce(s'.threads[k]))
    {
      assert ThreadInv(s.shared, j, s.threads[j]) && ThreadInv(s.shared, k, s.threads[k]);
    }
  }

  lemma {:induction false} WorkerKeepsShared(g: Shared, w: WorkerAction)
    requires SharedInv(g) && WorkerMove(g, w).Some?
    ensures SharedInv(WorkerMove(g, w).value)
  {
  }

  lemma {:induction false} WorkerKeepsThread(g: Shared, w: WorkerAction, i: nat, p: Phase)
    requires SharedInv(g) && WorkerMove(g, w).Some? && ThreadInv(g, i, p)
    ensures ThreadInv(WorkerMove(g, w).value, i, p)
  {
  }

  lemma {:induction false} StepKeepsInv(s: System, step: Step)
    requires Inv(s) && Next(s, step).Some?
    ensures Inv(Next(s, step).value)
  {
    match step
    case ThreadStep(i, a) => ThreadStepKeepsInv(s, i, a);
    case WorkerStep(w) =>
      WorkerKeepsShared(s.shared, w);
      forall i | 0 <= i < |s.threads| ensures ThreadInv(Next(s, step).value.shared, i, s.threads[i]) {
        WorkerKeepsThread(s.shared, w, i, s.threads[i]);
      }
  }

  lemma {:induction false} RunsKeepInv(s: System, schedule: Schedule)
    requires Inv(s) && Exec(s, schedule).Some?
    ensures Inv(Exec(s, schedule).value)
    decreases |schedule|
  {
    if schedule != [] {
      StepKeepsInv(s, schedule[0]);
      RunsKeepInv(Next(s, schedule[0]).value, schedule[1..]);
    }
  }

  lemma {:induction false} Reachable(n: nat, schedule: Schedule)
    requires Exec(Initial(n), schedule).Some?
    ensures Inv(Exec(Initial(n), schedule).value)
  {
    RunsKeepInv(Initial(n), schedule);
  }

  // ---------- The fence ----------

  /** From the moment a closer first holds the gate, the backend is called by closers only, in every run. */
  lemma {:induction false} OnlyClosersCallAfterFence(n: nat, schedule: Schedule, k: nat)
    requires Exec(Initial(n), schedule).Some?
    ensures var g := Exec(Initial(n), schedule).value.shared;
      g.fence.Some? && g.fence.value <= k < |g.calls| ==> g.calls[k] == Closer
  {
    Reachable(n, schedule);
  }

  /** What one step can only add to: the fence does not move, done stays done, drained stays drained. */
  ghost predicate Advances(g: Shared, g': Shared) {
    && (g.fence.Some? ==> g'.fence == g.fence)
    && (g.worker.Done? ==> g'.worker.Done?)
    && (g.drained ==> g'.drained)
    && (g.once.Over? ==> g'.once.Over?)
  }

  /** The queue does not grow. */
  ghost predicate NothingEnqueued(g: Shared, g': Shared) {
    g'.enqueued == g.enqueued && |g'.queue| <= |g.queue|
  }

  lemma {:induction false} CloserAdvances(g: Shared, i: nat, p: Phase, noReaders: bool, c: CloserAction)
    requires ThreadInv(g, i, p) && CloserMove(g, i, p, noReaders, c).Some?
    ensures Advances(g, CloserMove(g, i, p, noReaders, c).value.0)
    ensures NothingEnqueued(g, CloserMove(g, i, p, noReaders, c).value.0)
  {
  }

  lemma {:induction false} ThreadAdvances(g: Shared, i: nat, p: Phase, noReaders: bool, a: ThreadAction)
    requires ThreadInv(g, i, p) && Move(g, i, p, noReaders, a).Some?
    ensures Advances(g, Move(g, i, p, noReaders, a).value.0)
    ensures g.once.Over? ==> NothingEnqueued(g, Move(g, i, p, noReaders, a).value.0)
  {
    match a
    case Mutate(m) =>
    case Produce(q) =>
    case Close(c) => CloserAdvances(g, i, p, noReaders, c);
  }

  /**
  From any reachable state on: the fence stays where it is; once the stop signal has returned
  nothing is ever enqueued again; once the worker is done it stays done; and once a closer has drained
  the queue it is empty for good.
   */
  lemma {:induction false} ClosingIsOneWay(s: System, schedule: Schedule)
    requires Inv(s) && Exec(s, schedule).Some?
    ensures var g, g' := s.shared, Exec(s, schedule).value.shared;
      && Advances(g, g')
      && (g.once.Over? ==> NothingEnqueued(g, g'))
      && (g.drained ==> g'.queue == [])
    decreases |schedule|
  {
    if schedule != [] {
      var next := Next(s, schedule[0]).value;
      match schedule[0] {
        case ThreadStep(i, a) => ThreadAdvances(s.shared, i, s.threads[i], NoReaders(s.threads), a);
        case WorkerStep(w) =>
      }
      assert Advances(s.shared, next.shared);
      StepKeepsInv(s, schedule[0]);
      ClosingIsOneWay(next, schedule[1..]);
    }
  }

  /** The same for runs from the start: what a finished close leaves behind. */
  lemma {:induction false} NothingAfterStop(n: nat, prefix: Schedule, schedule: Schedule)
    requires Exec(Initial(n), prefix).Some? && Exec(Exec(Initial(n), prefix).value, schedule).Some?
    ensures var g := Exec(Initial(n), prefix).value.shared; var g' := Exec(Exec(Initial(n), prefix).value, schedule).value.shared;
      && (g.once.Over? ==> NothingEnqueued(g, g'))
      && (g.drained ==> g'.queue == [] && g'.inFlight == 0)
  {
    Reachable(n, prefix);
    ClosingIsOneWay(Exec(Initial(n), prefix).value, schedule);
    RunsKeepInv(Exec(Initial(n), prefix).value, schedule);
  }

  // ---------- Deliveries ----------

  /** Never more than four deliveries at once, none left when the worker is done, and none started after that. */
  lemma {:induction false} DeliveriesBounded(n: nat, prefix: Schedule, schedule: Schedule)
    requires Exec(Initial(n), prefix).Some? && Exec(Exec(Initial(n), prefix).value, schedule).Some?
    ensures var g := Exec(Initial(n), prefix).value.shared; var g' := Exec(Exec(Initial(n), prefix).value, schedule).value.shared;
      && g.inFlight <= MAX_DELIVERIES
      && (g.worker.Done? ==> g.inFlight == 0 && g'.worker.Done? && g'.inFlight == 0)
  {
    Reachable(n, prefix);
    ClosingIsOneWay(Exec(Initial(n), prefix).value, schedule);
    RunsKeepInv(Exec(Initial(n), prefix).value, schedule);
  }

  // ---------- Stopping never hangs on a producer ----------

  /**
  While a closer waits for the admission lock, every producer that holds it can leave at once, even
  one that was blocked on a full queue; with none left, the closer goes on.
   */
  lemma {:induction false} StopIsNotBlocked(n: nat, schedule: Schedule, i: nat)
    requires Exec(Initial(n), schedule).Some?
    requires i < |Exec(Initial(n), schedule).value.threads|
    requires Exec(Initial(n), schedule).value.threads[i].CloserLocking?
    ensures var s := Exec(Initial(n), schedule).value;
      && s.shared.stopped && s.shared.stopClosed
      && (NoReaders(s.threads) ==> Next(s, ThreadStep(i, Close(FinishOnce))).Some?)
      && forall j :: 0 <= j < |s.threads| && Reads(s.threads[j]) ==> CanLeave(s, j)
  {
    Reachable(n, schedule);
    var s := Exec(Initial(n), schedule).value;
    assert ThreadInv(s.shared, i, s.threads[i]);
    forall j | 0 <= j < |s.threads| && Reads(s.threads[j]) ensures CanLeave(s, j) {
      var step := ThreadStep(j, Produce(if s.threads[j].ProducerLocked? then CheckStopped else GiveUp));
      assert Next(s, step).Some? && Next(s, step).value.threads[j] == Out;
    }
  }

  /** One step of its own takes thread j out. */
  ghost predicate CanLeave(s: System, j: nat) {
    exists a :: Next(s, ThreadStep(j, a)).Some? && j < |s.threads| && Next(s, ThreadStep(j, a)).value.threads[j] == Out
  }
}
