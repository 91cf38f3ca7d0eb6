/**
The shared/exclusive lifecycle gate of the HTTP server.

Every mutex-protected section of the gate is one method of `XrayLifecycleGate`, proved
against a function on `Gate` values.  The protocol around those sections (park on the broadcast
channel, wake, observe cancellation, back out) is a transition system over any number of
threads.  Broadcast channels are numbered: `changed` is the one that is open, every
smaller number has been closed.
 */
module LifecycleGate {
  import opened Wrappers

  datatype Mode = Idle | Starts | Exclusive

  datatype Gate = Gate(mode: Mode, activeStarts: int, waitingExclusive: int, changed: nat)

  const NEW_GATE := Gate(Idle, 0, 0, 0)

  // ---------- The critical sections, as functions ----------

  function Notify(g: Gate): Gate {
    g.(changed := g.changed + 1)
  }

  predicate AdmitsStart(g: Gate) {
    g.waitingExclusive == 0 && (g.mode == Starts || g.mode == Idle)
  }

  function AdmitStart(g: Gate): Gate {
    g.(mode := Starts, activeStarts := g.activeStarts + 1)
  }

  /** None is the panic of a release without a lease. */
  function ReleaseStart(g: Gate): Option<Gate> {
    if g.mode != Starts || g.activeStarts == 0 then None
    else
      var left := g.(activeStarts := g.activeStarts - 1);
      Some(if left.activeStarts == 0 then Notify(left.(mode := Idle)) else left)
  }

  function CountWaiter(g: Gate): Gate {
    g.(waitingExclusive := g.waitingExclusive + 1)
  }

  function AdmitExclusive(g: Gate): Gate {
    g.(waitingExclusive := g.waitingExclusive - 1, mode := Exclusive)
  }

  function CancelExclusive(g: Gate): Gate {
    var left := g.(waitingExclusive := g.waitingExclusive - 1);
    if left.mode == Idle && left.waitingExclusive == 0 then Notify(left) else left
  }

  function ReleaseExclusive(g: Gate): Option<Gate> {
    if g.mode != Exclusive then None else Some(Notify(g.(mode := Idle)))
  }

  // ---------- The critical sections, as the source runs them ----------

  class XrayLifecycleGate {
    var mode: Mode
    var activeStarts: int
    var waitingExclusive: int
    var changed: nat

    ghost function View(): Gate
      reads this
    {
      Gate(mode, activeStarts, waitingExclusive, changed)
    }

    constructor ()
      ensures View() == NEW_GATE
    {
      mode, activeStarts, waitingExclusive, changed := Idle, 0, 0, 0;
    }

    method NotifyLocked()
      modifies this`changed
      ensures View() == Notify(old(View()))
    {
      changed := changed + 1;
    }

    /** One round of the start loop: admitted, or the channel to park on. */
    method TryStart() returns (admitted: bool, channel: nat)
      modifies this
      ensures admitted == AdmitsStart(old(View()))
      ensures View() == if admitted then AdmitStart(old(View())) else old(View())
      ensures channel == old(changed)
    {
      channel := changed;
      admitted := waitingExclusive == 0 && (mode == Starts || mode == Idle);
      if admitted {
        mode := Starts;
        activeStarts := activeStarts + 1;
      }
    }

    method ReleaseStartLease() returns (panicked: bool)
      modifies this
      ensures panicked == ReleaseStart(old(View())).None?
      ensures View() == if panicked then old(View()) else ReleaseStart(old(View())).value
    {
      if mode != Starts || activeStarts == 0 {
        return true;
      }
      activeStarts := activeStarts - 1;
      if activeStarts == 0 {
        mode := Idle;
        NotifyLocked();
      }
      panicked := false;
    }

    /** The first lock of an exclusive acquire also counts the waiter. */
    method EnterExclusive() returns (admitted: bool, channel: nat)
      modifies this
      ensures admitted == (old(mode) == Idle)
      ensures View() == if admitted then AdmitExclusive(CountWaiter(old(View()))) else CountWaiter(old(View()))
      ensures channel == old(changed)
    {
      waitingExclusive := waitingExclusive + 1;
      admitted, channel := RetryExclusive();
    }

    method RetryExclusive() returns (admitted: bool, channel: nat)
      modifies this
      ensures admitted == (old(mode) == Idle)
      ensures View() == if admitted then AdmitExclusive(old(View())) else old(View())
      ensures channel == old(changed)
    {
      channel := changed;
      admitted := mode == Idle;
      if admitted {
        waitingExclusive := waitingExclusive - 1;
        mode := Exclusive;
      }
    }

    method CancelExclusiveWait()
      modifies this
      ensures View() == CancelExclusive(old(View()))
    {
      waitingExclusive := waitingExclusive - 1;
      if mode == Idle && waitingExclusive == 0 {
        NotifyLocked();
      }
    }

    method ReleaseExclusiveLease() returns (panicked: bool)
      modifies this
      ensures panicked == ReleaseExclusive(old(View())).None?
      ensures View() == if panicked then old(View()) else ReleaseExclusive(old(View())).value
    {
      if mode != Exclusive {
        return true;
      }
      mode := Idle;
      NotifyLocked();
      panicked := false;
    }
  }

  // ---------- The protocol of the threads ----------

  datatype Phase =
    | Out
    | StartTry
    | StartParked(on: nat)
    | StartAdmitted       // counted; its context not yet looked at
    | StartHolding
    | StartBackout        // cancelled after admission, owes a release
    | ExclusiveRetry      // counted and woken, about to lock
    | ExclusiveParked(on: nat)
    | ExclusiveCancelled  // counted, owes the cancel section
    | ExclusiveAdmitted
    | ExclusiveHolding
    | ExclusiveBackout

  predicate StartLease(p: Phase) {
    p.StartAdmitted? || p.StartHolding? || p.StartBackout?
  }

  predicate ExclusiveWaiter(p: Phase) {
    p.ExclusiveRetry? || p.ExclusiveParked? || p.ExclusiveCancelled?
  }

  predicate ExclusiveLease(p: Phase) {
    p.ExclusiveAdmitted? || p.ExclusiveHolding? || p.ExclusiveBackout?
  }

  predicate Inside(p: Phase) {
    !p.Out?
  }

  predicate Parked(p: Phase) {
    p.StartParked? || p.ExclusiveParked?
  }

  datatype System = System(gate: Gate, threads: seq<Phase>)

  datatype Action =
    | ArriveStart
    | ArriveExclusive
    | TryStart
    | RetryExclusive
    | Wake
    | Cancel
    | FinishCancel
    | LookAtContext(cancelled: bool)
    | Release

  predicate IsArrival(a: Action) {
    a.ArriveStart? || a.ArriveExclusive?
  }

  /** The gate and the phase after an action of a thread in phase p; None when it is not enabled. */
  function Move(g: Gate, p: Phase, a: Action): Option<(Gate, Phase)> {
    match a
    case ArriveStart => if p.Out? then Some((g, StartTry)) else None
    case TryStart =>
      if !p.StartTry? then None
      else if AdmitsStart(g) then Some((AdmitStart(g), StartAdmitted))
      else Some((g, StartParked(g.changed)))
    case ArriveExclusive =>
      if !p.Out? then None
      else if g.mode == Idle then Some((AdmitExclusive(CountWaiter(g)), ExclusiveAdmitted))
      else Some((CountWaiter(g), ExclusiveParked(g.changed)))
    case RetryExclusive =>
      if !p.ExclusiveRetry? then None
      else if g.mode == Idle then Some((AdmitExclusive(g), ExclusiveAdmitted))
      else Some((g, ExclusiveParked(g.changed)))
    case Wake =>
      if p.StartParked? && p.on < g.changed then Some((g, StartTry))
      else if p.ExclusiveParked? && p.on < g.changed then Some((g, ExclusiveRetry))
      else None
    case Cancel =>
      if p.StartParked? then Some((g, Out))
      else if p.ExclusiveParked? then Some((g, ExclusiveCancelled))
      else None
    case FinishCancel =>
      if p.ExclusiveCancelled? then Some((CancelExclusive(g), Out)) else None
    case LookAtContext(cancelled) =>
      if p.StartAdmitted? then Some((g, if cancelled then StartBackout else StartHolding))
      else if p.ExclusiveAdmitted? then Some((g, if cancelled then ExclusiveBackout else ExclusiveHolding))
      else None
    case Release =>
      if p.StartHolding? || p.StartBackout? then
        var released := ReleaseStart(g);
        if released.None? then None else Some((released.value, Out))
      else if p.ExclusiveHolding? || p.ExclusiveBackout? then
        var released := ReleaseExclusive(g);
        if released.None? then None else Some((released.value, Out))
      else None
  }

  function Next(s: System, t: nat, a: Action): Option<System> {
    if t >= |s.threads| then None
    else
      var moved := Move(s.gate, s.threads[t], a);
      if moved.None? then None
      else Some(System(moved.value.0, s.threads[t := moved.value.1]))
  }

  function Initial(n: nat): System {
    System(NEW_GATE, seq(n, _ => Out))
  }

  type Schedule = seq<(nat, Action)>

  function Exec(s: System, schedule: Schedule): Option<System>
    decreases |schedule|
  {
    if schedule == [] then Some(s)
    else
      var next := Next(s, schedule[0].0, schedule[0].1);
      if next.None? then None else Exec(next.value, schedule[1..])
  }

  // ---------- Counting threads ----------

  function Count(threads: seq<Phase>, p: Phase -> bool): nat {
    if threads == [] then 0
    else (if p(threads[0]) then 1 else 0) + Count(threads[1..], p)
  }

  lemma {:induction false} CountUpdate(threads: seq<Phase>, p: Phase -> bool, t: nat, phase: Phase)
    requires t < |threads|
    ensures Count(threads[t := phase], p)
         == Count(threads, p) - (if p(threads[t]) then 1 else 0) + (if p(phase) then 1 else 0)
  {
    if t == 0 {
      assert threads[t := phase][1..] == threads[1..];
    } else {
      assert threads[t := phase][1..] == threads[1..][t - 1 := phase];
      CountUpdate(threads[1..], p, t - 1, phase);
    }
  }

  lemma {:induction false} CountZero(threads: seq<Phase>, p: Phase -> bool)
    ensures Count(threads, p) == 0 <==> forall t :: 0 <= t < |threads| ==> !p(threads[t])
  {
    if threads != [] {
      CountZero(threads[1..], p);
      assert forall t :: 1 <= t < |threads| ==> threads[t] == threads[1..][t - 1];
      assert forall t :: 0 <= t < |threads[1..]| ==> threads[1..][t] == threads[t + 1];
    }
  }

  lemma {:induction false} CountTwo(threads: seq<Phase>, p: Phase -> bool, i: nat, j: nat)
    requires i < j < |threads| && p(threads[i]) && p(threads[j]) && !p(Out)
    ensures Count(threads, p) >= 2
  {
    CountUpdate(threads, p, i, Out);
    CountUpdate(threads, p, j, Out);
    CountUpdate(threads[i := Out], p, j, Out);
  }

  // ---------- The invariant ----------

  ghost predicate Inv(s: System) {
    Counted(s) && NobodyForgotten(s)
  }

  /** The gate's counters and mode count exactly the threads they are for. */
  ghost predicate Counted(s: System) {
    && s.gate.activeStarts == Count(s.threads, StartLease)
    && s.gate.waitingExclusive == Count(s.threads, ExclusiveWaiter)
    && Count(s.threads, ExclusiveLease) == (if s.gate.mode == Exclusive then 1 else 0)
    && (s.gate.mode == Starts <==> s.gate.activeStarts > 0)
  }

  /** No thread sleeps on the current broadcast while it could be admitted. */
  ghost predicate NobodyForgotten(s: System) {
    && (forall t :: 0 <= t < |s.threads| && Parked(s.threads[t]) ==> s.threads[t].on <= s.gate.changed)
    && (s.gate.mode == Idle ==>
          forall t :: 0 <= t < |s.threads| ==> s.threads[t] != ExclusiveParked(s.gate.changed))
    && (s.gate.mode == Idle && s.gate.waitingExclusive == 0 ==>
          forall t :: 0 <= t < |s.threads| ==> s.threads[t] != StartParked(s.gate.changed))
  }

  lemma {:induction false} InitialInv(n: nat)
    ensures Inv(Initial(n))
  {
    var threads := Initial(n).threads;
    CountZero(threads, StartLease);
    CountZero(threads, ExclusiveWaiter);
    CountZero(threads, ExclusiveLease);
  }

  lemma {:induction false} StepKeepsInv(s: System, t: nat, a: Action)
    requires Inv(s) && Next(s, t, a).Some?
    ensures Inv(Next(s, t, a).value)
  {
    StepKeepsCounts(s, t, a);
    StepForgetsNobody(s, t, a);
  }

  lemma {:induction false} StepForgetsNobody(s: System, t: nat, a: Action)
    requires Inv(s) && Next(s, t, a).Some?
    ensures NobodyForgotten(Next(s, t, a).value)
  {
    CountZero(s.threads, ExclusiveWaiter);
  }

  lemma {:induction false} StepKeepsCounts(s: System, t: nat, a: Action)
    requires Inv(s) && Next(s, t, a).Some?
    ensures Counted(Next(s, t, a).value)
  {
    var s' := Next(s, t, a).value;
    CountUpdate(s.threads, StartLease, t, s'.threads[t]);
    CountUpdate(s.threads, ExclusiveWaiter, t, s'.threads[t]);
    CountUpdate(s.threads, ExclusiveLease, t, s'.threads[t]);
    CountZero(s.threads, StartLease);
    CountZero(s.threads, ExclusiveLease);
  }

  /** Every state of every run of any number of threads satisfies the invariant. */
  lemma {:induction false} RunsKeepInv(s: System, schedule: Schedule)
    requires Inv(s) && Exec(s, schedule).Some?
    ensures Inv(Exec(s, schedule).value)
    decreases |schedule|
  {
    if schedule != [] {
      StepKeepsInv(s, schedule[0].0, schedule[0].1);
      RunsKeepInv(Next(s, schedule[0].0, schedule[0].1).value, schedule[1..]);
    }
  }

  // ---------- Safety ----------

  /** An exclusive lease excludes every other lease, and the counters count exactly their threads. */
  lemma {:induction false} MutualExclusion(n: nat, schedule: Schedule, i: nat, j: nat)
    requires Exec(Initial(n), schedule).Some?
    requires i < |Exec(Initial(n), schedule).value.threads| && j < |Exec(Initial(n), schedule).value.threads| && i != j
    ensures var s := Exec(Initial(n), schedule).value;
      && (ExclusiveLease(s.threads[i]) ==> !ExclusiveLease(s.threads[j]) && !StartLease(s.threads[j]))
      && s.gate.activeStarts == Count(s.threads, StartLease)
      && s.gate.waitingExclusive == Count(s.threads, ExclusiveWaiter)
  {
    InitialInv(n);
    RunsKeepInv(Initial(n), schedule);
    var s := Exec(Initial(n), schedule).value;
    if ExclusiveLease(s.threads[i]) {
      CountZero(s.threads, ExclusiveLease);
      CountZero(s.threads, StartLease);
      if ExclusiveLease(s.threads[j]) {
        if i < j { CountTwo(s.threads, ExclusiveLease, i, j); } else { CountTwo(s.threads, ExclusiveLease, j, i); }
      }
    }
  }

  /** A thread that owes a release can always make it: the panics are unreachable. */
  lemma {:induction false} PairedReleaseNeverPanics(n: nat, schedule: Schedule, t: nat)
    requires Exec(Initial(n), schedule).Some?
    requires t < |Exec(Initial(n), schedule).value.threads|
    ensures var s := Exec(Initial(n), schedule).value;
      && (StartLease(s.threads[t]) ==> ReleaseStart(s.gate).Some?)
      && (ExclusiveLease(s.threads[t]) ==> ReleaseExclusive(s.gate).Some?)
  {
    InitialInv(n);
    RunsKeepInv(Initial(n), schedule);
    var s := Exec(Initial(n), schedule).value;
    CountZero(s.threads, StartLease);
    CountZero(s.threads, ExclusiveLease);
  }

  /** While an exclusive waiter is counted, no step of any thread adds a start lease. */
  lemma {:induction false} WriterPreference(s: System, t: nat, a: Action)
    requires Inv(s) && Next(s, t, a).Some? && s.gate.waitingExclusive > 0
    ensures Count(Next(s, t, a).value.threads, StartLease) <= Count(s.threads, StartLease)
    ensures Next(s, t, a).value.gate.activeStarts <= s.gate.activeStarts
  {
    CountUpdate(s.threads, StartLease, t, Next(s, t, a).value.threads[t]);
  }

  /** The mode that the leases of the threads amount to. */
  function ModeOf(threads: seq<Phase>): Mode {
    if Count(threads, ExclusiveLease) > 0 then Exclusive else if Count(threads, StartLease) > 0 then Starts else Idle
  }

  /**
  In every reachable state the mode and both counters are what the threads still inside amount to:
  whoever arrived, was cancelled at any point or left before weighs nothing.
   */
  lemma {:induction false} CancelledLeavesNoTrace(n: nat, schedule: Schedule)
    requires Exec(Initial(n), schedule).Some?
    ensures var s := Exec(Initial(n), schedule).value;
      s.gate == Gate(ModeOf(s.threads), Count(s.threads, StartLease), Count(s.threads, ExclusiveWaiter), s.gate.changed)
  {
    InitialInv(n);
    RunsKeepInv(Initial(n), schedule);
  }

  // ---------- The gate is never stuck ----------

  predicate IsCancellation(a: Action) {
    a.Cancel? || a == LookAtContext(true)
  }

  /** A step that needs neither an arrival nor a cancelled context. */
  predicate IsMove(s: System, t: nat, a: Action) {
    !IsArrival(a) && !IsCancellation(a) && Next(s, t, a).Some?
  }

  /** The action a thread that is not parked on the open channel can take without being cancelled. */
  function RunnableAction(p: Phase): Action {
    match p
    case StartTry => TryStart
    case ExclusiveRetry => RetryExclusive
    case ExclusiveCancelled => FinishCancel
    case StartAdmitted => LookAtContext(false)
    case ExclusiveAdmitted => LookAtContext(false)
    case StartParked(_) => Wake
    case ExclusiveParked(_) => Wake
    case _ => Release
  }

  predicate ParkedOnOpen(g: Gate, p: Phase) {
    Parked(p) && p.on >= g.changed
  }

  lemma {:induction false} RunnableMoves(s: System, t: nat)
    requires Inv(s) && t < |s.threads| && Inside(s.threads[t]) && !ParkedOnOpen(s.gate, s.threads[t])
    ensures IsMove(s, t, RunnableAction(s.threads[t]))
  {
    CountZero(s.threads, StartLease);
    CountZero(s.threads, ExclusiveLease);
  }

  /**
  As long as somebody is inside, somebody inside can move, without any cancellation or
  arrival: a parked thread never waits for a notification that nobody is left to send.
   */
  lemma {:induction false} NeverStuck(s: System)
    requires Inv(s) && Count(s.threads, Inside) > 0
    ensures exists t: nat, a :: IsMove(s, t, a)
  {
    if forall t :: 0 <= t < |s.threads| ==> !Inside(s.threads[t]) || ParkedOnOpen(s.gate, s.threads[t]) {
      CountZero(s.threads, Inside);
      CountZero(s.threads, StartLease);
      CountZero(s.threads, ExclusiveLease);
      CountZero(s.threads, ExclusiveWaiter);
      assert false;
    }
    var t :| 0 <= t < |s.threads| && Inside(s.threads[t]) && !ParkedOnOpen(s.gate, s.threads[t]);
    RunnableMoves(s, t);
  }

  const TOP_RANK: nat := 5

  /** How many steps a thread can still take before somebody has to leave the gate. */
  function Rank(p: Phase, changed: nat): nat
    ensures Rank(p, changed) <= TOP_RANK
  {
    match p
    case Out => 0
    case ExclusiveCancelled => 0
    case StartHolding => 1
    case StartBackout => 1
    case ExclusiveHolding => 1
    case ExclusiveBackout => 1
    case StartAdmitted => 2
    case ExclusiveAdmitted => 2
    case StartTry => 4
    case ExclusiveRetry => 4
    case StartParked(on) => if on < changed then 5 else 1
    case ExclusiveParked(on) => if on < changed then 5 else 1
  }

  function RankSum(threads: seq<Phase>, changed: nat): nat
  {
    if threads == [] then 0 else Rank(threads[0], changed) + RankSum(threads[1..], changed)
  }

  lemma {:induction false} RankSumUpdate(threads: seq<Phase>, changed: nat, t: nat, phase: Phase)
    requires t < |threads|
    ensures RankSum(threads[t := phase], changed)
         == RankSum(threads, changed) - Rank(threads[t], changed) + Rank(phase, changed)
  {
    if t == 0 {
      assert threads[t := phase][1..] == threads[1..];
    } else {
      assert threads[t := phase][1..] == threads[1..][t - 1 := phase];
      RankSumUpdate(threads[1..], changed, t - 1, phase);
    }
  }

  lemma {:induction false} RankSumBounded(threads: seq<Phase>, changed: nat)
    ensures RankSum(threads, changed) <= TOP_RANK * |threads|
  {
    if threads != [] {
      RankSumBounded(threads[1..], changed);
    }
  }

  /** The longest a run without arrivals can go on from s. */
  function Potential(s: System): nat {
    Count(s.threads, Inside) * (TOP_RANK * |s.threads| + 1) + RankSum(s.threads, s.gate.changed)
  }

  lemma {:induction false} LapSpared(n: nat, lap: nat, before: nat, after: nat)
    requires n > 0 && after < lap
    ensures (n - 1) * lap + after < n * lap + before
  {
    assert n * lap == (n - 1) * lap + lap;
  }

  lemma {:induction false} StepsUsePotential(s: System, t: nat, a: Action)
    requires Inv(s) && Next(s, t, a).Some? && !IsArrival(a)
    ensures Potential(Next(s, t, a).value) < Potential(s)
  {
    var s' := Next(s, t, a).value;
    CountUpdate(s.threads, Inside, t, s'.threads[t]);
    RankSumUpdate(s.threads, s.gate.changed, t, s'.threads[t]);
    RankSumBounded(s'.threads, s'.gate.changed);
    if s'.threads[t].Out? {
      LapSpared(Count(s.threads, Inside), TOP_RANK * |s.threads| + 1, RankSum(s.threads, s.gate.changed), RankSum(s'.threads, s'.gate.changed));
    }
  }

  lemma {:induction false} RunsAreBounded(s: System, schedule: Schedule)
    requires Inv(s) && Exec(s, schedule).Some?
    requires forall k :: 0 <= k < |schedule| ==> !IsArrival(schedule[k].1)
    ensures |schedule| + Potential(Exec(s, schedule).value) <= Potential(s)
    decreases |schedule|
  {
    if schedule != [] {
      var s' := Next(s, schedule[0].0, schedule[0].1).value;
      StepKeepsInv(s, schedule[0].0, schedule[0].1);
      StepsUsePotential(s, schedule[0].0, schedule[0].1);
      assert forall k :: 0 <= k < |schedule[1..]| ==> schedule[1..][k] == schedule[k + 1];
      RunsAreBounded(s', schedule[1..]);
    }
  }

  /**
  Once arrivals stop, every run is shorter than the potential of its first state, and one that
  can go no further has let every thread out: nobody starves behind the gate.
   */
  lemma {:induction false} EverybodyLeaves(n: nat, prefix: Schedule, schedule: Schedule)
    requires Exec(Initial(n), prefix).Some?
    requires Exec(Exec(Initial(n), prefix).value, schedule).Some?
    requires forall k :: 0 <= k < |schedule| ==> !IsArrival(schedule[k].1)
    ensures |schedule| <= Potential(Exec(Initial(n), prefix).value)
    ensures var last := Exec(Exec(Initial(n), prefix).value, schedule).value;
      (forall t: nat, a :: !IsMove(last, t, a)) <==> Count(last.threads, Inside) == 0
  {
    var s := Exec(Initial(n), prefix).value;
    InitialInv(n);
    RunsKeepInv(Initial(n), prefix);
    RunsAreBounded(s, schedule);
    RunsKeepInv(s, schedule);
    var last := Exec(s, schedule).value;
    if Count(last.threads, Inside) > 0 {
      NeverStuck(last);
    }
    CountZero(last.threads, Inside);
  }

  // ---------- What the gate does not promise ----------

  /** No start that the gate would admit sleeps on the open channel. */
  ghost predicate AdmissibleNotParked(s: System) {
    AdmitsStart(s.gate) ==> forall t :: 0 <= t < |s.threads| ==> s.threads[t] != StartParked(s.gate.changed)
  }

  /** The last exclusive waiter gives up while starts are running: the one section that forgets to notify. */
  ghost predicate SilentCancel(s: System, a: Action) {
    && a.FinishCancel? && s.gate.mode == Starts && s.gate.waitingExclusive == 1
    && exists t :: 0 <= t < |s.threads| && s.threads[t] == StartParked(s.gate.changed)
  }

  lemma {:induction false} ExecCons(s: System, t: nat, a: Action, next: System, rest: Schedule) returns (schedule: Schedule)
    requires Next(s, t, a).Some? && Next(s, t, a).value.gate == next.gate && Next(s, t, a).value.threads == next.threads
    ensures schedule == [(t, a)] + rest
    ensures Exec(s, schedule) == Exec(next, rest)
  {
    schedule := [(t, a)] + rest;
    assert schedule[1..] == rest;
  }

  /** An admissible start can sleep until the running starts drain: three threads show it. */
  lemma {:induction false} AdmissibleStartCanBeParked()
    ensures exists schedule: Schedule ::
      Exec(Initial(3), schedule).Some? && !AdmissibleNotParked(Exec(Initial(3), schedule).value)
  {
    var busy := Gate(Starts, 1, 0, 0);
    var s7 := System(busy, [StartAdmitted, Out, StartParked(0)]);
    var s6 := System(CountWaiter(busy), [StartAdmitted, ExclusiveCancelled, StartParked(0)]);
    var s5 := System(CountWaiter(busy), [StartAdmitted, ExclusiveParked(0), StartParked(0)]);
    var s4 := System(CountWaiter(busy), [StartAdmitted, ExclusiveParked(0), StartTry]);
    var s3 := System(CountWaiter(busy), [StartAdmitted, ExclusiveParked(0), Out]);
    var s2 := System(busy, [StartAdmitted, Out, Out]);
    var s1 := System(NEW_GATE, [StartTry, Out, Out]);
    var r7: Schedule := [];
    var r6 := ExecCons(s6, 1, FinishCancel, s7, r7);
    var r5 := ExecCons(s5, 1, Cancel, s6, r6);
    var r4 := ExecCons(s4, 2, TryStart, s5, r5);
    var r3 := ExecCons(s3, 2, ArriveStart, s4, r4);
    var r2 := ExecCons(s2, 1, ArriveExclusive, s3, r3);
    var r1 := ExecCons(s1, 0, TryStart, s2, r2);
    var r0 := ExecCons(Initial(3), 0, ArriveStart, s1, r1);
    assert s7.threads[2] == StartParked(s7.gate.changed);
  }

  /** It is exactly the silent cancel that breaks the stronger property; every other step keeps it. */
  lemma {:induction false} OnlySilentCancelParksAdmissible(s: System, t: nat, a: Action)
    requires Inv(s) && AdmissibleNotParked(s) && Next(s, t, a).Some?
    ensures AdmissibleNotParked(Next(s, t, a).value) <==> !SilentCancel(s, a)
  {
    var s' := Next(s, t, a).value;
    CountUpdate(s.threads, StartLease, t, s'.threads[t]);
    CountZero(s.threads, ExclusiveLease);
    if SilentCancel(s, a) {
      var u :| 0 <= u < |s.threads| && s.threads[u] == StartParked(s.gate.changed);
      assert s'.threads[u] == StartParked(s'.gate.changed);
    }
    StepKeepsInv(s, t, a);
  }
}
