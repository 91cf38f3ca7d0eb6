/**
Layered request admission: the nested bounded slots of the HTTP server, the decoder slots of
the body budget and, innermost, the lifecycle gate.

A request climbs its layers in one fixed order, looks at its context after every slot it gets,
and gives everything back in reverse order on every way out.  Each channel operation is
one atomic step; any number of requests interleave.
 */
module Admission {
  import opened Wrappers
  import G = LifecycleGate

  // The layers, outermost first.
  const BULK: nat := 0
  const START: nat := 1
  const READ: nat := 2
  const TOTAL: nat := 3
  const DECODER: nat := 4
  const LAYERS: nat := 5

  /** What a route needs: which optional layers it goes through and which lease its handler may take. */
  datatype Kind = Kind(bulk: bool, start: bool, readOnly: bool, compressed: bool, gate: Option<G.Action>)

  predicate ValidKind(k: Kind) {
    k.gate.Some? ==> G.IsArrival(k.gate.value)
  }

  /** Every request takes a handler slot; the other layers let it pass untouched unless its route uses them. */
  predicate Needs(k: Kind, layer: nat) {
    match layer
    case 0 => k.bulk
    case 1 => k.start
    case 2 => k.readOnly
    case 3 => true
    case 4 => k.compressed
    case _ => false
  }

  datatype Capacity = Capacity(maxActive: int, maxBulk: int, maxStart: int, maxDecoders: int)

  function AtLeastOne(n: int): nat {
    if n <= 0 then 1 else n
  }

  /** Channel capacities; read-only routes get one slot less than the total unless only one exists. */
  function Cap(c: Capacity, layer: nat): nat {
    match layer
    case 0 => AtLeastOne(c.maxBulk)
    case 1 => AtLeastOne(c.maxStart)
    case 2 => if AtLeastOne(c.maxActive) > 1 then AtLeastOne(c.maxActive) - 1 else 1
    case 3 => AtLeastOne(c.maxActive)
    case _ => if c.maxDecoders < 0 then 0 else c.maxDecoders
  }

  datatype Stage =
    | Absent
    | Waiting             // about to enter the layer at its depth, or blocked in that layer's select
    | Checking            // got the slot, context not looked at yet
    | Serving(gateDone: bool)
    | AtGate
    | Unwinding           // deferred releases, innermost first

  /** A request and the number of layers it is inside of. */
  datatype Request = Request(kind: Kind, stage: Stage, depth: nat)

  predicate WellPlaced(r: Request) {
    && ValidKind(r.kind)
    && r.depth <= LAYERS
    && match r.stage
       case Absent => r.depth == 0
       case Waiting => true
       case Checking => r.depth > 0
       case Serving(_) => r.depth == LAYERS
       case AtGate => r.depth == LAYERS
       case Unwinding => r.depth > 0
  }

  predicate Holds(r: Request, layer: nat) {
    layer < r.depth && Needs(r.kind, layer)
  }

  datatype System = System(cap: Capacity, used: seq<int>, requests: seq<Request>, gate: G.System)

  datatype Action =
    | Arrive(kind: Kind)
    | Pass
    | Acquire
    | GiveUp
    | LookAtContext(cancelled: bool)
    | EnterGate
    | GateMove(move: G.Action)
    | Finish
    | Unwind

  function Leave(r: Request): Request {
    if r.depth == 0 then r.(stage := Absent) else r.(stage := Unwinding)
  }

  /** The step of one request, with what it does to the channel of its layer (+1, 0 or -1 tokens). */
  function Move(r: Request, used: seq<int>, cap: Capacity, a: Action): Option<(Request, int)>
    requires |used| == LAYERS
  {
    match a
    case Arrive(kind) =>
      if r.stage.Absent? && ValidKind(kind) then Some((Request(kind, Waiting, 0), 0)) else None
    case Pass =>
      if r.stage.Waiting? && r.depth < LAYERS && !Needs(r.kind, r.depth) then
        Some((r.(depth := r.depth + 1), 0))
      else if r.stage.Waiting? && r.depth == LAYERS then Some((r.(stage := Serving(false)), 0))
      else None
    case Acquire =>
      if r.stage.Waiting? && r.depth < LAYERS && Needs(r.kind, r.depth) && used[r.depth] < Cap(cap, r.depth) then
        Some((r.(stage := Checking, depth := r.depth + 1), 1))
      else None
    case GiveUp =>
      if r.stage.Waiting? && r.depth < LAYERS && Needs(r.kind, r.depth) then Some((Leave(r), 0)) else None
    case LookAtContext(cancelled) =>
      if !r.stage.Checking? then None
      else Some((if cancelled then Leave(r) else r.(stage := Waiting), 0))
    case Finish =>
      if r.stage.Serving? then Some((Leave(r), 0)) else None
    case Unwind =>
      if r.stage.Unwinding? && r.depth > 0 then
        Some((Leave(r.(depth := r.depth - 1)), if Needs(r.kind, r.depth - 1) then -1 else 0))
      else None
    case _ => None
  }

  /** The layer whose channel a slot step of r touches. */
  function TouchedLayer(r: Request, a: Action): nat {
    if a.Unwind? && r.depth > 0 then r.depth - 1 else r.depth
  }

  function GateNext(s: System, i: nat, a: Action): Option<System>
    requires i < |s.requests|
  {
    var r := s.requests[i];
    match a
    case EnterGate =>
      if r.stage == Serving(false) && r.kind.gate.Some? && ValidKind(r.kind) then
        var entered := G.Next(s.gate, i, r.kind.gate.value);
        if entered.None? then None
        else Some(s.(gate := entered.value, requests := s.requests[i := r.(stage := AtGate)]))
      else None
    case GateMove(move) =>
      if r.stage.AtGate? && !G.IsArrival(move) then
        var moved := G.Next(s.gate, i, move);
        if moved.None? then None
        else
          var inside := i < |moved.value.threads| && G.Inside(moved.value.threads[i]);
          Some(s.(gate := moved.value, requests := s.requests[i := r.(stage := if inside then AtGate else Serving(true))]))
      else None
    case _ => None
  }

  function Next(s: System, i: nat, a: Action): Option<System> {
    if i >= |s.requests| || |s.used| != LAYERS then None
    else if a.EnterGate? || a.GateMove? then GateNext(s, i, a)
    else
      var r := s.requests[i];
      var moved := Move(r, s.used, s.cap, a);
      if moved.None? then None
      else
        var layer := TouchedLayer(r, a);
        var used := if layer < LAYERS then s.used[layer := s.used[layer] + moved.value.1] else s.used;
        Some(s.(used := used, requests := s.requests[i := moved.value.0]))
  }

  function Initial(cap: Capacity, n: nat): System {
    System(cap, [0, 0, 0, 0, 0],
           seq(n, _ => Request(Kind(false, false, false, false, None), Absent, 0)), G.Initial(n))
  }

  type Schedule = seq<(nat, Action)>

  function Exec(s: System, schedule: Schedule): Option<System>
    decreases |schedule|
  {
    if schedule == [] then Some(s)
    else
      var next := Next(s, schedule[0].0, schedule[0].1);
      if next.None? then None else Exec(next.value, schedule[1..])
  }

  // ---------- Slot accounting ----------

  function Holders(requests: seq<Request>, layer: nat): nat {
    if requests == [] then 0
    else (if Holds(requests[0], layer) then 1 else 0) + Holders(requests[1..], layer)
  }

  lemma {:induction false} HoldersUpdate(requests: seq<Request>, layer: nat, i: nat, r: Request)
    requires i < |requests|
    ensures Holders(requests[i := r], layer)
         == Holders(requests, layer) - (if Holds(requests[i], layer) then 1 else 0) + (if Holds(r, layer) then 1 else 0)
  {
    if i == 0 {
      assert requests[i := r][1..] == requests[1..];
    } else {
      assert requests[i := r][1..] == requests[1..][i - 1 := r];
      HoldersUpdate(requests[1..], layer, i - 1, r);
    }
  }

  lemma {:induction false} HoldersZero(requests: seq<Request>, layer: nat)
    ensures Holders(requests, layer) == 0 <==> forall i :: 0 <= i < |requests| ==> !Holds(requests[i], layer)
  {
    if requests != [] {
      HoldersZero(requests[1..], layer);
      assert forall i :: 1 <= i < |requests| ==> requests[i] == requests[1..][i - 1];
      assert forall i :: 0 <= i < |requests[1..]| ==> requests[1..][i] == requests[i + 1];
    }
  }

  // ---------- The invariant ----------

  ghost predicate Accounted(s: System, layer: nat)
    requires |s.used| == LAYERS && layer < LAYERS
  {
    s.used[layer] == Holders(s.requests, layer) <= Cap(s.cap, layer)
  }

  ghost predicate Placed(s: System) {
    && |s.requests| == |s.gate.threads|
    && s.cap.maxDecoders > 0
    && (forall i :: 0 <= i < |s.requests| ==> WellPlaced(s.requests[i]))
    && (forall i :: 0 <= i < |s.requests| ==> (s.requests[i].stage.AtGate? <==> G.Inside(s.gate.threads[i])))
  }

  ghost predicate Inv(s: System) {
    && Placed(s)
    && G.Inv(s.gate)
    && |s.used| == LAYERS
    && forall layer :: 0 <= layer < LAYERS ==> Accounted(s, layer)
  }

  lemma {:induction false} InitialInv(cap: Capacity, n: nat)
    requires cap.maxDecoders > 0
    ensures Inv(Initial(cap, n))
  {
    G.InitialInv(n);
    forall layer | 0 <= layer < LAYERS ensures Accounted(Initial(cap, n), layer) {
      HoldersZero(Initial(cap, n).requests, layer);
    }
  }

  lemma {:induction false} StepKeepsAccounts(s: System, i: nat, a: Action, layer: nat)
    requires Inv(s) && Next(s, i, a).Some? && layer < LAYERS
    ensures |Next(s, i, a).value.used| == LAYERS && Accounted(Next(s, i, a).value, layer)
  {
    HoldersUpdate(s.requests, layer, i, Next(s, i, a).value.requests[i]);
    assert Accounted(s, layer);
  }

  lemma {:induction false} StepKeepsInv(s: System, i: nat, a: Action)
    requires Inv(s) && Next(s, i, a).Some?
    ensures Inv(Next(s, i, a).value)
  {
    forall layer | 0 <= layer < LAYERS
      ensures |Next(s, i, a).value.used| == LAYERS && Accounted(Next(s, i, a).value, layer)
    {
      StepKeepsAccounts(s, i, a, layer);
    }
    StepKeepsGate(s, i, a);
    StepKeepsPlaces(s, i, a);
  }

  lemma {:induction false} StepKeepsPlaces(s: System, i: nat, a: Action)
    requires Inv(s) && Next(s, i, a).Some?
    ensures Placed(Next(s, i, a).value)
  {
    OthersStay(s, i, a);
    MoverIsPlaced(s, i, a);
  }

  lemma {:induction false} OthersStay(s: System, i: nat, a: Action)
    requires Placed(s) && Next(s, i, a).Some?
    ensures var s' := Next(s, i, a).value;
      && |s'.requests| == |s.requests| && |s'.gate.threads| == |s.gate.threads| && s'.cap == s.cap
      && forall j :: 0 <= j < |s.requests| && j != i ==> s'.requests[j] == s.requests[j] && s'.gate.threads[j] == s.gate.threads[j]
  {
  }

  lemma {:induction false} MoverIsPlaced(s: System, i: nat, a: Action)
    requires Placed(s) && Next(s, i, a).Some? && |Next(s, i, a).value.gate.threads| == |s.gate.threads|
    ensures var s' := Next(s, i, a).value;
      i < |s'.requests| && WellPlaced(s'.requests[i]) && (s'.requests[i].stage.AtGate? <==> G.Inside(s'.gate.threads[i]))
  {
    assert WellPlaced(s.requests[i]);
  }

  lemma {:induction false} StepKeepsGate(s: System, i: nat, a: Action)
    requires Inv(s) && Next(s, i, a).Some?
    ensures G.Inv(Next(s, i, a).value.gate)
  {
    if a.EnterGate? {
      G.StepKeepsInv(s.gate, i, s.requests[i].kind.gate.value);
    } else if a.GateMove? {
      G.StepKeepsInv(s.gate, i, a.move);
    }
  }

  lemma {:induction false} RunsKeepInv(s: System, schedule: Schedule)
    requires Inv(s) && Exec(s, schedule).Some?
    ensures Inv(Exec(s, schedule).value) && Exec(s, schedule).value.cap == s.cap
    decreases |schedule|
  {
    if schedule != [] {
      StepKeepsInv(s, schedule[0].0, schedule[0].1);
      RunsKeepInv(Next(s, schedule[0].0, schedule[0].1).value, schedule[1..]);
    }
  }

  /** Every channel holds exactly one token per request that holds a slot of it, on every path of every run. */
  lemma {:induction false} SlotsMatchHolders(cap: Capacity, n: nat, schedule: Schedule, layer: nat)
    requires cap.maxDecoders > 0 && Exec(Initial(cap, n), schedule).Some? && layer < LAYERS
    ensures var s := Exec(Initial(cap, n), schedule).value;
      |s.used| == LAYERS && s.used[layer] == Holders(s.requests, layer) <= Cap(cap, layer)
  {
    InitialInv(cap, n);
    RunsKeepInv(Initial(cap, n), schedule);
    assert Accounted(Exec(Initial(cap, n), schedule).value, layer);
  }

  // ---------- Read-only routes leave room ----------

  function ReadersInTotal(requests: seq<Request>): nat {
    if requests == [] then 0
    else (if requests[0].kind.readOnly && Holds(requests[0], TOTAL) then 1 else 0) + ReadersInTotal(requests[1..])
  }

  lemma {:induction false} ReadersHoldReadSlots(requests: seq<Request>)
    ensures ReadersInTotal(requests) <= Holders(requests, READ)
  {
    if requests != [] {
      ReadersHoldReadSlots(requests[1..]);
    }
  }

  /** With more than one handler slot, read-only requests never occupy all of them. */
  lemma {:induction false} ReadersLeaveRoom(cap: Capacity, n: nat, schedule: Schedule)
    requires cap.maxDecoders > 0 && cap.maxActive > 1 && Exec(Initial(cap, n), schedule).Some?
    ensures ReadersInTotal(Exec(Initial(cap, n), schedule).value.requests) < Cap(cap, TOTAL)
  {
    SlotsMatchHolders(cap, n, schedule, READ);
    ReadersHoldReadSlots(Exec(Initial(cap, n), schedule).value.requests);
  }

  // ---------- Deadlock freedom ----------

  predicate Present(r: Request) {
    !r.stage.Absent?
  }

  predicate IsCancellation(a: Action) {
    a.GiveUp? || a == LookAtContext(true) || (a.GateMove? && G.IsCancellation(a.move))
  }

  /** A step that needs neither a new request nor a cancelled context. */
  predicate IsMove(s: System, i: nat, a: Action) {
    !a.Arrive? && !IsCancellation(a) && Next(s, i, a).Some?
  }

  /** Blocked in the select of a layer. */
  predicate WaitsAt(r: Request, layer: nat) {
    r.stage.Waiting? && r.depth == layer && layer < LAYERS && Needs(r.kind, layer)
  }

  /** The step of a request that is neither blocked in a layer nor inside the lifecycle gate. */
  function FreeAction(r: Request): Action {
    match r.stage
    case Checking => LookAtContext(false)
    case Serving(_) => Finish
    case Unwinding => Unwind
    case _ => Pass
  }

  lemma {:induction false} FreeRequestMoves(s: System, i: nat)
    requires Inv(s) && i < |s.requests| && Present(s.requests[i]) && !s.requests[i].stage.AtGate?
    requires !WaitsAt(s.requests[i], s.requests[i].depth)
    ensures IsMove(s, i, FreeAction(s.requests[i]))
  {
    assert WellPlaced(s.requests[i]);
  }

  lemma {:induction false} GateRequestMoves(s: System, i: nat)
    requires Inv(s) && i < |s.requests| && s.requests[i].stage.AtGate?
    ensures exists j: nat, a :: IsMove(s, j, a)
  {
    assert G.Inside(s.gate.threads[i]);
    G.CountZero(s.gate.threads, G.Inside);
    G.NeverStuck(s.gate);
    var t: nat, move :| G.IsMove(s.gate, t, move);
    assert s.requests[t].stage.AtGate?;
    assert IsMove(s, t, GateMove(move));
  }

  /** Everybody present is blocked in some layer. */
  ghost predicate AllBlocked(s: System) {
    forall j :: 0 <= j < |s.requests| && Present(s.requests[j]) ==> WaitsAt(s.requests[j], s.requests[j].depth)
  }

  /** A full layer has a holder; if everybody is blocked, that holder is blocked further in. */
  lemma {:induction false} FullLayerBlocksDeeper(s: System, layer: nat)
    requires Inv(s) && layer < LAYERS && AllBlocked(s) && s.used[layer] >= Cap(s.cap, layer)
    ensures exists j :: 0 <= j < |s.requests| && s.requests[j].depth > layer && WaitsAt(s.requests[j], s.requests[j].depth)
  {
    assert Accounted(s, layer);
    HoldersZero(s.requests, layer);
    var j :| 0 <= j < |s.requests| && Holds(s.requests[j], layer);
    assert WellPlaced(s.requests[j]);
  }

  lemma {:induction false} BlockedRequestMoves(s: System, i: nat)
    requires Inv(s) && AllBlocked(s) && i < |s.requests| && WaitsAt(s.requests[i], s.requests[i].depth)
    ensures exists j: nat, a :: IsMove(s, j, a)
    decreases LAYERS - s.requests[i].depth
  {
    var layer := s.requests[i].depth;
    if s.used[layer] >= Cap(s.cap, layer) {
      FullLayerBlocksDeeper(s, layer);
      var j :| 0 <= j < |s.requests| && s.requests[j].depth > layer && WaitsAt(s.requests[j], s.requests[j].depth);
      BlockedRequestMoves(s, j);
    } else {
      assert IsMove(s, i, Acquire);
    }
  }

  /** In every reachable state with a request in flight, some request can step without cancellation or arrival. */
  lemma {:induction false} DeadlockFree(s: System, i: nat)
    requires Inv(s) && i < |s.requests| && Present(s.requests[i])
    ensures exists j: nat, a :: IsMove(s, j, a)
  {
    if AllBlocked(s) {
      BlockedRequestMoves(s, i);
    } else {
      var j :| 0 <= j < |s.requests| && Present(s.requests[j]) && !WaitsAt(s.requests[j], s.requests[j].depth);
      if s.requests[j].stage.AtGate? {
        GateRequestMoves(s, j);
      } else {
        FreeRequestMoves(s, j);
      }
    }
  }

  // ---------- Every request gets through ----------

  /** The channel steps a request still has ahead of it. */
  function Climb(r: Request): nat {
    match r.stage
    case Absent => 0
    case Unwinding => r.depth
    case Serving(gateDone) => LAYERS + (if gateDone then 1 else 3)
    case AtGate => LAYERS + 2
    case Checking => 20 - 2 * Clamp(r.depth)
    case Waiting => 19 - 2 * Clamp(r.depth)
  }

  function Clamp(depth: nat): nat {
    if depth <= LAYERS then depth else LAYERS
  }

  function ClimbSum(requests: seq<Request>): nat {
    if requests == [] then 0 else Climb(requests[0]) + ClimbSum(requests[1..])
  }

  lemma {:induction false} ClimbSumUpdate(requests: seq<Request>, i: nat, r: Request)
    requires i < |requests|
    ensures ClimbSum(requests[i := r]) == ClimbSum(requests) - Climb(requests[i]) + Climb(r)
  {
    if i == 0 {
      assert requests[i := r][1..] == requests[1..];
    } else {
      assert requests[i := r][1..] == requests[1..][i - 1 := r];
      ClimbSumUpdate(requests[1..], i - 1, r);
    }
  }

  function GateBound(n: nat): nat {
    n * (G.TOP_RANK * n + 1) + G.TOP_RANK * n
  }

  lemma {:induction false} CountAtMost(threads: seq<G.Phase>)
    ensures G.Count(threads, G.Inside) <= |threads|
  {
    if threads != [] {
      CountAtMost(threads[1..]);
    }
  }

  lemma {:induction false} GatePotentialBounded(g: G.System)
    ensures G.Potential(g) <= GateBound(|g.threads|)
  {
    CountAtMost(g.threads);
    G.RankSumBounded(g.threads, g.gate.changed);
    MultiplyOrdered(G.Count(g.threads, G.Inside), |g.threads|, G.TOP_RANK * |g.threads| + 1);
  }

  lemma {:induction false} MultiplyOrdered(a: nat, b: nat, c: nat)
    requires a <= b
    ensures a * c <= b * c
    ensures a < b ==> a * c + c <= b * c
  {
    assert b * c == a * c + (b - a) * c;
    if a < b {
      assert (b - a) * c == c + (b - a - 1) * c;
    }
  }

  function Potential(s: System): nat {
    ClimbSum(s.requests) * (GateBound(|s.requests|) + 1) + G.Potential(s.gate)
  }

  lemma {:induction false} StepsClimb(s: System, i: nat, a: Action)
    requires Inv(s) && Next(s, i, a).Some? && !a.Arrive?
    ensures Climb(Next(s, i, a).value.requests[i]) <= Climb(s.requests[i])
    ensures !a.GateMove? ==> Climb(Next(s, i, a).value.requests[i]) < Climb(s.requests[i])
  {
    assert WellPlaced(s.requests[i]);
  }

  lemma {:induction false} GateMovesUsePotential(s: System, i: nat, a: Action)
    requires Inv(s) && Next(s, i, a).Some? && a.GateMove?
    ensures G.Potential(Next(s, i, a).value.gate) < G.Potential(s.gate)
  {
    G.StepsUsePotential(s.gate, i, a.move);
  }

  /** One request climbed, or stayed where it was while the gate moved. */
  lemma {:induction false} ClimbUsesPotential(s: System, s': System, i: nat)
    requires |s'.requests| == |s.requests| == |s'.gate.threads| && i < |s.requests|
    requires forall j :: 0 <= j < |s.requests| && j != i ==> s'.requests[j] == s.requests[j]
    requires Climb(s'.requests[i]) <= Climb(s.requests[i])
    requires Climb(s'.requests[i]) < Climb(s.requests[i]) || G.Potential(s'.gate) < G.Potential(s.gate)
    ensures Potential(s') < Potential(s)
  {
    assert s'.requests == s.requests[i := s'.requests[i]];
    ClimbSumUpdate(s.requests, i, s'.requests[i]);
    GatePotentialBounded(s'.gate);
    PotentialDrops(ClimbSum(s'.requests), ClimbSum(s.requests), GateBound(|s.requests|), G.Potential(s'.gate), G.Potential(s.gate));
  }

  lemma {:induction false} StepsUsePotential(s: System, i: nat, a: Action)
    requires Inv(s) && Next(s, i, a).Some? && !a.Arrive?
    ensures Potential(Next(s, i, a).value) < Potential(s)
  {
    StepsClimb(s, i, a);
    OthersStay(s, i, a);
    if a.GateMove? {
      GateMovesUsePotential(s, i, a);
    }
    ClimbUsesPotential(s, Next(s, i, a).value, i);
  }

  lemma {:induction false} PotentialDrops(climb': nat, climb: nat, bound: nat, gate': nat, gate: nat)
    requires climb' <= climb && gate' <= bound && (climb' < climb || gate' < gate)
    ensures climb' * (bound + 1) + gate' < climb * (bound + 1) + gate
  {
    MultiplyOrdered(climb', climb, bound + 1);
  }

  lemma {:induction false} RunsAreBounded(s: System, schedule: Schedule)
    requires Inv(s) && Exec(s, schedule).Some?
    requires forall k :: 0 <= k < |schedule| ==> !schedule[k].1.Arrive?
    ensures |schedule| + Potential(Exec(s, schedule).value) <= Potential(s)
    decreases |schedule|
  {
    if schedule != [] {
      StepKeepsInv(s, schedule[0].0, schedule[0].1);
      StepsUsePotential(s, schedule[0].0, schedule[0].1);
      assert forall k :: 0 <= k < |schedule[1..]| ==> schedule[1..][k] == schedule[k + 1];
      RunsAreBounded(Next(s, schedule[0].0, schedule[0].1).value, schedule[1..]);
    }
  }

  /** All slots are free and the gate looks new. */
  ghost predicate Quiet(s: System) {
    && (forall i :: 0 <= i < |s.requests| ==> !Present(s.requests[i]))
    && (|s.used| == LAYERS && forall layer :: 0 <= layer < LAYERS ==> s.used[layer] == 0)
    && s.gate.gate == G.NEW_GATE.(changed := s.gate.gate.changed)
  }

  lemma {:induction false} EmptyIsQuiet(s: System)
    requires Inv(s) && forall i :: 0 <= i < |s.requests| ==> !Present(s.requests[i])
    ensures Quiet(s)
  {
    forall layer | 0 <= layer < LAYERS ensures s.used[layer] == 0 {
      assert Accounted(s, layer);
      HoldersZero(s.requests, layer);
    }
    G.CountZero(s.gate.threads, G.StartLease);
    G.CountZero(s.gate.threads, G.ExclusiveWaiter);
    G.CountZero(s.gate.threads, G.ExclusiveLease);
  }

  lemma {:induction false} StuckIffQuiet(s: System)
    requires Inv(s)
    ensures (forall i: nat, a :: !IsMove(s, i, a)) <==> Quiet(s)
  {
    if forall i :: 0 <= i < |s.requests| ==> !Present(s.requests[i]) {
      EmptyIsQuiet(s);
    } else {
      var i :| 0 <= i < |s.requests| && Present(s.requests[i]);
      DeadlockFree(s, i);
    }
  }

  /**
  Once requests stop arriving, every run ends within a bound known at its first state, and it
  ends exactly when every request is answered and every slot of every layer is back.
   */
  lemma {:induction false} EveryRequestCompletes(cap: Capacity, n: nat, prefix: Schedule, schedule: Schedule)
    requires cap.maxDecoders > 0 && Exec(Initial(cap, n), prefix).Some?
    requires Exec(Exec(Initial(cap, n), prefix).value, schedule).Some?
    requires forall k :: 0 <= k < |schedule| ==> !schedule[k].1.Arrive?
    ensures |schedule| <= Potential(Exec(Initial(cap, n), prefix).value)
    ensures var last := Exec(Exec(Initial(cap, n), prefix).value, schedule).value;
      (forall i: nat, a :: !IsMove(last, i, a)) <==> Quiet(last)
  {
    var s := Exec(Initial(cap, n), prefix).value;
    InitialInv(cap, n);
    RunsKeepInv(Initial(cap, n), prefix);
    RunsAreBounded(s, schedule);
    RunsKeepInv(s, schedule);
    StuckIffQuiet(Exec(s, schedule).value);
  }

  // ---------- The decoded body ----------

  /** `WindowExceeded` stands for the two size errors of the zstd decoder. */
  datatype BodyError = EndOfBody | TooLarge | WindowExceeded | DecoderFailed

  /**
  A decompressor over everything it would put out: it hands out any part of what is asked for, may
  fail at any point unless its input is sound, and may hand out nothing, though not for ever.
   */
  class Decoder {
    const sound: bool
    const output: seq<bv8>
    var pos: nat
    var patience: nat
    /** The last answer, and how many there have been. */
    var chunk: seq<bv8>
    var error: Option<BodyError>
    var calls: nat

    ghost predicate Valid()
      reads this
    {
      pos <= |output|
    }

    constructor (sound: bool, output: seq<bv8>, patience: nat)
      ensures Valid() && this.sound == sound && this.output == output && pos == 0 && calls == 0
    {
      this.sound, this.output, this.patience := sound, output, patience;
      pos, chunk, error, calls := 0, [], None, 0;
    }

    method Read(want: nat)
      requires Valid() && want > 0
      modifies this
      ensures Valid() && calls == old(calls) + 1 && patience <= old(patience)
      ensures pos == old(pos) + |chunk| && |chunk| <= want && chunk == output[old(pos)..pos]
      ensures error != Some(TooLarge) && (error == Some(EndOfBody) ==> pos == |output|)
      ensures chunk == [] && error.None? ==> patience < old(patience)
      ensures sound && error.Some? ==> error == Some(EndOfBody)
    {
      var n: int := *;
      var failed: Option<BodyError> := *;
      var most := if want < |output| - pos then want else |output| - pos;
      n := if 0 <= n <= most then n else most;
      if sound {
        n := if n == 0 && patience == 0 then most else n;
        failed := if pos + n == |output| && (failed.Some? || n == 0) then Some(EndOfBody) else None;
      }
      if failed == Some(TooLarge) || (failed == Some(EndOfBody) && pos + n < |output|) {
        failed := Some(DecoderFailed);
      }
      if n == 0 && failed.None? {
        if patience == 0 {
          failed := Some(DecoderFailed);
        } else {
          patience := patience - 1;
        }
      }
      chunk, error, calls := output[pos..pos + n], failed, calls + 1;
      pos := pos + n;
    }
  }

  /**
  A decoded request body: at most `limit` bytes of the decoder's output reach the reader, unless the
  limit is negative, and the decoder slot goes back exactly once however often the body is closed.
   */
  class DecodedReadCloser {
    const limit: int
    const decoder: Decoder
    var read: nat
    var closed: bool
    var slotsReturned: nat

    /** Whatever has been read past the limit was only probed. */
    ghost predicate Valid()
      reads this, decoder
    {
      && decoder.Valid() && slotsReturned == (if closed then 1 else 0)
      && read <= decoder.pos && (limit >= 0 ==> read <= limit)
      && (read < decoder.pos ==> read == limit)
    }

    predicate AtLimit()
      reads this
    {
      limit >= 0 && read == limit
    }

    constructor (limit: int, decoder: Decoder)
      requires decoder.pos == 0
      ensures Valid() && this.limit == limit && this.decoder == decoder && read == 0 && !closed
    {
      this.limit, this.decoder := limit, decoder;
      read, closed, slotsReturned := 0, false, 0;
    }

    /** At the limit one more byte is asked for, as often as it takes, and its arrival means the body is too large. */
    method Read(want: nat) returns (data: seq<bv8>, error: Option<BodyError>)
      requires Valid()
      modifies this`read, decoder
      ensures Valid() && old(read) <= read && data == decoder.output[old(read)..read] && |data| <= want
      ensures decoder.patience <= old(decoder.patience)
      ensures want == 0 ==> error.None? && decoder.calls == old(decoder.calls)
      ensures want > 0 && !old(AtLimit()) ==>
        && decoder.calls == old(decoder.calls) + 1 && data == decoder.chunk && decoder.pos == read
        && error == if decoder.error == Some(WindowExceeded) then Some(TooLarge) else decoder.error
      ensures want > 0 && old(AtLimit()) ==>
        && decoder.calls > old(decoder.calls) && data == [] && error.Some?
        && error == if decoder.chunk != [] then Some(TooLarge) else decoder.error
      // more decoded bytes than the limit never pass for the end of the body
      ensures error == Some(EndOfBody) ==> decoder.pos == |decoder.output| && decoder.pos == old(decoder.pos) + |data|
      ensures data == [] && error.None? && want > 0 ==> decoder.patience < old(decoder.patience)
      // and nothing else passes for too large
      ensures error == Some(TooLarge) ==> decoder.error == Some(WindowExceeded) || decoder.pos > limit >= 0
      ensures decoder.sound && error.Some? ==> error == Some(EndOfBody) || (error == Some(TooLarge) && decoder.error != Some(WindowExceeded))
    {
      data, error := [], None;
      if want == 0 {
        return;
      }
      if limit >= 0 && limit - read == 0 {
        error := Probe();
        return;
      }
      var most := if limit >= 0 && want > limit - read then limit - read else want;
      decoder.Read(most);
      data, error := decoder.chunk, decoder.error;
      read := read + |data|;
      if error == Some(WindowExceeded) {
        error := Some(TooLarge);
      }
    }

    /** Asks for one byte until there is one or an error. */
    method Probe() returns (error: Option<BodyError>)
      requires Valid() && AtLimit()
      modifies decoder
      ensures Valid() && error.Some? && decoder.calls > old(decoder.calls) && decoder.patience <= old(decoder.patience)
      ensures error == if decoder.chunk != [] then Some(TooLarge) else decoder.error
      ensures error == Some(EndOfBody) ==> decoder.pos == |decoder.output| == old(decoder.pos)
      ensures error == Some(TooLarge) ==> decoder.error == Some(WindowExceeded) || decoder.pos > limit >= 0
      ensures decoder.sound && error != Some(TooLarge) ==> error == Some(EndOfBody)
      ensures decoder.sound ==> decoder.error != Some(WindowExceeded)
    {
      decoder.Read(1);
      while decoder.chunk == [] && decoder.error.None?
        invariant Valid() && decoder.calls > old(decoder.calls) && decoder.patience <= old(decoder.patience)
        invariant decoder.pos == old(decoder.pos) + |decoder.chunk|
        invariant decoder.sound && decoder.error.Some? ==> decoder.error == Some(EndOfBody)
        invariant decoder.error != Some(TooLarge) && (decoder.error == Some(EndOfBody) ==> decoder.pos == |decoder.output|)
        decreases if decoder.chunk == [] && decoder.error.None? then decoder.patience + 1 else 0
      {
        decoder.Read(1);
      }
      error := if decoder.chunk != [] then Some(TooLarge) else decoder.error;
    }

    method Close()
      requires Valid()
      modifies this`closed, this`slotsReturned
      ensures Valid() && closed && slotsReturned == 1
    {
      if !closed {
        closed := true;
        slotsReturned := slotsReturned + 1;
      }
    }
  }

  /**
  A handler that reads a body to its end gets the whole decoded body, and never one beyond the limit: the
  end is only reported after the last decoded byte, and too large only beyond the limit or for a zstd
  size error.  Of a sound body exactly the length decides.
   */
  method ReadToEnd(body: DecodedReadCloser, want: nat) returns (data: seq<bv8>, error: BodyError)
    requires body.Valid() && body.read == 0 && body.decoder.pos == 0 && want > 0
    modifies body`read, body.decoder
    ensures data <= body.decoder.output && (body.limit >= 0 ==> |data| <= body.limit)
    ensures error == EndOfBody ==> data == body.decoder.output
    ensures body.limit >= 0 && |body.decoder.output| > body.limit ==> error != EndOfBody
    ensures error == TooLarge ==> body.decoder.error == Some(WindowExceeded) || |body.decoder.output| > body.limit >= 0
    ensures body.decoder.sound ==> error == if |body.decoder.output| > body.limit >= 0 then TooLarge else EndOfBody
  {
    data := [];
    while true
      invariant body.Valid() && data == body.decoder.output[..body.read] && body.decoder.pos == body.read
      decreases |body.decoder.output| - body.read, body.decoder.patience
    {
      var chunk, failed := body.Read(want);
      data := data + chunk;
      if failed.Some? {
        return data, failed.value;
      }
    }
  }
}
