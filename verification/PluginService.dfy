/**
The plugin service: syncs, blocks, recreates, resets, torrent webhooks and close, each holding the
operation gate from start to end, over a fallible nftables backend.

`Valid` is what every operation finds and leaves when it holds the gate: the published snapshot
agrees with the kernel whenever the backend is healthy, and a snapshot is published as
firewall-ready only over a healthy backend.
 */
module PluginService {
  import opened Wrappers
  import opened NftScript
  import opened NftManager

  datatype TorrentSettings = TorrentSettings(
    enabled: bool,
    blockDuration: real,
    webhookURL: string,
    includeRuleTags: seq<string>,
    rulePosition: real,
    ignoredIPs: seq<string>,
    ignoredUsers: set<string>)

  /** `other` stands for the parts that are only ever compared and copied: whitelist, pre-start and post-start. */
  datatype Snapshot = Snapshot(
    sourceHash: string,
    pluginUUID: string,
    pluginName: string,
    firewallReady: bool,
    torrent: TorrentSettings,
    firewall: FirewallConfig,
    other: string)

  datatype SyncPlugin = SyncPlugin(uuid: string, name: string, sourceHash: string, oversized: bool)

  /** What building a plan from a request can come to. */
  datatype Plan = PlanCancelled | PlanInvalid | PlanBuilt(snapshot: Snapshot)

  /** The identity of the request on a snapshot of its source. */
  function Named(s: Snapshot, request: SyncPlugin): Snapshot {
    s.(sourceHash := request.sourceHash, pluginUUID := request.uuid, pluginName := request.name)
  }

  function EffectiveFirewall(s: Option<Snapshot>): FirewallConfig {
    if s.None? || !s.value.firewallReady then NO_FIREWALL else s.value.firewall
  }

  predicate Ready(s: Option<Snapshot>) {
    s.Some? && s.value.firewallReady
  }

  predicate EffectiveTorrent(s: Option<Snapshot>) {
    s.Some? && s.value.firewallReady && s.value.torrent.enabled
  }

  function Degraded(s: Option<Snapshot>): Option<Snapshot> {
    if s.None? then None else Some(s.value.(firewallReady := false))
  }

  /** Tag lists are compared through a hash of the sorted list. */
  predicate SameTags(a: seq<string>, b: seq<string>) {
    multiset(a) == multiset(b)
  }

  predicate TorrentSettingsEqual(a: TorrentSettings, b: TorrentSettings) {
    SameTags(a.includeRuleTags, b.includeRuleTags) && a.(includeRuleTags := []) == b.(includeRuleTags := [])
  }

  predicate BehaviorEqual(net: Net, a: Option<Snapshot>, b: Option<Snapshot>) {
    if a.None? || b.None? then a == b
    else
      && a.value.firewallReady == b.value.firewallReady
      && a.value.other == b.value.other
      && TorrentSettingsEqual(a.value.torrent, b.value.torrent)
      && FirewallConfigsEqual(net, a.value.firewall, b.value.firewall)
  }

  function Readied(s: Option<Snapshot>): Option<Snapshot> {
    if s.Some? && !s.value.firewallReady then Some(s.value.(firewallReady := true)) else s
  }

  /** A full reset is forced, or the snapshot goes away, or effective torrent blocking is switched off. */
  predicate NeedsReset(previous: Option<Snapshot>, next: Option<Snapshot>, forced: bool) {
    forced || next.None? || (EffectiveTorrent(previous) && !EffectiveTorrent(next))
  }

  datatype Reconcile = NoReconcile | StopXray | TorrentDiff

  datatype XrayCall = Leave | RemoveOutbound | StopIfOnline

  /** What a torrent reconcile asks of Xray. */
  function TorrentReconcile(previous: Option<Snapshot>, next: Option<Snapshot>): XrayCall {
    var was := EffectiveTorrent(previous);
    var now := EffectiveTorrent(next);
    var previousTags := if previous.None? then [] else previous.value.torrent.includeRuleTags;
    var nextTags := if next.None? then [] else next.value.torrent.includeRuleTags;
    var previousPosition := if previous.None? then 0.0 else previous.value.torrent.rulePosition;
    var nextPosition := if next.None? then 0.0 else next.value.torrent.rulePosition;
    if was && !now && nextTags == [] then RemoveOutbound
    else if was != now || (was && now && (!SameTags(previousTags, nextTags) || previousPosition != nextPosition)) then StopIfOnline
    else Leave
  }

  datatype Mutation = Skipped | Applied | Failed

  /** What the service did outside itself, in order: reconciling Xray and writing tables. */
  datatype Event = Reconciled(ok: bool) | AppliedStatic | ResetTables | OpenedTables | ChangedBlocks | DroppedTables

  /** Tables were reset, if at all, only after the reconcile that comes first had succeeded. */
  predicate ReconciledBeforeReset(did: seq<Event>) {
    ResetTables in did ==> did[0] == Reconciled(true)
  }

  /** The three parts of a transaction, one after the other. */
  lemma {:induction false} InOrder(log: seq<Event>, first: seq<Event>, wrote: seq<Event>, tail: seq<Event>)
    requires ResetTables !in first && ResetTables !in tail
    ensures log + first + wrote + tail == log + (first + wrote + tail)
    ensures ResetTables in first + wrote + tail <==> ResetTables in wrote
    ensures first == [Reconciled(true)] ==> ReconciledBeforeReset(first + wrote + tail)
  {
    assert first != [] ==> (first + wrote + tail)[0] == first[0];
  }

  /** Tables were written as a whole: reset, set up or deleted. */
  predicate Wiped(did: seq<Event>) {
    ResetTables in did || OpenedTables in did || DroppedTables in did
  }

  /** Timed blocks are all still there, except for the named addresses. */
  ghost predicate KeepsBlocks(before: map<SetId, Elements>, after: map<SetId, Elements>, named: set<Element>) {
    forall id :: id in before ==> id in after && before[id].Keys - named <= after[id].Keys
  }

  lemma {:induction false} UnblockKeepsBlocks(k: Kernel, k': Kernel, named: set<Element>)
    requires OnlyUnblocked(k, k', named)
    ensures KeepsBlocks(TorrentBlocks(k), TorrentBlocks(k'), named)
  {
  }

  lemma {:induction false} GrowthKeepsBlocks(k: Kernel, k': Kernel)
    requires Grows(k, k')
    ensures KeepsBlocks(TorrentBlocks(k), TorrentBlocks(k'), {})
  {
  }

  datatype Report = Report(ip: string, userId: string, blocked: bool)

  class Service {
    const net: Net
    const nft: Manager?
    const hasXray: bool
    /** No context is cancelled and every reconcile succeeds. */
    const smooth: bool
    var active: Option<Snapshot>
    var initialized: bool
    var closed: bool
    var closeDone: bool
    var closing: bool
    /** Written by RunReconcile and by the calls into the backend, and by nothing else. */
    ghost var log: seq<Event>

    /** Publishing s would match the backend and the kernel. */
    ghost predicate Agrees(s: Option<Snapshot>)
      reads this, nft
    {
      && (nft != null && nft.healthy ==> Enforces(nft.net, nft.kernel.sets, nft.unblocked, EffectiveFirewall(s)))
      && (Ready(s) && !closed ==> nft != null && nft.healthy)
      && (nft != null ==> nft.fits(EffectiveFirewall(s)))
    }

    ghost predicate Valid()
      reads this, nft
    {
      && (nft != null ==> nft.Valid() && nft.net == net)
      && Agrees(active)
      && (closed ==> closing)
      && (closeDone ==> closed && active.None? && (nft != null ==> !nft.healthy && !nft.owned))
    }

    ghost predicate Healthy()
      reads this, nft
    {
      nft != null && nft.healthy
    }

    /** The timed torrent blocks in the kernel. */
    ghost function Blocks(): map<SetId, Elements>
      reads this, nft
    {
      if nft == null then map[] else TorrentBlocks(nft.kernel)
    }

    /** Nothing outside the service fails. */
    predicate Undisturbed() {
      smooth && (nft != null ==> nft.obedient)
    }

    /** The backend can take the tables of the snapshot. */
    predicate Installable(s: Option<Snapshot>, reset: bool)
      reads nft
    {
      nft != null ==> if reset then nft.capable && nft.fullFits(EffectiveFirewall(s)) else nft.healthy ==> nft.fits(EffectiveFirewall(s))
    }

    constructor (net: Net, nft: Manager?, hasXray: bool, smooth: bool)
      requires nft != null ==> nft.Valid() && !nft.healthy && nft.net == net
      ensures Valid() && this.net == net && this.nft == nft && this.smooth == smooth && active.None? && !initialized && !closing
    {
      if nft != null {
        nft.EmptyFits();
      }
      this.net, this.nft, this.hasXray, this.smooth := net, nft, hasXray, smooth;
      active, initialized, closed, closeDone, closing, log := None, false, false, false, false, [];
    }

    // ---------- Admission ----------

    /** A mutation is admitted unless the service is closing or its context ends first. */
    method AcquireMutation() returns (admitted: bool)
      ensures admitted ==> !closing
      ensures smooth ==> admitted == !closing
    {
      var cancelled: bool := *;
      admitted := !closing && (!cancelled || smooth);
    }

    method ContextDone() returns (done: bool)
      ensures smooth ==> !done
    {
      done := *;
      done := done && !smooth;
    }

    method FirewallAvailable() returns (available: bool)
      ensures available == Healthy()
    {
      available := nft != null && nft.healthy;
    }

    method InitializeContext() returns (ok: bool)
      requires Valid()
      modifies this`initialized, this`log, nft
      ensures Valid() && old(log) <= log
      ensures log == old(log) + if log == old(log) then [] else [OpenedTables]
      ensures log == old(log) ==> Blocks() == old(Blocks())
      ensures old(Healthy()) ==> Healthy() && Blocks() == old(Blocks())
      ensures ok ==> initialized && Healthy()
      ensures ok && !old(Healthy()) ==> nft.kernel == nft.freshly(NO_FIREWALL)
      ensures Undisturbed() ==>
        (ok <==> !closing && !closed && nft != null && (old(Healthy()) || Installable(None, true)))
    {
      var admitted := AcquireMutation();
      if !admitted || closed {
        return false;
      }
      if initialized && nft != null && nft.healthy {
        return true;
      }
      if nft == null {
        initialized := true;
        return false;
      }
      var failed := OpenTables();
      if failed {
        var cancelled := ContextDone();
        if !cancelled {
          initialized := true;
        }
        return false;
      }
      initialized := true;
      ok := true;
    }

    /** Fresh empty tables for a backend that has none yet; nothing can be published as ready before that. */
    method OpenTables() returns (failed: bool)
      requires Valid() && !closed && nft != null
      modifies this`log, nft
      ensures Valid() && log == old(log) + [OpenedTables]
      ensures old(Healthy()) ==> !failed && Healthy() && Blocks() == old(Blocks())
      ensures !failed ==> Healthy() && (!old(Healthy()) ==> nft.kernel == nft.freshly(NO_FIREWALL))
      ensures nft.obedient ==> (!failed <==> old(Healthy()) || Installable(None, true))
    {
      var err := nft.Initialize();
      log := log + [OpenedTables];
      failed := err.Some?;
    }

    // ---------- Publishing ----------

    method CommitSnapshot(s: Option<Snapshot>)
      modifies this`active
      ensures active == s
    {
      active := s;
    }

    method PublishDegraded(desired: Option<Snapshot>)
      modifies this`active
      ensures active == Degraded(desired)
    {
      if desired.None? {
        active := None;
      } else {
        active := Some(desired.value.(firewallReady := false));
      }
    }

    // ---------- Reconciling Xray ----------

    method RunReconcile(kind: Reconcile, previous: Option<Snapshot>, next: Option<Snapshot>) returns (ok: bool)
      requires kind != NoReconcile
      modifies this`log
      ensures log == old(log) + [Reconciled(ok)]
      ensures kind == TorrentDiff && (!hasXray || TorrentReconcile(previous, next) == XrayCall.Leave) ==> ok
      ensures smooth ==> ok
    {
      ok := true;
      if hasXray && (kind == StopXray || TorrentReconcile(previous, next) != XrayCall.Leave) {
        ok := *;
        ok := ok || smooth;
      }
      log := log + [Reconciled(ok)];
    }

    // ---------- The firewall transaction ----------

    method ApplyFirewall(c: FirewallConfig, reset: bool) returns (err: bool)
      requires nft != null && nft.Valid()
      modifies nft, this`log
      ensures nft.Valid() && log == old(log) + [if reset then ResetTables else AppliedStatic]
      ensures !reset ==> nft.owned == old(nft.owned) && TorrentBlocks(nft.kernel) == old(TorrentBlocks(nft.kernel))
      ensures !err ==> nft.healthy && Enforces(nft.net, nft.kernel.sets, nft.unblocked, c) && nft.fits(c)
      ensures !err && reset ==> nft.kernel == nft.freshly(c)
      ensures err && nft.healthy ==> nft.Untouched()
      ensures err && nft.healthy && !reset ==> !nft.fits(c)
      ensures nft.obedient && (reset || old(nft.healthy)) ==> (!err <==> if reset then nft.capable && nft.fullFits(c) else nft.fits(c))
    {
      var failed;
      if reset {
        failed := nft.Reset(c);
      } else {
        failed := nft.Apply(c);
      }
      log := log + [if reset then ResetTables else AppliedStatic];
      err := failed.Some?;
    }

    /**
    Put the previous configuration back.  It fit when it was published, so the attempt either
    restores it or leaves the backend unhealthy, and then the snapshot is published as degraded.
     */
    method RollBack() returns (err: bool)
      requires nft != null && nft.Valid() && nft.net == net && nft.owned && nft.capable && !closed && !closeDone
      requires nft.fits(EffectiveFirewall(active))
      modifies nft, this`active, this`log
      ensures Valid() && log == old(log) + [AppliedStatic]
      ensures Blocks() == old(Blocks())
      ensures err <==> !nft.healthy
      ensures active == if err then Degraded(old(active)) else old(active)
    {
      nft.EmptyFits();
      err := ApplyFirewall(EffectiveFirewall(active), false);
      var available := FirewallAvailable();
      if !available {
        PublishDegraded(active);
      }
    }

    /** The kernel side of a snapshot change. */
    method MutateFirewall(next: Option<Snapshot>, reset: bool) returns (outcome: Mutation, ghost did: seq<Event>)
      requires Valid() && !closed
      requires Ready(next) ==> nft != null && (nft.healthy || reset)
      requires reset <== next.None?
      modifies this`active, this`log, nft
      ensures nft != null ==> nft.Valid()
      ensures log == old(log) + did
      ensures did == if outcome == Skipped then [] else if reset then [ResetTables]
                     else if outcome == Applied then [AppliedStatic] else [AppliedStatic, AppliedStatic]
      ensures outcome == Skipped && reset ==> nft == null
      ensures outcome == Skipped ==> Agrees(next) && Agrees(active)
      ensures outcome == Applied ==> Agrees(next) && Healthy()
      ensures outcome == Applied && reset ==> nft.kernel == nft.freshly(EffectiveFirewall(next))
      ensures outcome == Failed ==> Valid()
      ensures outcome != Failed ==> active == old(active)
      ensures outcome == Failed ==>
        || active == old(active)
        || (!Healthy() && active == Degraded(if reset && next.Some? then next else old(active)))
      ensures !reset || outcome == Skipped ==> Blocks() == old(Blocks())
      ensures Undisturbed() ==> (outcome != Failed <==> old(Installable(next, reset)))
    {
      var available := FirewallAvailable();
      var mutate := reset || active.None? || active.value.firewallReady != Ready(next)
                    || !FirewallConfigsEqual(net, EffectiveFirewall(active), EffectiveFirewall(next));
      if nft != null {
        nft.EmptyFits();
      }
      if mutate && nft != null && (available || reset) {
        if reset {
          outcome, did := WriteReset(next);
        } else {
          outcome, did := WriteStatic(next);
        }
        return;
      }
      if nft != null && nft.healthy {
        nft.SameConfigs(EffectiveFirewall(active), EffectiveFirewall(next));
      }
      outcome, did := Skipped, [];
    }

    /** A full reset; if it fails and the backend is down, what was wanted is published degraded. */
    method WriteReset(next: Option<Snapshot>) returns (outcome: Mutation, ghost did: seq<Event>)
      requires Valid() && !closed && nft != null
      modifies this`active, this`log, nft
      ensures nft.Valid() && did == [ResetTables] && log == old(log) + did && outcome != Skipped
      ensures outcome == Applied ==>
        Agrees(next) && Healthy() && active == old(active) && nft.kernel == nft.freshly(EffectiveFirewall(next))
      ensures outcome == Failed ==>
        Valid() && (active == old(active) || (!Healthy() && active == Degraded(if next.Some? then next else old(active))))
      ensures nft.obedient ==> (outcome == Applied <==> Installable(next, true))
    {
      nft.EmptyFits();
      var failed := ApplyFirewall(EffectiveFirewall(next), true);
      did := [ResetTables];
      outcome := if failed then Failed else Applied;
      if failed {
        var available := FirewallAvailable();
        if !available {
          PublishDegraded(if next.Some? then next else active);
        }
      }
    }

    /** A static update of a healthy backend; if it fails, the previous configuration is put back. */
    method WriteStatic(next: Option<Snapshot>) returns (outcome: Mutation, ghost did: seq<Event>)
      requires Valid() && !closed && nft != null && nft.healthy
      modifies this`active, this`log, nft
      ensures nft.Valid() && log == old(log) + did && outcome != Skipped && Blocks() == old(Blocks())
      ensures did == if outcome == Applied then [AppliedStatic] else [AppliedStatic, AppliedStatic]
      ensures outcome == Applied ==> Agrees(next) && Healthy() && active == old(active)
      ensures outcome == Failed ==> Valid() && (active == old(active) || (!Healthy() && active == Degraded(old(active))))
      ensures nft.obedient ==> (outcome == Applied <==> nft.fits(EffectiveFirewall(next)))
    {
      var failed := ApplyFirewall(EffectiveFirewall(next), false);
      did := [AppliedStatic];
      outcome := if failed then Failed else Applied;
      if failed {
        var _ := RollBack();
        did := [AppliedStatic, AppliedStatic];
      }
    }

    /** Both context checks around a reconcile that comes first. */
    method ReconcileFirst(next: Option<Snapshot>, reconcile: Reconcile, first: bool)
        returns (proceed: bool, ghost did: seq<Event>)
      modifies this`log
      ensures log == old(log) + did && ResetTables !in did
      ensures proceed && first && reconcile != NoReconcile ==> did == [Reconciled(true)]
      ensures smooth ==> proceed
    {
      did := [];
      var done := ContextDone();
      if done {
        return false, did;
      }
      if first && reconcile != NoReconcile {
        var ok := RunReconcile(reconcile, active, next);
        did := [Reconciled(ok)];
        if !ok {
          return false, did;
        }
      }
      done := ContextDone();
      proceed := !done;
    }

    /**
    Replace the published snapshot by `next` and the kernel state with it.  A reset must not be
    followed by a reconcile that could still fail, and a firewall-ready snapshot needs a backend that is
    healthy or about to be reset; every caller in the source keeps to both.
     */
    method ApplySnapshot(next: Option<Snapshot>, reconcile: Reconcile, reconcileFirst: bool, forceReset: bool)
        returns (err: bool, ghost did: seq<Event>)
      requires Valid() && !closed
      requires !reconcileFirst && reconcile != NoReconcile ==> !NeedsReset(active, next, forceReset)
      requires Ready(next) ==> nft != null && (nft.healthy || NeedsReset(active, next, forceReset))
      modifies this`active, this`log, nft
      ensures Valid() && log == old(log) + did
      ensures !err ==> active == next
      ensures err ==>
        || active == old(active)
        || (!Healthy() && active == Degraded(old(active)))
        || (!Healthy() && NeedsReset(old(active), next, forceReset) && active == Degraded(next))
      ensures ResetTables in did ==> NeedsReset(old(active), next, forceReset)
      // a reset that succeeds starts from empty timed sets
      ensures !err && NeedsReset(old(active), next, forceReset) && nft != null ==>
        nft.kernel == nft.freshly(EffectiveFirewall(next))
      ensures ResetTables !in did ==> Blocks() == old(Blocks())
      ensures reconcileFirst && reconcile != NoReconcile ==> ReconciledBeforeReset(did)
      // undisturbed, it fails for what the backend cannot take and for nothing else
      ensures Undisturbed() ==> (!err <==> old(Installable(next, NeedsReset(active, next, forceReset))))
    {
      var reset := NeedsReset(active, next, forceReset);
      var proceed, first := ReconcileFirst(next, reconcile, reconcileFirst);
      if !proceed {
        return true, first;
      }
      ghost var wrote, tail;
      err, wrote, tail := Transact(next, reconcile, reconcileFirst, reset);
      did := first + wrote + tail;
      InOrder(old(log), first, wrote, tail);
    }

    /** The kernel, and then what is left to settle. */
    method Transact(next: Option<Snapshot>, reconcile: Reconcile, reconcileFirst: bool, reset: bool)
        returns (err: bool, ghost wrote: seq<Event>, ghost tail: seq<Event>)
      requires Valid() && !closed
      requires !reconcileFirst && reconcile != NoReconcile ==> !reset
      requires Ready(next) ==> nft != null && (nft.healthy || reset)
      requires reset <== next.None?
      modifies this`active, this`log, nft
      ensures Valid() && log == old(log) + wrote + tail
      ensures !err ==> active == next
      ensures err ==>
        || active == old(active)
        || (!Healthy() && active == Degraded(old(active)))
        || (!Healthy() && reset && active == Degraded(next))
      ensures ResetTables !in tail && (ResetTables in wrote ==> reset)
      ensures !err && reset && nft != null ==> nft.kernel == nft.freshly(EffectiveFirewall(next))
      ensures ResetTables !in wrote ==> Blocks() == old(Blocks())
      ensures Undisturbed() ==> (!err <==> old(Installable(next, reset)))
    {
      var outcome;
      outcome, wrote := MutateFirewall(next, reset);
      tail, err := [], true;
      if outcome != Failed {
        err, tail := Settle(next, reconcile, reconcileFirst, reset, outcome);
      }
    }

    /** After the kernel: look at the context, reconcile if that is still due, then publish or roll back. */
    method Settle(next: Option<Snapshot>, reconcile: Reconcile, reconcileFirst: bool, reset: bool, outcome: Mutation)
        returns (err: bool, ghost did: seq<Event>)
      requires outcome != Failed && !closed && !closeDone && (nft != null ==> nft.Valid() && nft.net == net)
      requires Agrees(next) && (outcome == Skipped ==> Agrees(active))
      requires outcome == Applied ==> Healthy() && nft.fits(EffectiveFirewall(active))
      requires !reconcileFirst && reconcile != NoReconcile ==> !reset
      requires reset && outcome == Skipped ==> nft == null
      modifies this`active, this`log, nft
      ensures Valid() && log == old(log) + did
      ensures !err ==> active == next
      ensures err ==> active == old(active) || (!Healthy() && active == Degraded(old(active)))
      ensures ResetTables !in did
      ensures Blocks() == old(Blocks())
      ensures reset && nft != null ==> nft.kernel == old(nft.kernel)
      ensures smooth ==> !err
    {
      did := [];
      var done := ContextDone();
      if done {
        // a reset is irreversible: its snapshot is published even if the caller is gone
        if outcome == Applied && reset {
          CommitSnapshot(next);
          return false, did;
        }
        did := TakeBack(outcome, reset);
        return true, did;
      }
      if !reconcileFirst && reconcile != NoReconcile {
        var ok := RunReconcile(reconcile, active, next);
        did := [Reconciled(ok)];
        if !ok {
          ghost var undone := TakeBack(outcome, reset);
          did := did + undone;
          return true, did;
        }
      }
      CommitSnapshot(next);
      err := false;
    }

    /** Undo a static update that had been applied. */
    method TakeBack(outcome: Mutation, ghost reset: bool) returns (ghost did: seq<Event>)
      requires outcome != Failed && !closed && !closeDone && (nft != null ==> nft.Valid() && nft.net == net)
      requires outcome == Skipped ==> Agrees(active)
      requires outcome == Applied ==> !reset && Healthy() && nft.fits(EffectiveFirewall(active))
      requires reset ==> nft == null
      modifies this`active, this`log, nft
      ensures Valid() && log == old(log) + did && ResetTables !in did && Blocks() == old(Blocks())
      ensures active == old(active) || (!Healthy() && active == Degraded(old(active)))
    {
      did := [];
      if outcome == Applied {
        var _ := RollBack();
        did := [AppliedStatic];
      }
    }

    // ---------- Operations ----------

    method AdmitReady() returns (admitted: bool)
      ensures admitted ==> !closing && !closed && initialized
      ensures smooth ==> (admitted <==> !closing && !closed && initialized)
    {
      admitted := AcquireMutation();
      admitted := admitted && !closed && initialized;
    }

    /** The published snapshot was built from the same source and for the same state of the backend. */
    ghost predicate SameSource(request: SyncPlugin)
      reads this, nft
    {
      !request.oversized && active.Some? && active.value.sourceHash == request.sourceHash && active.value.firewallReady == Healthy()
    }

    /** What an undisturbed sync accepts. */
    ghost predicate Acceptable(request: Option<SyncPlugin>, plan: Plan)
      reads this, nft
    {
      if request.None? then active.Some? && Installable(None, true)
      else
        SameSource(request.value) ||
        (plan.PlanBuilt? &&
         var next := Some(Named(plan.snapshot, request.value).(firewallReady := Healthy()));
         Installable(next, NeedsReset(active, next, false)))
    }

    /**
    Sync a plugin.  `plan` is what building the requested plan comes to; its firewall readiness is
    that of the backend at this moment.
     */
    method SyncContext(request: Option<SyncPlugin>, plan: Plan) returns (accepted: bool, ghost did: seq<Event>)
      requires Valid()
      modifies this`active, this`log, nft
      ensures Valid() && log == old(log) + did
      // a plan that is not accepted is never published as ready
      ensures !accepted && Ready(active) ==> active == old(active)
      // an accepted sync publishes the plan, or renames a snapshot built from the same source
      ensures accepted ==>
        if request.None? then active.None?
        else if old(active).Some? && old(active).value.sourceHash == request.value.sourceHash && did == []
          && active == Some(Named(old(active).value, request.value)) then true
        else plan.PlanBuilt? && active == Some(Named(plan.snapshot, request.value).(firewallReady := old(Healthy())))
      // timed blocks outlive every sync that does not reset, and only these syncs reset
      ensures ResetTables !in did ==> Blocks() == old(Blocks())
      ensures ResetTables in did ==>
        request.None? || plan.PlanInvalid? || (plan.PlanBuilt? && EffectiveTorrent(old(active)) && !plan.snapshot.torrent.enabled)
      ensures ReconciledBeforeReset(did)
      ensures Undisturbed() ==> (accepted <==> old(!closing && !closed && initialized && Acceptable(request, plan)))
    {
      did := [];
      var admitted := AdmitReady();
      if !admitted {
        return false, did;
      }
      if request.None? {
        if active.None? {
          return false, did;
        }
        var err;
        err, did := ApplySnapshot(None, StopXray, true, false);
        return !err, did;
      }
      var previous := active;
      var ready := FirewallAvailable();
      if !request.value.oversized && previous.Some?
         && previous.value.sourceHash == request.value.sourceHash && previous.value.firewallReady == ready {
        var done := ContextDone();
        if done {
          return false, did;
        }
        CommitSnapshot(Some(Named(previous.value, request.value)));
        return true, did;
      }
      if plan.PlanCancelled? {
        return false, did;
      }
      if plan.PlanInvalid? {
        var err;
        err, did := ApplySnapshot(None, StopXray, true, false);
        return false, did;
      }
      var next := Some(Named(plan.snapshot, request.value).(firewallReady := ready));
      accepted, did := SyncPlan(next);
    }

    /** Publish a freshly built plan whose readiness is that of the backend. */
    method SyncPlan(next: Option<Snapshot>) returns (accepted: bool, ghost did: seq<Event>)
      requires Valid() && !closed && next.Some? && next.value.firewallReady == Healthy()
      modifies this`active, this`log, nft
      ensures Valid() && log == old(log) + did
      ensures !accepted && Ready(active) ==> active == old(active)
      ensures accepted ==> active == next
      ensures ResetTables !in did ==> Blocks() == old(Blocks())
      ensures ResetTables in did ==> EffectiveTorrent(old(active)) && !next.value.torrent.enabled
      ensures ReconciledBeforeReset(did)
      ensures Undisturbed() ==> (accepted <==> old(Installable(next, NeedsReset(active, next, false))))
    {
      did := [];
      var done := ContextDone();
      if done {
        return false, did;
      }
      if BehaviorEqual(net, active, next) {
        if nft != null {
          nft.SameConfigs(EffectiveFirewall(active), EffectiveFirewall(next));
        }
        CommitSnapshot(next);
        return true, did;
      }
      var err;
      err, did := ApplySnapshot(next, TorrentDiff, EffectiveTorrent(active) && !EffectiveTorrent(next), false);
      accepted := !err;
    }

    /** Clear everything once the caller has stopped Xray. */
    method ResetPluginsContext() returns (ok: bool, ghost did: seq<Event>)
      requires Valid()
      modifies this`active, this`log, nft
      ensures Valid() && log == old(log) + did
      ensures ResetTables !in did ==> Blocks() == old(Blocks())
      ensures ok ==> active.None? && (nft != null ==> nft.kernel == nft.freshly(NO_FIREWALL))
      ensures Undisturbed() ==> (ok <==> old(!closing && !closed && initialized && Installable(None, true)))
      ensures !ok && Ready(active) ==> active == old(active)
    {
      did := [];
      var admitted := AdmitReady();
      if !admitted {
        return false, did;
      }
      var err;
      err, did := ApplySnapshot(None, NoReconcile, false, false);
      ok := !err;
    }

    /** Rebuild the tables; a degraded snapshot becomes ready again if that succeeds. */
    method RecreateTablesContext() returns (accepted: bool, ghost did: seq<Event>)
      requires Valid()
      modifies this`active, this`log, nft
      ensures Valid() && log == old(log) + did
      ensures ResetTables !in did ==> Blocks() == old(Blocks())
      ensures accepted && old(active).Some? ==> active == Some(old(active).value.(firewallReady := true)) && Healthy()
      ensures accepted ==> nft != null && nft.kernel == nft.freshly(EffectiveFirewall(active))
      ensures !accepted && Ready(active) ==> active == old(active)
      ensures ReconciledBeforeReset(did)
      ensures Undisturbed() ==> (accepted <==> old(!closing && !closed && initialized && nft != null && Installable(Readied(active), true)))
    {
      did := [];
      var admitted := AdmitReady();
      if !admitted || nft == null {
        return false, did;
      }
      var next := Readied(active);
      var err;
      err, did := ApplySnapshot(next, TorrentDiff, true, true);
      accepted := !err;
    }

    /** A healthy backend can block the addresses. */
    ghost predicate Blockable(items: seq<BlockIP>)
      reads this, nft
    {
      Healthy() && Renders(nft.net, items) && RoomForBlocks(nft.net, nft.kernel, items)
    }

    method BlockIPsContext(items: seq<BlockIP>) returns (accepted: bool)
      requires Valid()
      modifies this`active, this`log, nft
      ensures Valid() && old(log) <= log
      ensures active == old(active) || (!Healthy() && active == Degraded(old(active)))
      ensures accepted ==> Healthy() && active == old(active) && HasBlocks(nft.net, nft.kernel, items)
      ensures nft != null ==> SameStatic(old(nft.kernel), nft.kernel)
      ensures KeepsBlocks(old(Blocks()), Blocks(), {})
      ensures Undisturbed() ==> (accepted <==> old(!closing && !closed && initialized && Blockable(items)))
    {
      var admitted := AdmitReady();
      if !admitted {
        return false;
      }
      accepted := BlockNow(items);
    }

    /** The part of a block that holds the gate, shared with the torrent webhook. */
    method BlockNow(items: seq<BlockIP>) returns (blocked: bool)
      requires Valid() && !closed
      modifies this`active, this`log, nft
      ensures Valid() && old(log) <= log
      ensures active == old(active) || (!Healthy() && active == Degraded(old(active)))
      ensures blocked ==> Healthy() && active == old(active) && HasBlocks(nft.net, nft.kernel, items)
      ensures nft != null ==> SameStatic(old(nft.kernel), nft.kernel)
      ensures KeepsBlocks(old(Blocks()), Blocks(), {})
      ensures Undisturbed() ==> (blocked <==> old(Blockable(items)))
    {
      var available := FirewallAvailable();
      if !available {
        return false;
      }
      blocked := BlockHealthy(items);
    }

    /** The same over a backend that is there. */
    method BlockHealthy(items: seq<BlockIP>) returns (blocked: bool)
      requires Valid() && !closed && Healthy()
      modifies this`active, this`log, nft
      ensures Valid() && old(log) <= log
      ensures active == old(active) || (!Healthy() && active == Degraded(old(active)))
      ensures blocked ==> Healthy() && active == old(active) && HasBlocks(nft.net, nft.kernel, items)
      ensures SameStatic(old(nft.kernel), nft.kernel)
      ensures KeepsBlocks(old(Blocks()), Blocks(), {})
      ensures nft.obedient ==> (blocked <==> old(Blockable(items)))
    {
      nft.EmptyFits();
      var err := nft.BlockIPs(items);
      log := log + [ChangedBlocks];
      SameStaticEnforces(nft.net, old(nft.kernel), nft.kernel, nft.unblocked, EffectiveFirewall(active));
      GrowthKeepsBlocks(old(nft.kernel), nft.kernel);
      if err.Some? {
        var available := FirewallAvailable();
        if !available {
          PublishDegraded(active);
        }
        return false;
      }
      blocked := true;
    }

    method UnblockIPsContext(ips: seq<string>) returns (accepted: bool)
      requires Valid()
      modifies this`active, this`log, nft
      ensures Valid() && old(log) <= log
      ensures active == old(active) || (!Healthy() && active == Degraded(old(active)))
      ensures accepted ==> Healthy() && active == old(active) && (nft.truthful ==> AllGone(nft.net, nft.kernel, ips))
      ensures nft != null ==> OnlyUnblocked(old(nft.kernel), nft.kernel, NamedElements(nft.net, ips))
      ensures KeepsBlocks(old(Blocks()), Blocks(), NamedElements(net, ips))
      ensures Undisturbed() ==> (accepted <==> old(!closing && !closed && initialized && Healthy()) && Deletable(net, ips))
    {
      var admitted := AdmitReady();
      var available := FirewallAvailable();
      if !admitted || !available {
        return false;
      }
      accepted := UnblockNow(ips);
    }

    /** The part of an unblock that holds the gate. */
    method UnblockNow(ips: seq<string>) returns (accepted: bool)
      requires Valid() && !closed && Healthy()
      modifies this`active, this`log, nft
      ensures Valid() && old(log) <= log
      ensures active == old(active) || (!Healthy() && active == Degraded(old(active)))
      ensures accepted ==> Healthy() && active == old(active) && (nft.truthful ==> AllGone(nft.net, nft.kernel, ips))
      ensures OnlyUnblocked(old(nft.kernel), nft.kernel, NamedElements(nft.net, ips))
      ensures KeepsBlocks(old(Blocks()), Blocks(), NamedElements(net, ips))
      ensures nft.obedient ==> (accepted <==> Deletable(net, ips))
    {
      nft.EmptyFits();
      var err := nft.UnblockIPs(ips);
      log := log + [ChangedBlocks];
      UnblockKeepsEnforcing(nft.net, old(nft.kernel), nft.kernel, old(nft.unblocked), NamedElements(nft.net, ips), EffectiveFirewall(active));
      UnblockKeepsBlocks(old(nft.kernel), nft.kernel, NamedElements(nft.net, ips));
      if err.Some? {
        var available := FirewallAvailable();
        if !available {
          PublishDegraded(active);
        }
        return false;
      }
      accepted := true;
    }

    /** A torrent report from Xray, processed by the worker under the gate; None when nothing is to be reported. */
    method ProcessXrayWebhook(email: string, ip: string, ignored: bool) returns (report: Option<Report>)
      requires Valid()
      modifies this`active, this`log, nft
      ensures Valid() && old(log) <= log
      ensures active == old(active) || (!Healthy() && active == Degraded(old(active)))
      ensures nft != null ==> SameStatic(old(nft.kernel), nft.kernel)
      ensures KeepsBlocks(old(Blocks()), Blocks(), {})
      ensures report.Some? ==> EffectiveTorrent(old(active)) && !closed && report.value.ip == ip && report.value.userId == email
      ensures report.Some? && report.value.blocked ==>
        Healthy() && HasBlocks(nft.net, nft.kernel, [BlockIP(ip, old(active).value.torrent.blockDuration)])
      ensures !closed && initialized && EffectiveTorrent(old(active)) && email != "" && ip != "" && !ignored ==> report.Some?
      ensures Undisturbed() && report.Some? ==>
        (report.value.blocked <==> old(active.Some? && Blockable([BlockIP(ip, active.value.torrent.blockDuration)])))
    {
      if closed || !initialized || !EffectiveTorrent(active) || email == "" || ip == "" || ignored {
        return None;
      }
      var blocked := BlockNow([BlockIP(ip, active.value.torrent.blockDuration)]);
      report := Some(Report(ip, email, blocked));
    }

    /** Close is one-way; a failed cleanup keeps the snapshot and can be retried. */
    method CloseContext() returns (ok: bool)
      requires Valid()
      modifies this`active, this`closed, this`closeDone, this`closing, this`log, nft
      ensures Valid() && closing && (old(closed) ==> closed)
      ensures log == old(log) + if log == old(log) then [] else [DroppedTables]
      ensures log == old(log) ==> Blocks() == old(Blocks())
      ensures ok ==> closeDone && active.None?
      ensures !ok ==> active == old(active)
      ensures Undisturbed() ==> ok
      ensures ok && !old(closeDone) && nft != null && old(nft.owned) ==> nft.kernel == Kernel(map[], map[])
      ensures old(closeDone) ==> active == old(active)
    {
      closing := true;
      var gone := ContextDone();
      if gone {
        return false;
      }
      if closeDone {
        return true;
      }
      closed := true;
      if nft == null {
        CommitSnapshot(None);
        closeDone := true;
        return true;
      }
      nft.EmptyFits();
      var err := nft.Close();
      log := log + [DroppedTables];
      if err.Some? {
        return false;
      }
      CommitSnapshot(None);
      closeDone := true;
      ok := true;
    }
  }

  lemma {:induction false} SameStaticEnforces(net: Net, k: Kernel, k': Kernel, unblocked: set<Element>, c: FirewallConfig)
    requires SameStatic(k, k') && Enforces(net, k.sets, unblocked, c)
    ensures Enforces(net, k'.sets, unblocked, c)
  {
  }

  datatype Operation =
    | OpInitialize
    | OpSync(request: Option<SyncPlugin>, plan: Plan)
    | OpReset
    | OpRecreate
    | OpBlock(items: seq<BlockIP>)
    | OpUnblock(ips: seq<string>)
    | OpWebhook(email: string, ip: string, ignored: bool)
    | OpClose

  /** The kernel and the published snapshot agree, as far as the backend is healthy. */
  ghost predicate Published(s: Service)
    reads s, s.nft
  {
    && (s.Healthy() ==> forall id :: IsStatic(id) ==>
         id in s.nft.kernel.sets &&
         SetMatches(id, s.nft.kernel.sets[id], Permanent(StaticItems(s.nft.net, EffectiveFirewall(s.active), id)), s.nft.unblocked))
    && (EffectiveTorrent(s.active) && !s.closed ==> s.Healthy())
  }

  /** The operations that may take timed blocks away wholesale. */
  predicate MayWipe(op: Operation) {
    match op
    case OpSync(request, plan) => request.None? || plan.PlanInvalid? || (plan.PlanBuilt? && !plan.snapshot.torrent.enabled)
    case OpBlock(_) => false
    case OpUnblock(_) => false
    case OpWebhook(_, _, _) => false
    case _ => true
  }

  function Unblocks(net: Net, op: Operation): set<Element> {
    if op.OpUnblock? then NamedElements(net, op.ips) else {}
  }

  /** What a sync or a rebuild adds to the log resets tables, if at all, only after a reconcile that succeeded. */
  predicate KeepsOrder(op: Operation, did: seq<Event>) {
    op.OpSync? || op.OpRecreate? ==> ReconciledBeforeReset(did)
  }

  /** One operation, from taking the gate to giving it back. */
  method Perform(s: Service, op: Operation) returns (ghost did: seq<Event>)
    requires s.Valid()
    modifies s, s.nft
    ensures s.Valid() && Published(s)
    ensures old(s.closed) ==> s.closed
    ensures op.OpBlock? || op.OpUnblock? || op.OpWebhook? ==> s.active == old(s.active) || s.active == Degraded(old(s.active))
    // in the order that really happened
    ensures s.log == old(s.log) + did && KeepsOrder(op, did)
    // timed blocks outlive everything else, but for the addresses an unblock names
    ensures !MayWipe(op) || !Wiped(did) ==> KeepsBlocks(old(s.Blocks()), s.Blocks(), Unblocks(s.net, op))
    ensures op.OpSync? && (ResetTables !in did || (op.plan.PlanBuilt? && op.request.Some? && !EffectiveTorrent(old(s.active)))) ==>
      s.Blocks() == old(s.Blocks())
  {
    match op {
      case OpInitialize => var _ := s.InitializeContext();
      case OpSync(request, plan) => var _, _ := s.SyncContext(request, plan);
      case OpReset => var _, _ := s.ResetPluginsContext();
      case OpRecreate => var _, _ := s.RecreateTablesContext();
      case OpBlock(items) => var _ := s.BlockIPsContext(items);
      case OpUnblock(ips) => var _ := s.UnblockIPsContext(ips);
      case OpWebhook(email, ip, ignored) => var _ := s.ProcessXrayWebhook(email, ip, ignored);
      case OpClose => var _ := s.CloseContext();
    }
    did := s.log[|old(s.log)|..];
  }

  function AllUnblocks(net: Net, ops: seq<Operation>): set<Element> {
    if ops == [] then {} else AllUnblocks(net, ops[..|ops| - 1]) + Unblocks(net, ops[|ops| - 1])
  }

  lemma {:induction false} KeepsBlocksTwice(a: map<SetId, Elements>, b: map<SetId, Elements>, c: map<SetId, Elements>, m: set<Element>, n: set<Element>)
    requires KeepsBlocks(a, b, m) && KeepsBlocks(b, c, n)
    ensures KeepsBlocks(a, c, m + n)
  {
  }

  /** The parts that the operations of a run added to the log, one after the other. */
  function Joined(parts: seq<seq<Event>>): seq<Event> {
    if parts == [] then [] else Joined(parts[..|parts| - 1]) + parts[|parts| - 1]
  }

  /** No operation of the run wiped the tables, as its kind or the log of its calls shows. */
  ghost predicate NoWipe(ops: seq<Operation>, parts: seq<seq<Event>>)
    requires |parts| == |ops|
  {
    forall i :: 0 <= i < |ops| ==> !MayWipe(ops[i]) || !Wiped(parts[i])
  }

  /** What a run has done so far, from these timed blocks and this log to those. */
  ghost predicate RunSoFar(net: Net, ops: seq<Operation>, parts: seq<seq<Event>>,
                           was: map<SetId, Elements>, log: seq<Event>, now: map<SetId, Elements>, log': seq<Event>) {
    && |parts| == |ops| && log' == log + Joined(parts)
    && (forall i :: 0 <= i < |ops| ==> KeepsOrder(ops[i], parts[i]))
    && (NoWipe(ops, parts) ==> KeepsBlocks(was, now, AllUnblocks(net, ops)))
  }

  lemma {:induction false} RunNext(net: Net, ops: seq<Operation>, parts: seq<seq<Event>>, op: Operation, did: seq<Event>,
                                   was: map<SetId, Elements>, log: seq<Event>, mid: map<SetId, Elements>, log': seq<Event>,
                                   now: map<SetId, Elements>)
    requires RunSoFar(net, ops, parts, was, log, mid, log') && KeepsOrder(op, did)
    requires !MayWipe(op) || !Wiped(did) ==> KeepsBlocks(mid, now, Unblocks(net, op))
    ensures RunSoFar(net, ops + [op], parts + [did], was, log, now, log' + did)
  {
    var ops', parts' := ops + [op], parts + [did];
    assert ops'[..|ops|] == ops && parts'[..|parts|] == parts;
    assert log + Joined(parts) + did == log + (Joined(parts) + did);
    if NoWipe(ops', parts') {
      assert !MayWipe(ops'[|ops|]) || !Wiped(parts'[|ops|]);
      forall i | 0 <= i < |ops| ensures !MayWipe(ops[i]) || !Wiped(parts[i]) {
        assert ops'[i] == ops[i] && parts'[i] == parts[i];
      }
      KeepsBlocksTwice(was, mid, now, AllUnblocks(net, ops), Unblocks(net, op));
    }
  }

  /**
  Every run of operations, in any order, leaves kernel and snapshot in agreement each time the gate is
  free, keeps the reconcile order of every operation in it, and, unless the tables were reset, set up
  or deleted by an operation that may do so, keeps every timed block but those unblocked by name.
   */
  method AnyRun(s: Service, ops: seq<Operation>) returns (ghost parts: seq<seq<Event>>)
    requires s.Valid()
    modifies s, s.nft
    ensures s.Valid() && Published(s)
    ensures old(s.closed) ==> s.closed
    ensures |parts| == |ops| && s.log == old(s.log) + Joined(parts)
    ensures forall i :: 0 <= i < |ops| ==> KeepsOrder(ops[i], parts[i])
    ensures NoWipe(ops, parts) ==> KeepsBlocks(old(s.Blocks()), s.Blocks(), AllUnblocks(s.net, ops))
  {
    parts := [];
    for i := 0 to |ops|
      invariant s.Valid() && Published(s) && (old(s.closed) ==> s.closed)
      invariant RunSoFar(s.net, ops[..i], parts, old(s.Blocks()), old(s.log), s.Blocks(), s.log)
    {
      ghost var before, was, log := parts, s.Blocks(), s.log;
      ghost var did := Perform(s, ops[i]);
      parts := parts + [did];
      RunNext(s.net, ops[..i], before, ops[i], did, old(s.Blocks()), old(s.log), was, log, s.Blocks());
      assert ops[..i + 1] == ops[..i] + [ops[i]];
    }
    assert ops[..|ops|] == ops;
  }
}
