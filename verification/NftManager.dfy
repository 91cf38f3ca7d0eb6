/**
The nftables backend: the flags `owned` and `healthy` around a script runner that may fail
before or after its transaction has taken effect.
 */
module NftManager {
  import opened Wrappers
  import opened NftScript

  datatype RunError = Cancelled | MissingElement | AmbiguousNotFound | OtherFailure

  datatype BackendError = Unavailable | ScriptTooLarge | InvalidRequest | RunFailed(run: RunError)

  predicate IsMissing(e: RunError) {
    e.MissingElement? || e.AmbiguousNotFound?
  }

  // ---------- What it means to enforce a configuration ----------

  ghost predicate SetMatches(id: SetId, have: Elements, want: Elements, unblocked: set<Element>) {
    if id.name.IngressFilter? then
      have.Keys <= want.Keys && want.Keys - unblocked <= have.Keys
    else
      have == want
  }

  /**
  The static sets hold the normalised configuration; an ingress set may lack addresses that were
  unblocked since it was last written.
   */
  ghost predicate Enforces(net: Net, sets: map<SetId, Elements>, unblocked: set<Element>, c: FirewallConfig) {
    forall id :: IsStatic(id) ==> id in sets && SetMatches(id, sets[id], Permanent(StaticItems(net, c, id)), unblocked)
  }

  /** The timed torrent blocks. */
  ghost function TorrentBlocks(k: Kernel): map<SetId, Elements> {
    map id | id in k.sets && !IsStatic(id) :: k.sets[id]
  }

  /** Static sets are what they were. */
  ghost predicate SameStatic(k: Kernel, k': Kernel) {
    forall id :: IsStatic(id) ==> (id in k.sets <==> id in k'.sets) && (id in k.sets ==> k'.sets[id] == k.sets[id])
  }

  /** Only named addresses left, and only from the torrent and ingress sets. */
  ghost predicate OnlyUnblocked(k: Kernel, k': Kernel, named: set<Element>) {
    && k'.tables == k.tables && k'.sets.Keys == k.sets.Keys
    && forall id :: id in k.sets ==>
         if id.name.TorrentBlocker? || id.name.IngressFilter? then
           && k'.sets[id].Keys <= k.sets[id].Keys && k.sets[id].Keys - named <= k'.sets[id].Keys
           && (forall e :: e in k'.sets[id] ==> k'.sets[id][e] == k.sets[id][e])
         else k'.sets[id] == k.sets[id]
  }

  lemma {:induction false} StaticWriteEnforces(net: Net, k: Kernel, c: FirewallConfig)
    ensures Enforces(net, k.sets + StaticSets(net, c), {}, c)
    ensures TorrentBlocks(Kernel(k.tables, k.sets + StaticSets(net, c))) == TorrentBlocks(k)
  {
    StaticIds();
  }

  lemma {:induction false} FreshEnforces(net: Net, c: FirewallConfig, options: Options)
    ensures Enforces(net, FreshTables(net, c, options).sets, {}, c)
    ensures SetsInTables(FreshTables(net, c, options)) && HasStaticSets(FreshTables(net, c, options))
    ensures forall id :: id in TorrentBlocks(FreshTables(net, c, options)) ==> TorrentBlocks(FreshTables(net, c, options))[id] == map[]
  {
    StaticIds();
    FreshStructure(net, c, options);
    FreshBlocks(net, c, options);
  }

  lemma {:induction false} FreshStructure(net: Net, c: FirewallConfig, options: Options)
    ensures SetsInTables(FreshTables(net, c, options)) && HasStaticSets(FreshTables(net, c, options))
  {
    forall id | id in FreshTables(net, c, options).sets ensures id.family in FreshTables(net, c, options).tables {
      assert id.family == Ip || id.family == Ip6;
    }
  }

  lemma {:induction false} FreshBlocks(net: Net, c: FirewallConfig, options: Options)
    ensures forall id :: id in TorrentBlocks(FreshTables(net, c, options)) ==> TorrentBlocks(FreshTables(net, c, options))[id] == map[]
  {
    StaticIds();
  }

  lemma {:induction false} SameListsEnforce(net: Net, sets: map<SetId, Elements>, unblocked: set<Element>, c: FirewallConfig, d: FirewallConfig)
    requires FirewallConfigsEqual(net, c, d)
    ensures StaticLists(net, c) == StaticLists(net, d)
    ensures Enforces(net, sets, unblocked, c) <==> Enforces(net, sets, unblocked, d)
  {
    forall id: SetId ensures StaticItems(net, c, id) == StaticItems(net, d, id) {
    }
  }

  /** Equality up to normalisation, which is what decides whether a sync has to touch the kernel. */
  predicate FirewallConfigsEqual(net: Net, c: FirewallConfig, d: FirewallConfig) {
    && Normalize(net, Ip, c.ingressIPs) == Normalize(net, Ip, d.ingressIPs)
    && Normalize(net, Ip6, c.ingressIPs) == Normalize(net, Ip6, d.ingressIPs)
    && Normalize(net, Ip, c.egressIPs) == Normalize(net, Ip, d.egressIPs)
    && Normalize(net, Ip6, c.egressIPs) == Normalize(net, Ip6, d.egressIPs)
    && NormalizedPorts(c.egressPorts) == NormalizedPorts(d.egressPorts)
  }

  lemma {:induction false} UnblockStepKeeps(net: Net, ips: seq<string>, k: Kernel, k1: Kernel, c: Command, k2: Kernel)
    requires OnlyUnblocked(k, k1, NamedElements(net, ips)) && IsUnblock(net, ips, c)
    requires Exec(k1, c) == Some(k2)
    ensures OnlyUnblocked(k, k2, NamedElements(net, ips))
  {
  }

  lemma {:induction false} UnblockKeepsEnforcing(net: Net, k: Kernel, k': Kernel, unblocked: set<Element>, named: set<Element>, c: FirewallConfig)
    requires OnlyUnblocked(k, k', named) && Enforces(net, k.sets, unblocked, c)
    ensures Enforces(net, k'.sets, unblocked + named, c)
  {
  }

  /** Nothing that was in a set has left it. */
  ghost predicate Grows(k: Kernel, k': Kernel) {
    forall id :: id in k.sets ==> id in k'.sets && k.sets[id].Keys <= k'.sets[id].Keys
  }

  /** Nothing has entered a set. */
  ghost predicate Shrinks(k: Kernel, k': Kernel) {
    k'.sets.Keys == k.sets.Keys && forall id :: id in k.sets ==> k'.sets[id].Keys <= k.sets[id].Keys
  }

  /** What the command deletes is not there. */
  ghost predicate Gone(k: Kernel, c: Command) {
    c.DeleteElement? && c.id in k.sets ==> c.element !in k.sets[c.id]
  }

  /** None of the addresses is in the torrent or the ingress set of its family. */
  ghost predicate AllGone(net: Net, k: Kernel, ips: seq<string>) {
    forall i :: 0 <= i < |ips| && net.parseAddr(ips[i]).Some? ==>
      var addr := net.parseAddr(ips[i]).value;
      var family := if addr.isV4 then Ip else Ip6;
      && Gone(k, DeleteElement(SetId(family, TorrentBlocker), Prefix(net.hostPrefix(addr.text))))
      && Gone(k, DeleteElement(SetId(family, IngressFilter), Prefix(net.hostPrefix(addr.text))))
  }

  lemma {:induction false} DeleteEffect(k: Kernel, c: Command)
    requires c.DeleteElement?
    ensures Run(k, [c]).None? ==> Gone(k, c)
    ensures Run(k, [c]).Some? ==> Gone(Run(k, [c]).value, c) && Shrinks(k, Run(k, [c]).value)
  {
    RunOne(k, c);
  }

  lemma {:induction false} ScriptGone(net: Net, k: Kernel, ips: seq<string>, v4: seq<string>, v6: seq<string>)
    requires TextsOf(net, ips, true, v4) && TextsOf(net, ips, false, v6)
    requires forall c :: c in UnblockScript(net, v4, v6) ==> Gone(k, c)
    ensures AllGone(net, k, ips)
  {
    UnblockNames(net, ips, v4, v6);
  }

  lemma {:induction false} StaysGone(k: Kernel, k': Kernel, commands: seq<Command>)
    requires Shrinks(k, k') && forall c :: c in commands ==> Gone(k, c)
    ensures forall c :: c in commands ==> Gone(k', c)
  {
  }

  predicate Holds(elements: Elements, timed: Elements) {
    forall e :: e in timed ==> e in elements && elements[e] == timed[e]
  }

  /** Every named address is in the torrent set of its family, with the last timeout it was given. */
  ghost predicate HasBlocks(net: Net, k: Kernel, items: seq<BlockIP>) {
    var v4, v6 := BlockedElements(net, items, true), BlockedElements(net, items, false);
    && (v4 != map[] ==> TORRENT4 in k.sets && Holds(k.sets[TORRENT4], v4))
    && (v6 != map[] ==> TORRENT6 in k.sets && Holds(k.sets[TORRENT6], v6))
  }

  /** The batch is within the limits and names addresses only. */
  predicate Renders(net: Net, items: seq<BlockIP>) {
    ValidBlocks(items) && AllParse(net, items) && net.textBytes(BlockScript(net, items)) <= MAX_SCRIPT_BYTES
  }

  /** The torrent sets that the addresses go into are there. */
  predicate RoomForBlocks(net: Net, k: Kernel, items: seq<BlockIP>) {
    && (BlockedElements(net, items, true) != map[] ==> TORRENT4 in k.sets)
    && (BlockedElements(net, items, false) != map[] ==> TORRENT6 in k.sets)
  }

  /** The batch is within the limits, names addresses only, and no command for it is too long. */
  ghost predicate Deletable(net: Net, ips: seq<string>) {
    && ValidUnblocks(ips) && AllParseText(net, ips)
    && forall v4, v6 :: TextSorted(v4) && TextSorted(v6) && TextsOf(net, ips, true, v4) && TextsOf(net, ips, false, v6) ==>
         ShortCommands(net, v4, v6)
  }

  predicate ShortCommands(net: Net, v4: seq<string>, v6: seq<string>) {
    forall c :: c in UnblockScript(net, v4, v6) ==> net.textBytes([c]) <= MAX_SCRIPT_BYTES
  }

  /** Where all that the commands delete is gone, so are the addresses. */
  ghost predicate Covers(net: Net, commands: seq<Command>, ips: seq<string>, k: Kernel) {
    (forall c :: c in commands ==> Gone(k, c)) ==> AllGone(net, k, ips)
  }

  method RenderDeletes(net: Net, ips: seq<string>) returns (commands: Option<seq<Command>>)
    ensures commands.Some? <==> Deletable(net, ips)
    ensures commands.Some? ==> forall c :: c in commands.value ==> IsUnblock(net, ips, c)
    ensures commands.Some? ==> forall k :: Covers(net, commands.value, ips, k)
  {
    ghost var v4, v6;
    commands, v4, v6 := RenderUnblock(net, ips);
    if commands.None? {
      assert !ValidUnblocks(ips) || !AllParseText(net, ips) || !ShortCommands(net, v4, v6);
      return;
    }
    UnblockNames(net, ips, v4, v6);
    forall k ensures Covers(net, commands.value, ips, k) {
      if forall c :: c in commands.value ==> Gone(k, c) {
        ScriptGone(net, k, ips, v4, v6);
      }
    }
    forall w4, w6 | TextSorted(w4) && TextSorted(w6) && TextsOf(net, ips, true, w4) && TextsOf(net, ips, false, w6)
      ensures ShortCommands(net, w4, w6)
    {
      SortedUnique(v4, w4);
      SortedUnique(v6, w6);
    }
  }

  // ---------- The backend ----------

  class Manager {
    const capable: bool
    const options: Options
    const net: Net
    /** Which configurations have a static update and a full script within the limit, and the tables a reset to one leaves. */
    const fits: FirewallConfig -> bool
    const fullFits: FirewallConfig -> bool
    ghost const freshly: FirewallConfig -> Kernel
    /** nft reports something as missing only when the transaction could not run. */
    const truthful: bool
    /** And it runs every transaction that can run, and says so. */
    const obedient: bool
    var owned: bool
    var healthy: bool
    var kernel: Kernel
    /** Addresses named in an unblock since the static sets were last written. */
    ghost var unblocked: set<Element>

    ghost predicate Valid()
      reads this
    {
      && SetsInTables(kernel) && EmptyStaysEmpty(net) && (obedient ==> truthful) && (healthy ==> owned && capable && HasStaticSets(kernel))
      && (forall c {:trigger RenderStaticUpdate(net, c)} :: fits(c) <==> Fits(RenderStaticUpdate(net, c)))
      && (forall c {:trigger RenderConfig(net, c, options)} :: fullFits(c) <==> Fits(RenderConfig(net, c, options)))
      && (forall c {:trigger FreshTables(net, c, options)} :: freshly(c) == FreshTables(net, c, options))
    }

    lemma {:induction false} EmptyFits()
      requires Valid()
      ensures fits(NO_FIREWALL)
    {
      EmptyUpdateFits(net);
    }

    /** Configurations that compare equal are enforced by the same sets and fit alike. */
    lemma {:induction false} SameConfigs(c: FirewallConfig, d: FirewallConfig)
      requires Valid() && FirewallConfigsEqual(net, c, d)
      ensures fits(c) == fits(d)
      ensures Enforces(net, kernel.sets, unblocked, c) <==> Enforces(net, kernel.sets, unblocked, d)
    {
      SameListsEnforce(net, kernel.sets, unblocked, c, d);
      assert RenderStaticUpdate(net, c) == RenderStaticUpdate(net, d);
    }

    /** Fresh tables enforce their configuration, and what could be installed can be put back. */
    lemma {:induction false} FreshIsGood(c: FirewallConfig)
      requires Valid()
      ensures Enforces(net, freshly(c).sets, {}, c) && SetsInTables(freshly(c)) && HasStaticSets(freshly(c))
      ensures fullFits(c) ==> fits(c)
    {
      FreshEnforces(net, c, options);
      StaticUpdateIsShorter(net, c, options);
    }

    /** Nothing a caller could see has changed. */
    twostate predicate Untouched()
      reads this
    {
      owned == old(owned) && healthy == old(healthy) && kernel == old(kernel) && unblocked == old(unblocked)
    }

    constructor (capable: bool, truthful: bool, obedient: bool, options: Options, net: Net, kernel: Kernel)
      requires SetsInTables(kernel) && EmptyStaysEmpty(net) && (obedient ==> truthful)
      ensures Valid() && !owned && !healthy && fresh(this)
      ensures this.net == net && this.kernel == kernel && this.capable == capable && this.options == options
      ensures this.truthful == truthful && this.obedient == obedient
    {
      this.truthful, this.obedient := truthful, obedient;
      this.capable, this.options, this.net, this.kernel := capable, options, net, kernel;
      fits := (c: FirewallConfig) => Fits(RenderStaticUpdate(net, c));
      fullFits := (c: FirewallConfig) => Fits(RenderConfig(net, c, options));
      freshly := (c: FirewallConfig) => FreshTables(net, c, options);
      owned, healthy, unblocked := false, false, {};
    }

    /** One transaction.  Success means it was applied; failure may have come before or after. */
    method RunScript(script: Script) returns (err: Option<RunError>)
      requires SetsInTables(kernel)
      modifies this`kernel
      ensures SetsInTables(kernel)
      ensures err.None? ==> Run(old(kernel), script) == Some(kernel)
      ensures kernel == old(kernel) || Run(old(kernel), script) == Some(kernel)
      ensures truthful && err.Some? && IsMissing(err.value) ==> Run(old(kernel), script).None?
      ensures obedient ==> (err.None? <==> Run(old(kernel), script).Some?) && (err.Some? ==> IsMissing(err.value))
    {
      var outcome := Run(kernel, script);
      var failure: RunError := *;
      var applied: bool := *;
      var reported: bool := *;
      if obedient {
        applied, reported := true, true;
        failure := if IsMissing(failure) then failure else MissingElement;
      } else if truthful && IsMissing(failure) && outcome.Some? {
        failure := OtherFailure;
      }
      if outcome.None? || !applied {
        err := Some(failure);
      } else {
        RunKeepsSetsInTables(kernel, script);
        kernel := outcome.value;
        err := if reported then None else Some(failure);
      }
    }

    method Initialize() returns (err: Option<BackendError>)
      requires Valid()
      modifies this
      ensures Valid()
      ensures old(healthy) ==> err.None? && Untouched()
      ensures err.None? && !old(healthy) ==>
        healthy && unblocked == {} && kernel == freshly(NO_FIREWALL) && Enforces(net, kernel.sets, {}, NO_FIREWALL)
      ensures err.Some? ==> !healthy
      ensures obedient ==> (err.None? <==> old(healthy) || (capable && fullFits(NO_FIREWALL)))
      ensures kernel == old(kernel) || kernel == freshly(NO_FIREWALL)
    {
      if healthy {
        return None;
      }
      err := Recreate(NO_FIREWALL);
    }

    /** The shared tail of initialise and reset: take ownership, then run the full script. */
    method Recreate(c: FirewallConfig) returns (err: Option<BackendError>)
      requires Valid()
      modifies this
      ensures Valid()
      ensures err.None? ==>
        healthy && unblocked == {} && kernel == freshly(c) && Enforces(net, kernel.sets, {}, c) && fits(c)
      ensures err.Some? && healthy ==> Untouched()
      ensures obedient ==> (err.None? <==> capable && fullFits(c))
      ensures kernel == old(kernel) || kernel == freshly(c)
    {
      if !capable {
        return Some(Unavailable);
      }
      FreshIsGood(c);
      if !fullFits(c) {
        return Some(ScriptTooLarge);
      }
      owned, healthy := true, false;
      var failed := Install(c);
      if failed.Some? {
        return Some(RunFailed(failed.value));
      }
      healthy := true;
      unblocked := {};
      err := None;
    }

    /** Runs the full script, whose result does not depend on what was there. */
    method Install(c: FirewallConfig) returns (failed: Option<RunError>)
      requires Valid() && !healthy
      modifies this`kernel
      ensures SetsInTables(kernel) && (kernel == old(kernel) || kernel == freshly(c))
      ensures failed.None? ==> kernel == freshly(c)
      ensures obedient ==> failed.None?
    {
      FullConfigCanonical(kernel, net, c, options);
      failed := RunScript(RenderConfig(net, c, options));
    }

    method Reset(c: FirewallConfig) returns (err: Option<BackendError>)
      requires Valid()
      modifies this
      ensures Valid()
      ensures err.None? ==>
        healthy && unblocked == {} && kernel == freshly(c) && Enforces(net, kernel.sets, {}, c) && fits(c)
      ensures err.Some? && healthy ==> Untouched()
      ensures obedient ==> (err.None? <==> capable && fullFits(c))
      ensures kernel == old(kernel) || kernel == freshly(c)
    {
      err := Recreate(c);
    }

    method Apply(c: FirewallConfig) returns (err: Option<BackendError>)
      requires Valid()
      modifies this
      ensures Valid() && owned == old(owned)
      ensures TorrentBlocks(kernel) == old(TorrentBlocks(kernel))
      ensures err.None? ==>
        healthy && unblocked == {} && Enforces(net, kernel.sets, {}, c) && fits(c)
      ensures err.Some? && healthy ==>
        Untouched() && (owned && capable ==> !fits(c))
      ensures obedient && HasStaticSets(old(kernel)) ==> (err.None? <==> owned && capable && fits(c))
    {
      if !owned || !capable {
        return Some(Unavailable);
      }
      if !fits(c) {
        return Some(ScriptTooLarge);
      }
      var failed := WriteStatic(c);
      if failed.Some? {
        healthy := false;
        return Some(RunFailed(failed.value));
      }
      healthy := true;
      unblocked := {};
      err := None;
    }

    /** Runs the static update, which leaves the torrent sets alone. */
    method WriteStatic(c: FirewallConfig) returns (failed: Option<RunError>)
      requires SetsInTables(kernel)
      modifies this`kernel
      ensures SetsInTables(kernel) && TorrentBlocks(kernel) == old(TorrentBlocks(kernel))
      ensures failed.None? ==> HasStaticSets(kernel) && Enforces(net, kernel.sets, {}, c)
      ensures obedient && HasStaticSets(old(kernel)) ==> failed.None?
    {
      StaticUpdateExact(kernel, net, c);
      StaticWriteEnforces(net, kernel, c);
      StaticIds();
      failed := RunScript(RenderStaticUpdate(net, c));
    }

    method BlockIPs(items: seq<BlockIP>) returns (err: Option<BackendError>)
      requires Valid()
      modifies this`healthy, this`kernel
      ensures Valid()
      ensures SameStatic(old(kernel), kernel) && Grows(old(kernel), kernel)
      ensures healthy ==> old(healthy)
      ensures !healthy && old(healthy) ==> err.Some?
      ensures err.None? ==> HasBlocks(net, kernel, items)
      ensures obedient ==> (err.None? <==> old(healthy) && Renders(net, items) && RoomForBlocks(net, old(kernel), items))
    {
      if !healthy || !owned {
        return Some(Unavailable);
      }
      var script := RenderBlock(net, items);
      if script.None? {
        return Some(InvalidRequest);
      }
      if script.value == [] {
        return None;
      }
      var failed := RunBlock(items);
      if failed.Some? {
        if failed.value.AmbiguousNotFound? {
          healthy := false;
        }
        return Some(RunFailed(failed.value));
      }
      err := None;
    }

    /** Runs the block script, which only adds to the torrent sets. */
    method RunBlock(items: seq<BlockIP>) returns (failed: Option<RunError>)
      requires SetsInTables(kernel)
      modifies this`kernel
      ensures SetsInTables(kernel) && SameStatic(old(kernel), kernel) && Grows(old(kernel), kernel)
      ensures failed.None? ==> HasBlocks(net, kernel, items)
      ensures obedient ==> (failed.None? <==> RoomForBlocks(net, old(kernel), items))
    {
      BlockExact(kernel, BlockedElements(net, items, true), BlockedElements(net, items, false));
      failed := RunScript(BlockScript(net, items));
    }

    /** Delete one address from one set; a missing element is reported, never fatal. */
    method DeleteOne(c: Command, ghost ips: seq<string>, ghost start: Kernel) returns (failed: Option<RunError>)
      requires SetsInTables(kernel) && IsUnblock(net, ips, c) && OnlyUnblocked(start, kernel, NamedElements(net, ips))
      modifies this`kernel
      ensures SetsInTables(kernel) && OnlyUnblocked(start, kernel, NamedElements(net, ips)) && Shrinks(old(kernel), kernel)
      ensures obedient && failed.Some? ==> IsMissing(failed.value)
      ensures truthful && (failed.Some? ==> IsMissing(failed.value)) ==> Gone(kernel, c)
    {
      RunOne(kernel, c);
      DeleteEffect(kernel, c);
      failed := RunScript([c]);
      if kernel != old(kernel) {
        UnblockStepKeeps(net, ips, start, old(kernel), c, kernel);
      }
    }

    /** List both tables: a failure that is not a cancellation counts as their being gone. */
    method ProbeStructure() returns (failed: Option<RunError>)
      requires SetsInTables(kernel)
      modifies this`kernel
      ensures kernel == old(kernel)
      ensures failed.None? ==> Ip in kernel.tables && Ip6 in kernel.tables
      ensures truthful && failed.Some? && IsMissing(failed.value) ==> Ip !in kernel.tables || Ip6 !in kernel.tables
      ensures obedient && failed.Some? ==> Ip !in kernel.tables || Ip6 !in kernel.tables
    {
      RunOne(kernel, ListTable(Ip));
      RunOne(kernel, ListTable(Ip6));
      for i := 0 to |STRUCTURE_PROBES|
        invariant kernel == old(kernel)
        invariant i > 0 ==> Ip in kernel.tables
        invariant i > 1 ==> Ip6 in kernel.tables
      {
        assert STRUCTURE_PROBES[i] == [ListTable(if i == 0 then Ip else Ip6)];
        failed := RunScript(STRUCTURE_PROBES[i]);
        if failed.Some? {
          return;
        }
      }
      failed := None;
    }

    method DeleteAll(commands: seq<Command>, ghost ips: seq<string>) returns (failed: Option<RunError>, ambiguous: bool)
      requires SetsInTables(kernel) && forall c :: c in commands ==> IsUnblock(net, ips, c)
      modifies this`kernel
      ensures SetsInTables(kernel) && OnlyUnblocked(old(kernel), kernel, NamedElements(net, ips))
      ensures failed.None? && truthful ==> forall c :: c in commands ==> Gone(kernel, c)
      ensures obedient ==> failed.None?
    {
      ambiguous := false;
      for i := 0 to |commands|
        invariant SetsInTables(kernel) && OnlyUnblocked(old(kernel), kernel, NamedElements(net, ips))
        invariant truthful ==> forall c :: c in commands[..i] ==> Gone(kernel, c)
      {
        ghost var before := kernel;
        assert commands[..i + 1] == commands[..i] + [commands[i]];
        failed := DeleteOne(commands[i], ips, old(kernel));
        if truthful {
          StaysGone(before, kernel, commands[..i]);
        }
        if failed.Some? {
          if failed.value.Cancelled? || !IsMissing(failed.value) {
            return;
          }
          ambiguous := ambiguous || failed.value.AmbiguousNotFound?;
        }
      }
      assert commands[..|commands|] == commands;
      failed := None;
    }

    method UnblockIPs(ips: seq<string>) returns (err: Option<BackendError>)
      requires Valid()
      modifies this`healthy, this`kernel, this`unblocked
      ensures Valid()
      ensures OnlyUnblocked(old(kernel), kernel, NamedElements(net, ips))
      ensures healthy ==> old(healthy) && unblocked == old(unblocked) + NamedElements(net, ips)
      ensures !healthy && old(healthy) ==> err.Some?
      // success takes every named address out of both its sets, if missing-element errors are true
      ensures err.None? ==> AllParseText(net, ips) && (truthful ==> AllGone(net, kernel, ips))
      ensures obedient ==> (err.None? <==> old(healthy) && Deletable(net, ips))
    {
      unblocked := unblocked + NamedElements(net, ips);
      if !healthy || !owned {
        return Some(Unavailable);
      }
      var commands := RenderDeletes(net, ips);
      if commands.None? {
        return Some(InvalidRequest);
      }
      var failed := DeleteAndProbe(commands.value, ips);
      if truthful && failed.None? {
        assert Covers(net, commands.value, ips, kernel);
      }
      err := if failed.Some? then Some(RunFailed(failed.value)) else None;
    }

    /** The deletions, and after an ambiguous error a look at the tables, whose loss clears the healthy flag. */
    method DeleteAndProbe(commands: seq<Command>, ghost ips: seq<string>) returns (failed: Option<RunError>)
      requires Valid() && healthy && forall c :: c in commands ==> IsUnblock(net, ips, c)
      modifies this`healthy, this`kernel
      ensures Valid() && OnlyUnblocked(old(kernel), kernel, NamedElements(net, ips))
      ensures !healthy ==> failed.Some?
      ensures failed.None? && truthful ==> forall c :: c in commands ==> Gone(kernel, c)
      ensures obedient ==> failed.None?
    {
      var ambiguous;
      failed, ambiguous := DeleteAll(commands, ips);
      if failed.None? && ambiguous {
        failed := ProbeStructure();
        if failed.Some? && !failed.value.Cancelled? {
          healthy := false;
        }
      }
    }

    method Close() returns (err: Option<BackendError>)
      requires Valid()
      modifies this`owned, this`healthy, this`kernel
      ensures Valid() && !healthy
      ensures err.None? ==> !owned && (old(owned) ==> kernel == Kernel(map[], map[]))
      ensures err.Some? ==> owned == old(owned)
      ensures obedient ==> err.None?
    {
      if !owned {
        return None;
      }
      DeleteTablesExact(kernel);
      var failed := RunScript(DELETE_TABLES);
      if failed.Some? {
        healthy := false;
        return Some(RunFailed(failed.value));
      }
      owned, healthy := false, false;
      err := None;
    }
  }

  lemma {:induction false} RunOne(k: Kernel, c: Command)
    ensures Run(k, [c]) == Exec(k, c)
  {
    assert [c][1..] == [];
  }
}
