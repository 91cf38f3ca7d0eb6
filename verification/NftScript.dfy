/**
The nftables scripts the plugin renders, as command lists with an interpreter.

A script is one transaction: if any of its commands fails, the kernel is unchanged.  Address
normalisation and parsing are parameters (`Net`): everything below holds for any of them.
 */
module NftScript {
  import opened Wrappers

  datatype Family = Ip | Ip6
  datatype SetName = TorrentBlocker | IngressFilter | EgressFilter | EgressPorts
  datatype SetId = SetId(family: Family, name: SetName)

  datatype Element = Prefix(text: string) | Port(number: int)

  /** A set with the timeout of each element; zero is permanent. */
  type Elements = map<Element, real>

  datatype Options = Options(logging: bool, acceptReplyTraffic: bool)

  /** The owned tables with the chains loaded into them, and the sets of all tables. */
  datatype Kernel = Kernel(tables: map<Family, seq<Options>>, sets: map<SetId, Elements>)

  datatype Command =
    | AddTable(family: Family)
    | DeleteTable(family: Family)
    | DefineTable(family: Family, options: Options)  // the table block: four sets and three chains
    | FlushSet(id: SetId)
    | AddElements(id: SetId, elements: seq<Element>)
    | AddTimed(id: SetId, timed: Elements)
    | DeleteElement(id: SetId, element: Element)
    | ListTable(family: Family)

  type Script = seq<Command>

  // ---------- The interpreter ----------

  function SetsOf(family: Family): map<SetId, Elements> {
    map[SetId(family, TorrentBlocker) := map[], SetId(family, IngressFilter) := map[],
        SetId(family, EgressFilter) := map[], SetId(family, EgressPorts) := map[]]
  }

  function Permanent(elements: seq<Element>): Elements {
    map e | e in elements :: 0.0
  }

  function Exec(k: Kernel, c: Command): Option<Kernel> {
    match c
    case AddTable(f) => Some(if f in k.tables then k else k.(tables := k.tables[f := []]))
    case DeleteTable(f) =>
      if f !in k.tables then None
      else Some(Kernel(k.tables - {f}, map id | id in k.sets && id.family != f :: k.sets[id]))
    case DefineTable(f, options) =>
      // declaring a set again keeps its elements; declaring a chain again adds its rules once more
      var chains := if f in k.tables then k.tables[f] else [];
      Some(Kernel(k.tables[f := chains + [options]], SetsOf(f) + k.sets))
    case FlushSet(id) =>
      if id !in k.sets then None else Some(k.(sets := k.sets[id := map[]]))
    case AddElements(id, elements) =>
      if id !in k.sets then None else Some(k.(sets := k.sets[id := k.sets[id] + Permanent(elements)]))
    case AddTimed(id, timed) =>
      if id !in k.sets then None else Some(k.(sets := k.sets[id := k.sets[id] + timed]))
    case DeleteElement(id, e) =>
      if id !in k.sets || e !in k.sets[id] then None else Some(k.(sets := k.sets[id := k.sets[id] - {e}]))
    case ListTable(f) => if f in k.tables then Some(k) else None
  }

  function Run(k: Kernel, script: Script): Option<Kernel>
    decreases |script|
  {
    if script == [] then Some(k)
    else
      var next := Exec(k, script[0]);
      if next.None? then None else Run(next.value, script[1..])
  }

  lemma {:induction false} RunConcat(k: Kernel, a: Script, b: Script)
    ensures Run(k, a + b) == if Run(k, a).None? then None else Run(Run(k, a).value, b)
    decreases |a|
  {
    if a == [] {
      assert a + b == b;
    } else {
      assert (a + b)[1..] == a[1..] + b;
      if Exec(k, a[0]).Some? {
        RunConcat(Exec(k, a[0]).value, a[1..], b);
      }
    }
  }

  // ---------- Configurations ----------

  datatype Address = Address(isV4: bool, text: string)

  /**
  Normalisation, address parsing, the one-address prefix that names the same element as a bare
  address does, and the length of the text of a block or unblock script.
   */
  datatype Net = Net(
    normalizeV4: seq<string> -> seq<string>,
    normalizeV6: seq<string> -> seq<string>,
    parseAddr: string -> Option<Address>,
    hostPrefix: string -> string,
    textBytes: Script -> nat)

  /** Normalising no items gives no prefixes. */
  predicate EmptyStaysEmpty(net: Net) {
    net.normalizeV4([]) == [] && net.normalizeV6([]) == []
  }

  datatype FirewallConfig = FirewallConfig(ingressIPs: seq<string>, egressIPs: seq<string>, egressPorts: seq<int>)

  const NO_FIREWALL := FirewallConfig([], [], [])

  function Normalize(net: Net, family: Family, items: seq<string>): seq<string> {
    if family == Ip then net.normalizeV4(items) else net.normalizeV6(items)
  }

  /** Ports from `low` up, in range, sorted and without duplicates. */
  function PortsFrom(ports: seq<int>, low: int): (out: seq<int>)
    requires 1 <= low <= 65536
    ensures forall i :: 0 <= i < |out| ==> low <= out[i]
    ensures forall p :: p in out <==> p in ports && low <= p <= 65535
    ensures forall i, j :: 0 <= i < j < |out| ==> out[i] < out[j]
    decreases 65536 - low
  {
    if low == 65536 then []
    else
      var above := PortsFrom(ports, low + 1);
      if low in ports then [low] + above else above
  }

  function NormalizedPorts(ports: seq<int>): (out: seq<int>)
    ensures forall p :: p in out <==> p in ports && 1 <= p <= 65535
  {
    PortsFrom(ports, 1)
  }

  /** The texts rendered into a static set. */
  function StaticItems(net: Net, c: FirewallConfig, id: SetId): seq<Element> {
    match id.name
    case TorrentBlocker => []
    case IngressFilter => PrefixElements(Normalize(net, id.family, c.ingressIPs))
    case EgressFilter => PrefixElements(Normalize(net, id.family, c.egressIPs))
    case EgressPorts =>
      var ports := NormalizedPorts(c.egressPorts);
      seq(|ports|, i requires 0 <= i < |ports| => Port(ports[i]))
  }

  function PrefixElements(texts: seq<string>): seq<Element> {
    seq(|texts|, i requires 0 <= i < |texts| => Prefix(texts[i]))
  }

  // ---------- Rendering ----------

  const INGRESS4 := SetId(Ip, IngressFilter)
  const INGRESS6 := SetId(Ip6, IngressFilter)
  const EGRESS4 := SetId(Ip, EgressFilter)
  const EGRESS6 := SetId(Ip6, EgressFilter)
  const PORTS4 := SetId(Ip, EgressPorts)
  const PORTS6 := SetId(Ip6, EgressPorts)
  const TORRENT4 := SetId(Ip, TorrentBlocker)
  const TORRENT6 := SetId(Ip6, TorrentBlocker)

  const STATIC_IDS: seq<SetId> := [INGRESS4, INGRESS6, EGRESS4, EGRESS6, PORTS4, PORTS6]

  predicate IsStatic(id: SetId) {
    !id.name.TorrentBlocker?
  }

  lemma {:induction false} EveryId(id: SetId)
    ensures id == INGRESS4 || id == INGRESS6 || id == EGRESS4 || id == EGRESS6
         || id == PORTS4 || id == PORTS6 || id == TORRENT4 || id == TORRENT6
  {
    match id.family {
      case Ip =>
        match id.name { case TorrentBlocker => case IngressFilter => case EgressFilter => case EgressPorts => }
      case Ip6 =>
        match id.name { case TorrentBlocker => case IngressFilter => case EgressFilter => case EgressPorts => }
    }
  }

  lemma {:induction false} StaticIds()
    ensures forall id :: id in STATIC_IDS <==> IsStatic(id)
  {
    assert STATIC_IDS[0] == INGRESS4 && STATIC_IDS[1] == INGRESS6 && STATIC_IDS[2] == EGRESS4
        && STATIC_IDS[3] == EGRESS6 && STATIC_IDS[4] == PORTS4 && STATIC_IDS[5] == PORTS6;
    forall id | IsStatic(id) ensures id in STATIC_IDS {
      EveryId(id);
    }
  }

  function Flushes(ids: seq<SetId>): Script {
    if ids == [] then [] else [FlushSet(ids[0])] + Flushes(ids[1..])
  }

  /** The item lists of the six static sets. */
  function StaticLists(net: Net, c: FirewallConfig): (lists: map<SetId, seq<Element>>)
    ensures forall id :: id in STATIC_IDS <==> id in lists
  {
    map id | id in STATIC_IDS :: StaticItems(net, c, id)
  }

  /** An empty list renders no command at all. */
  function Fills(lists: map<SetId, seq<Element>>, ids: seq<SetId>): Script
    requires forall id :: id in ids ==> id in lists
  {
    if ids == [] then []
    else
      var items := lists[ids[0]];
      (if items == [] then [] else [AddElements(ids[0], items)]) + Fills(lists, ids[1..])
  }

  function RenderStaticUpdate(net: Net, c: FirewallConfig): Script {
    Flushes(STATIC_IDS) + Fills(StaticLists(net, c), STATIC_IDS)
  }

  const DELETE_TABLES: Script := [AddTable(Ip), AddTable(Ip6), DeleteTable(Ip), DeleteTable(Ip6)]

  function RenderConfig(net: Net, c: FirewallConfig, options: Options): Script {
    DELETE_TABLES + [DefineTable(Ip, options), DefineTable(Ip6, options)] + Fills(StaticLists(net, c), STATIC_IDS)
  }

  const STRUCTURE_PROBES: seq<Script> := [[ListTable(Ip)], [ListTable(Ip6)]]

  // ---------- What the static scripts do to the kernel ----------

  function Filled(lists: map<SetId, seq<Element>>, ids: seq<SetId>): map<SetId, Elements>
    requires forall id :: id in ids ==> id in lists
  {
    map id | id in ids :: Permanent(lists[id])
  }

  /** The contents of the static sets under a configuration. */
  function StaticSets(net: Net, c: FirewallConfig): map<SetId, Elements> {
    Filled(StaticLists(net, c), STATIC_IDS)
  }

  /** Both tables carry their static sets. */
  ghost predicate HasStaticSets(k: Kernel) {
    forall id :: id in STATIC_IDS ==> id in k.sets
  }

  function Emptied(ids: seq<SetId>): map<SetId, Elements> {
    map id | id in ids :: map[]
  }

  lemma {:induction false} EmptiedCons(sets: map<SetId, Elements>, ids: seq<SetId>)
    requires ids != []
    ensures sets[ids[0] := map[]] + Emptied(ids[1..]) == sets + Emptied(ids)
  {
    assert forall id :: id in ids <==> id == ids[0] || id in ids[1..];
  }

  lemma {:induction false} EmptiedThenFilled(sets: map<SetId, Elements>, lists: map<SetId, seq<Element>>, ids: seq<SetId>)
    requires forall id :: id in ids ==> id in lists
    ensures sets + Emptied(ids) + Filled(lists, ids) == sets + Filled(lists, ids)
  {
  }

  lemma {:induction false} RunFlushes(k: Kernel, ids: seq<SetId>)
    ensures Run(k, Flushes(ids)).Some? <==> forall id :: id in ids ==> id in k.sets
    ensures Run(k, Flushes(ids)).Some? ==> Run(k, Flushes(ids)).value == k.(sets := k.sets + Emptied(ids))
    decreases |ids|
  {
    if ids == [] {
      assert k.sets + Emptied(ids) == k.sets;
    } else {
      var script := Flushes(ids);
      assert script[1..] == Flushes(ids[1..]);
      assert forall id :: id in ids <==> id == ids[0] || id in ids[1..];
      if ids[0] in k.sets {
        var k1 := Exec(k, script[0]).value;
        RunFlushes(k1, ids[1..]);
        EmptiedCons(k.sets, ids);
      }
    }
  }

  lemma {:induction false} RunFill(k: Kernel, id: SetId, items: seq<Element>)
    requires id in k.sets && k.sets[id] == map[]
    ensures Run(k, if items == [] then [] else [AddElements(id, items)])
         == Some(k.(sets := k.sets[id := Permanent(items)]))
  {
    if items == [] {
      assert Permanent(items) == map[];
      assert k.sets[id := Permanent(items)] == k.sets;
    } else {
      assert map[] + Permanent(items) == Permanent(items);
      assert [AddElements(id, items)][1..] == [];
    }
  }

  ghost predicate Distinct(ids: seq<SetId>) {
    forall i, j :: 0 <= i < j < |ids| ==> ids[i] != ids[j]
  }

  /** Filling empty sets, each at most once, gives every one exactly its items. */
  lemma {:induction false} RunFills(k: Kernel, lists: map<SetId, seq<Element>>, ids: seq<SetId>)
    requires forall id :: id in ids ==> id in k.sets && id in lists && k.sets[id] == map[]
    requires Distinct(ids)
    ensures Run(k, Fills(lists, ids)) == Some(k.(sets := k.sets + Filled(lists, ids)))
    decreases |ids|
  {
    if ids == [] {
      assert k.sets + Filled(lists, ids) == k.sets;
    } else {
      var k1 := k.(sets := k.sets[ids[0] := Permanent(lists[ids[0]])]);
      RunFill(k, ids[0], lists[ids[0]]);
      RunConcat(k, if lists[ids[0]] == [] then [] else [AddElements(ids[0], lists[ids[0]])], Fills(lists, ids[1..]));
      assert forall id :: id in ids[1..] ==> id in ids && id != ids[0];
      RunFills(k1, lists, ids[1..]);
      FilledCons(k.sets, lists, ids);
    }
  }

  lemma {:induction false} FilledCons(sets: map<SetId, Elements>, lists: map<SetId, seq<Element>>, ids: seq<SetId>)
    requires ids != [] && forall id :: id in ids ==> id in lists
    ensures sets[ids[0] := Permanent(lists[ids[0]])] + Filled(lists, ids[1..]) == sets + Filled(lists, ids)
  {
    assert forall id :: id in ids <==> id == ids[0] || id in ids[1..];
  }

  /** Flush, then fill. */
  lemma {:induction false} RunReplace(k: Kernel, lists: map<SetId, seq<Element>>, ids: seq<SetId>)
    requires forall id :: id in ids ==> id in lists
    requires Distinct(ids)
    ensures Run(k, Flushes(ids) + Fills(lists, ids)).Some? <==> forall id :: id in ids ==> id in k.sets
    ensures (forall id :: id in ids ==> id in k.sets) ==>
      Run(k, Flushes(ids) + Fills(lists, ids)) == Some(k.(sets := k.sets + Filled(lists, ids)))
  {
    RunFlushes(k, ids);
    RunConcat(k, Flushes(ids), Fills(lists, ids));
    if forall id :: id in ids ==> id in k.sets {
      var k1 := Run(k, Flushes(ids)).value;
      RunFills(k1, lists, ids);
      EmptiedThenFilled(k.sets, lists, ids);
    }
  }

  /**
  A static update succeeds exactly on tables that carry the static sets, and then it leaves those
  sets holding the normalised configuration and everything else, the timed torrent blocks
  above all, as it was.
   */
  lemma {:induction false} StaticUpdateExact(k: Kernel, net: Net, c: FirewallConfig)
    ensures Run(k, RenderStaticUpdate(net, c)).Some? <==> HasStaticSets(k)
    ensures HasStaticSets(k) ==>
      Run(k, RenderStaticUpdate(net, c)) == Some(Kernel(k.tables, k.sets + StaticSets(net, c)))
  {
    RunReplace(k, StaticLists(net, c), STATIC_IDS);
  }

  /** Freshly created tables under a configuration. */
  function FreshTables(net: Net, c: FirewallConfig, options: Options): Kernel {
    Kernel(map[Ip := [options], Ip6 := [options]],
           map[TORRENT4 := map[], TORRENT6 := map[]] + StaticSets(net, c))
  }

  /** Every set belongs to one of the two owned tables. */
  ghost predicate SetsInTables(k: Kernel) {
    forall id :: id in k.sets ==> id.family in k.tables
  }

  /** Deleting the tables never fails and leaves nothing, because each is added first. */
  lemma {:induction false} DeleteTablesExact(k: Kernel)
    requires SetsInTables(k)
    ensures Run(k, DELETE_TABLES) == Some(Kernel(map[], map[]))
  {
    var k1 := Exec(k, AddTable(Ip)).value;
    var k2 := Exec(k1, AddTable(Ip6)).value;
    var k3 := Exec(k2, DeleteTable(Ip)).value;
    var k4 := Exec(k3, DeleteTable(Ip6)).value;
    assert k4.tables == map[] && k4.sets == map[] by {
      forall f ensures f !in k4.tables { assert f == Ip || f == Ip6; }
      forall id ensures id !in k4.sets { assert id.family == Ip || id.family == Ip6; }
    }
    RunFour(k, k1, k2, k3, k4);
  }

  lemma {:induction false} RunFour(k: Kernel, k1: Kernel, k2: Kernel, k3: Kernel, k4: Kernel)
    requires Exec(k, DELETE_TABLES[0]) == Some(k1) && Exec(k1, DELETE_TABLES[1]) == Some(k2)
    requires Exec(k2, DELETE_TABLES[2]) == Some(k3) && Exec(k3, DELETE_TABLES[3]) == Some(k4)
    ensures Run(k, DELETE_TABLES) == Some(k4)
  {
    assert Run(k4, DELETE_TABLES[4..]) == Some(k4);
    assert DELETE_TABLES[3..][1..] == DELETE_TABLES[4..];
    assert Run(k3, DELETE_TABLES[3..]) == Some(k4);
    assert DELETE_TABLES[2..][1..] == DELETE_TABLES[3..];
    assert Run(k2, DELETE_TABLES[2..]) == Some(k4);
    assert DELETE_TABLES[1..][1..] == DELETE_TABLES[2..];
    assert Run(k1, DELETE_TABLES[1..]) == Some(k4);
  }

  /** The full script ends in the same state whatever was there before, tables or none. */
  lemma {:induction false} FullConfigCanonical(k: Kernel, net: Net, c: FirewallConfig, options: Options)
    requires SetsInTables(k)
    ensures Run(k, RenderConfig(net, c, options)) == Some(FreshTables(net, c, options))
  {
    RunHead(k, options);
    StaticIds();
    StaticDomain(net, c);
    FillAll(k, DELETE_TABLES + [DefineTable(Ip, options), DefineTable(Ip6, options)], options, StaticLists(net, c), STATIC_IDS);
  }

  lemma {:induction false} StaticDomain(net: Net, c: FirewallConfig)
    ensures Distinct(STATIC_IDS) && forall id :: id in STATIC_IDS ==> id in StaticLists(net, c)
  {
  }

  lemma {:induction false} FillAll(k: Kernel, head: Script, options: Options, lists: map<SetId, seq<Element>>, ids: seq<SetId>)
    requires Run(k, head) == Some(Kernel(map[Ip := [options], Ip6 := [options]], SetsOf(Ip) + SetsOf(Ip6)))
    requires Distinct(ids) && (forall id :: id in ids <==> IsStatic(id)) && forall id :: id in ids ==> id in lists
    ensures Run(k, head + Fills(lists, ids))
         == Some(Kernel(map[Ip := [options], Ip6 := [options]], map[TORRENT4 := map[], TORRENT6 := map[]] + Filled(lists, ids)))
  {
    DefinedSets();
    FillAfter(k, head, Kernel(map[Ip := [options], Ip6 := [options]], SetsOf(Ip) + SetsOf(Ip6)), lists, ids);
    FreshSets(Filled(lists, ids));
  }

  lemma {:induction false} FillAfter(k: Kernel, head: Script, both: Kernel, lists: map<SetId, seq<Element>>, ids: seq<SetId>)
    requires Run(k, head) == Some(both) && Distinct(ids)
    requires forall id :: id in ids ==> id in both.sets && id in lists && both.sets[id] == map[]
    ensures Run(k, head + Fills(lists, ids)) == Some(both.(sets := both.sets + Filled(lists, ids)))
  {
    RunConcat(k, head, Fills(lists, ids));
    RunFills(both, lists, ids);
  }

  lemma {:induction false} RunHead(k: Kernel, options: Options)
    requires SetsInTables(k)
    ensures Run(k, DELETE_TABLES + [DefineTable(Ip, options), DefineTable(Ip6, options)])
         == Some(Kernel(map[Ip := [options], Ip6 := [options]], SetsOf(Ip) + SetsOf(Ip6)))
  {
    DeleteTablesExact(k);
    RunDefine(options);
    RunConcat(k, DELETE_TABLES, [DefineTable(Ip, options), DefineTable(Ip6, options)]);
  }

  lemma {:induction false} RunDefine(options: Options)
    ensures Run(Kernel(map[], map[]), [DefineTable(Ip, options), DefineTable(Ip6, options)])
         == Some(Kernel(map[Ip := [options], Ip6 := [options]], SetsOf(Ip) + SetsOf(Ip6)))
  {
    var define := [DefineTable(Ip, options), DefineTable(Ip6, options)];
    var one := Kernel(map[Ip := [options]], SetsOf(Ip));
    assert [] + [options] == [options];
    assert SetsOf(Ip) + map[] == SetsOf(Ip);
    assert SetsOf(Ip6) + SetsOf(Ip) == SetsOf(Ip) + SetsOf(Ip6);
    assert Exec(Kernel(map[], map[]), define[0]) == Some(one);
    assert define[1..][1..] == [];
    assert Run(one, define[1..]) == Exec(one, define[1]);
  }

  lemma {:induction false} DefinedSets()
    ensures forall id :: id in SetsOf(Ip) + SetsOf(Ip6) && (SetsOf(Ip) + SetsOf(Ip6))[id] == map[]
  {
    forall id ensures id in SetsOf(Ip) + SetsOf(Ip6) {
      EveryId(id);
    }
  }

  lemma {:induction false} FreshSets(contents: map<SetId, Elements>)
    requires forall id :: id in contents <==> IsStatic(id)
    ensures SetsOf(Ip) + SetsOf(Ip6) + contents == map[TORRENT4 := map[], TORRENT6 := map[]] + contents
  {
    DefinedSets();
    forall id: SetId | !IsStatic(id) ensures id == TORRENT4 || id == TORRENT6 {
      EveryId(id);
    }
  }

  lemma {:induction false} RunKeepsSetsInTables(k: Kernel, script: Script)
    requires SetsInTables(k) && Run(k, script).Some?
    ensures SetsInTables(Run(k, script).value)
    decreases |script|
  {
    if script != [] {
      RunKeepsSetsInTables(Exec(k, script[0]).value, script[1..]);
    }
  }

  // ---------- Blocking and unblocking ----------

  const MAX_BLOCK_BATCH: nat := 1_024
  const MAX_UNBLOCK_BATCH: nat := 128
  const MAX_STRING_BYTES: nat := 512

  datatype BlockIP = BlockIP(ip: string, timeout: real)

  /** Later entries for the same address replace earlier ones. */
  function BlockedElements(net: Net, items: seq<BlockIP>, v4: bool): Elements
    decreases |items|
  {
    if items == [] then map[]
    else
      var last := items[|items| - 1];
      var rest := BlockedElements(net, items[..|items| - 1], v4);
      var addr := net.parseAddr(last.ip);
      if addr.Some? && addr.value.isV4 == v4 then rest[Prefix(net.hostPrefix(addr.value.text)) := last.timeout] else rest
  }

  predicate AllParse(net: Net, items: seq<BlockIP>) {
    forall i :: 0 <= i < |items| ==> net.parseAddr(items[i].ip).Some?
  }

  function TimedAdds(id: SetId, timed: Elements): Script {
    if timed == map[] then [] else [AddTimed(id, timed)]
  }

  /** A batch the service takes: bounded in number and in text, with timeouts that are not negative. */
  predicate ValidBlocks(items: seq<BlockIP>) {
    |items| <= MAX_BLOCK_BATCH && forall i :: 0 <= i < |items| ==> |items[i].ip| <= MAX_STRING_BYTES && items[i].timeout >= 0.0
  }

  function BlockScript(net: Net, items: seq<BlockIP>): Script {
    TimedAdds(TORRENT4, BlockedElements(net, items, true)) + TimedAdds(TORRENT6, BlockedElements(net, items, false))
  }

  method RenderBlock(net: Net, items: seq<BlockIP>) returns (script: Option<Script>)
    ensures script.Some? <==>
      ValidBlocks(items) && AllParse(net, items) && net.textBytes(BlockScript(net, items)) <= MAX_SCRIPT_BYTES
    ensures script.Some? ==> script.value == BlockScript(net, items)
  {
    if !ValidBlocks(items) {
      return None;
    }
    var v4: Elements := map[];
    var v6: Elements := map[];
    for i := 0 to |items|
      invariant AllParse(net, items[..i])
      invariant v4 == BlockedElements(net, items[..i], true)
      invariant v6 == BlockedElements(net, items[..i], false)
    {
      assert items[..i + 1][..i] == items[..i];
      var addr := net.parseAddr(items[i].ip);
      if addr.None? {
        return None;
      }
      if addr.value.isV4 {
        v4 := v4[Prefix(net.hostPrefix(addr.value.text)) := items[i].timeout];
      } else {
        v6 := v6[Prefix(net.hostPrefix(addr.value.text)) := items[i].timeout];
      }
    }
    assert items[..|items|] == items;
    var commands := TimedAdds(TORRENT4, v4) + TimedAdds(TORRENT6, v6);
    script := if net.textBytes(commands) > MAX_SCRIPT_BYTES then None else Some(commands);
  }

  /** The sets with these elements added to one of them. */
  function WithTimed(sets: map<SetId, Elements>, id: SetId, timed: Elements): map<SetId, Elements> {
    if timed == map[] || id !in sets then sets else sets[id := sets[id] + timed]
  }

  /** A block script runs exactly where the sets it needs are, adds its addresses to them and touches nothing else. */
  lemma {:induction false} BlockExact(k: Kernel, v4: Elements, v6: Elements)
    ensures var r := Run(k, TimedAdds(TORRENT4, v4) + TimedAdds(TORRENT6, v6));
      && (r.Some? <==> (v4 != map[] ==> TORRENT4 in k.sets) && (v6 != map[] ==> TORRENT6 in k.sets))
      && (r.Some? ==> r.value == k.(sets := WithTimed(WithTimed(k.sets, TORRENT4, v4), TORRENT6, v6)))
  {
    RunConcat(k, TimedAdds(TORRENT4, v4), TimedAdds(TORRENT6, v6));
    RunTimed(k, TORRENT4, v4);
    RunTimed(k.(sets := WithTimed(k.sets, TORRENT4, v4)), TORRENT6, v6);
  }

  lemma {:induction false} RunTimed(k: Kernel, id: SetId, timed: Elements)
    ensures Run(k, TimedAdds(id, timed))
         == if timed != map[] && id !in k.sets then None else Some(k.(sets := WithTimed(k.sets, id, timed)))
  {
    if timed != map[] {
      assert TimedAdds(id, timed)[1..] == [];
    }
  }

  /** The addresses named by an unblock request, as kernel elements. */
  function NamedElements(net: Net, ips: seq<string>): set<Element> {
    set i | 0 <= i < |ips| && net.parseAddr(ips[i]).Some? :: Prefix(net.hostPrefix(net.parseAddr(ips[i]).value.text))
  }

  /** An unblock command deletes one named address from a torrent set or an ingress set. */
  predicate IsUnblock(net: Net, ips: seq<string>, c: Command) {
    && c.DeleteElement?
    && (c.id.name.TorrentBlocker? || c.id.name.IngressFilter?)
    && c.element in NamedElements(net, ips)
  }

  function DeleteFrom(id: SetId, addresses: seq<string>, net: Net): seq<Command> {
    if addresses == [] then []
    else [DeleteElement(id, Prefix(net.hostPrefix(addresses[0])))] + DeleteFrom(id, addresses[1..], net)
  }

  // ---------- Sorted text ----------

  predicate TextLess(a: string, b: string) {
    b != "" && (a == "" || a[0] < b[0] || (a[0] == b[0] && TextLess(a[1..], b[1..])))
  }

  lemma {:induction false} TextOrder(a: string, b: string, c: string)
    ensures !TextLess(a, a) && (a == b || TextLess(a, b) || TextLess(b, a))
    ensures TextLess(a, b) && TextLess(b, c) ==> TextLess(a, c)
    decreases |a| + |b| + |c|
  {
    if a != "" && b != "" && c != "" {
      TextOrder(a[1..], b[1..], c[1..]);
      assert a == [a[0]] + a[1..] && b == [b[0]] + b[1..];
    } else if a != "" && b != "" {
      TextOrder(a[1..], b[1..], c);
      assert a == [a[0]] + a[1..] && b == [b[0]] + b[1..];
    } else if a != "" {
      TextOrder(a[1..], b, c);
    }
  }

  predicate TextSorted(texts: seq<string>) {
    forall i, j :: 0 <= i < j < |texts| ==> TextLess(texts[i], texts[j])
  }

  lemma {:induction false} SortedHeads(a: seq<string>, b: seq<string>)
    requires a != [] && b != [] && TextSorted(a) && TextSorted(b) && a[0] in b && b[0] in a
    ensures a[0] == b[0]
  {
    var j :| 0 <= j < |b| && b[j] == a[0];
    var k :| 0 <= k < |a| && a[k] == b[0];
    TextOrder(a[0], b[0], a[0]);
  }

  lemma {:induction false} SortedTail(a: seq<string>)
    requires a != [] && TextSorted(a)
    ensures TextSorted(a[1..]) && forall t :: t in a[1..] <==> t in a && t != a[0]
  {
    forall i | 0 < i < |a| ensures a[i] != a[0] {
      TextOrder(a[0], a[0], a[0]);
    }
  }

  /** Texts in order are determined by what they are. */
  lemma {:induction false} SortedUnique(a: seq<string>, b: seq<string>)
    requires TextSorted(a) && TextSorted(b) && forall t :: t in a <==> t in b
    ensures a == b
  {
    assert (a != [] ==> a[0] in a) && (b != [] ==> b[0] in b);
    if a != [] && b != [] {
      SortedHeads(a, b);
      SortedTail(a);
      SortedTail(b);
      SortedUnique(a[1..], b[1..]);
      assert a == [a[0]] + a[1..] && b == [b[0]] + b[1..];
    }
  }

  /** Puts the text in its place, once. */
  method InsertText(texts: seq<string>, text: string) returns (out: seq<string>)
    requires TextSorted(texts)
    ensures TextSorted(out) && forall t :: t in out <==> t in texts || t == text
  {
    var i := 0;
    while i < |texts| && TextLess(texts[i], text)
      invariant 0 <= i <= |texts| && forall j :: 0 <= j < i ==> TextLess(texts[j], text)
    {
      i := i + 1;
    }
    if i < |texts| && texts[i] == text {
      return texts;
    }
    forall j | i <= j < |texts| ensures TextLess(text, texts[j]) {
      TextOrder(text, texts[i], texts[j]);
    }
    out := texts[..i] + [text] + texts[i..];
    assert texts == texts[..i] + texts[i..];
  }

  function UnblockScript(net: Net, v4: seq<string>, v6: seq<string>): seq<Command> {
    DeleteFrom(TORRENT4, v4, net) + DeleteFrom(INGRESS4, v4, net) + DeleteFrom(TORRENT6, v6, net) + DeleteFrom(INGRESS6, v6, net)
  }

  predicate ValidUnblocks(ips: seq<string>) {
    |ips| <= MAX_UNBLOCK_BATCH && forall i :: 0 <= i < |ips| ==> |ips[i]| <= MAX_STRING_BYTES
  }

  /** The texts of the parsed addresses of a family. */
  ghost predicate TextsOf(net: Net, ips: seq<string>, isV4: bool, texts: seq<string>) {
    forall a :: a in texts <==> Names(net, ips, isV4, a)
  }

  ghost predicate Names(net: Net, ips: seq<string>, isV4: bool, text: string) {
    exists i :: 0 <= i < |ips| && net.parseAddr(ips[i]) == Some(Address(isV4, text))
  }

  /**
  One command per address and set: torrent before ingress, IPv4 before IPv6, the addresses of each
  sorted and each once.  None when the batch, an address or a command is not acceptable.
   */
  method RenderUnblock(net: Net, ips: seq<string>) returns (commands: Option<seq<Command>>, ghost v4: seq<string>, ghost v6: seq<string>)
    ensures TextSorted(v4) && TextSorted(v6)
    ensures ValidUnblocks(ips) && AllParseText(net, ips) ==> TextsOf(net, ips, true, v4) && TextsOf(net, ips, false, v6)
    ensures commands.Some? <==>
      && ValidUnblocks(ips) && AllParseText(net, ips)
      && forall c :: c in UnblockScript(net, v4, v6) ==> net.textBytes([c]) <= MAX_SCRIPT_BYTES
    ensures commands.Some? ==> commands.value == UnblockScript(net, v4, v6)
  {
    var w4: seq<string>, w6: seq<string> := [], [];
    v4, v6 := w4, w6;
    if !ValidUnblocks(ips) {
      return None, v4, v6;
    }
    for i := 0 to |ips|
      invariant AllParseText(net, ips[..i]) && TextSorted(w4) && TextSorted(w6)
      invariant TextsOf(net, ips[..i], true, w4) && TextsOf(net, ips[..i], false, w6)
    {
      assert ips[..i + 1] == ips[..i] + [ips[i]];
      var addr := net.parseAddr(ips[i]);
      if addr.None? {
        return None, v4, v6;
      }
      TextsNext(net, ips, i, true, w4);
      TextsNext(net, ips, i, false, w6);
      if addr.value.isV4 {
        w4 := InsertText(w4, addr.value.text);
      } else {
        w6 := InsertText(w6, addr.value.text);
      }
    }
    assert ips[..|ips|] == ips;
    v4, v6 := w4, w6;
    var all := UnblockScript(net, w4, w6);
    var fit := EachFits(net, all);
    commands := if fit then Some(all) else None;
  }

  method EachFits(net: Net, commands: seq<Command>) returns (ok: bool)
    ensures ok <==> forall c :: c in commands ==> net.textBytes([c]) <= MAX_SCRIPT_BYTES
  {
    for i := 0 to |commands|
      invariant forall c :: c in commands[..i] ==> net.textBytes([c]) <= MAX_SCRIPT_BYTES
    {
      if net.textBytes([commands[i]]) > MAX_SCRIPT_BYTES {
        return false;
      }
      assert commands[..i + 1] == commands[..i] + [commands[i]];
    }
    assert commands[..|commands|] == commands;
    ok := true;
  }

  predicate AllParseText(net: Net, ips: seq<string>) {
    forall i :: 0 <= i < |ips| ==> net.parseAddr(ips[i]).Some?
  }

  lemma {:induction false} TextsNext(net: Net, ips: seq<string>, i: nat, isV4: bool, texts: seq<string>)
    requires i < |ips| && net.parseAddr(ips[i]).Some? && TextsOf(net, ips[..i], isV4, texts)
    ensures var addr := net.parseAddr(ips[i]).value;
      forall a :: (a in texts || (addr.isV4 == isV4 && a == addr.text)) <==> Names(net, ips[..i + 1], isV4, a)
  {
    var addr, now, before := net.parseAddr(ips[i]).value, ips[..i + 1], ips[..i];
    assert now[i] == ips[i] && forall j :: 0 <= j < i ==> now[j] == before[j];
    forall a ensures (a in texts || (addr.isV4 == isV4 && a == addr.text)) <==> Names(net, now, isV4, a) {
      if a in texts {
        var j :| 0 <= j < |before| && net.parseAddr(before[j]) == Some(Address(isV4, a));
        assert net.parseAddr(now[j]) == Some(Address(isV4, a));
      }
      if addr.isV4 == isV4 && a == addr.text {
        assert net.parseAddr(now[i]) == Some(Address(isV4, a));
      }
    }
  }

  /** The script deletes exactly the named addresses, each from the torrent and the ingress set of its family. */
  lemma {:induction false} UnblockNames(net: Net, ips: seq<string>, v4: seq<string>, v6: seq<string>)
    requires TextsOf(net, ips, true, v4) && TextsOf(net, ips, false, v6)
    ensures forall c :: c in UnblockScript(net, v4, v6) ==> IsUnblock(net, ips, c)
    ensures forall i :: 0 <= i < |ips| && net.parseAddr(ips[i]).Some? ==>
      var addr := net.parseAddr(ips[i]).value;
      var family := if addr.isV4 then Ip else Ip6;
      && DeleteElement(SetId(family, TorrentBlocker), Prefix(net.hostPrefix(addr.text))) in UnblockScript(net, v4, v6)
      && DeleteElement(SetId(family, IngressFilter), Prefix(net.hostPrefix(addr.text))) in UnblockScript(net, v4, v6)
  {
    DeletesCover(TORRENT4, v4, net);
    DeletesCover(INGRESS4, v4, net);
    DeletesCover(TORRENT6, v6, net);
    DeletesCover(INGRESS6, v6, net);
    forall i | 0 <= i < |ips| && net.parseAddr(ips[i]).Some?
      ensures var addr := net.parseAddr(ips[i]).value; if addr.isV4 then addr.text in v4 else addr.text in v6
    {
      var addr := net.parseAddr(ips[i]).value;
      assert net.parseAddr(ips[i]) == Some(Address(addr.isV4, addr.text));
      assert Names(net, ips, addr.isV4, addr.text);
    }
    forall c | c in UnblockScript(net, v4, v6) ensures IsUnblock(net, ips, c) {
      assert c in DeleteFrom(TORRENT4, v4, net) || c in DeleteFrom(INGRESS4, v4, net)
          || c in DeleteFrom(TORRENT6, v6, net) || c in DeleteFrom(INGRESS6, v6, net);
    }
  }

  lemma {:induction false} DeletesCover(id: SetId, addresses: seq<string>, net: Net)
    ensures forall c :: c in DeleteFrom(id, addresses, net) <==>
      exists a :: a in addresses && c == DeleteElement(id, Prefix(net.hostPrefix(a)))
  {
    if addresses != [] {
      DeletesCover(id, addresses[1..], net);
      assert forall a :: a in addresses <==> a == addresses[0] || a in addresses[1..];
    }
  }

  // ---------- Script size ----------

  const MAX_SCRIPT_BYTES: nat := 0x20_0000

  function FamilyText(f: Family): string {
    if f == Ip then "ip" else "ip6"
  }

  function TableText(f: Family): string {
    if f == Ip then "remnanode" else "remnanode6"
  }

  function SetText(id: SetId): string {
    (match id.name
     case TorrentBlocker => "torrent-blocker"
     case IngressFilter => "ingress-filter-ip"
     case EgressFilter => "egress-filter-ip"
     case EgressPorts => "egress-filter-port") + (if id.family == Ip then "" else "6")
  }

  /** Bytes of a table block; the blank line after the first one is counted with it. */
  function TableBlockBytes(f: Family, options: Options): nat {
    (if f == Ip then 760 else 777) + (if options.acceptReplyTraffic then 56 else 0)
    + (if options.logging then (if f == Ip then 128 else 132) else 0)
  }

  function ElementBytes(e: Element): nat {
    match e
    case Prefix(text) => |text|
    case Port(n) => if n < 10 then 1 else if n < 100 then 2 else if n < 1000 then 3 else if n < 10000 then 4 else 5
  }

  function ListBytes(elements: seq<Element>): nat {
    if elements == [] then 0
    else ElementBytes(elements[0]) + (if |elements| > 1 then 2 else 0) + ListBytes(elements[1..])
  }

  function TargetBytes(f: Family): nat {
    |FamilyText(f)| + 1 + |TableText(f)|
  }

  function CommandBytes(c: Command): nat {
    match c
    case AddTable(f) => 10 + TargetBytes(f)
    case DeleteTable(f) => 13 + TargetBytes(f)
    case DefineTable(f, options) => TableBlockBytes(f, options)
    case FlushSet(id) => 10 + TargetBytes(id.family) + 1 + |SetText(id)|
    case AddElements(id, elements) => 12 + TargetBytes(id.family) + 1 + |SetText(id)| + 5 + ListBytes(elements)
    case _ => 0
  }

  /** The rendered text: one command after the other, joined by newlines. */
  function ScriptBytes(script: Script): nat {
    if script == [] then 0
    else CommandBytes(script[0]) + (if |script| > 1 then 1 else 0) + ScriptBytes(script[1..])
  }

  predicate Fits(script: Script) {
    ScriptBytes(script) <= MAX_SCRIPT_BYTES
  }

  lemma {:induction false} BytesConcat(a: Script, b: Script)
    requires a != []
    ensures ScriptBytes(a + b) == ScriptBytes(a) + (if b == [] then 0 else 1) + ScriptBytes(b)
    decreases |a|
  {
    assert (a + b)[0] == a[0] && (a + b)[1..] == a[1..] + b;
    if |a| > 1 {
      BytesConcat(a[1..], b);
    } else {
      assert a[1..] + b == b;
    }
  }

  /** A configuration whose full script fits has a static update that fits. */
  lemma {:induction false} StaticUpdateIsShorter(net: Net, c: FirewallConfig, options: Options)
    ensures ScriptBytes(RenderStaticUpdate(net, c)) <= ScriptBytes(RenderConfig(net, c, options))
  {
    var fills := Fills(StaticLists(net, c), STATIC_IDS);
    var head := DELETE_TABLES + [DefineTable(Ip, options), DefineTable(Ip6, options)];
    BytesConcat(Flushes(STATIC_IDS), fills);
    BytesConcat(head, fills);
    FlushBytes();
    HeadBytes(options);
  }

  lemma {:induction false} FlushBytes()
    ensures ScriptBytes(Flushes(STATIC_IDS)) <= 270
  {
    FlushesBytes(STATIC_IDS);
  }

  /** No flush command is longer than 44 bytes. */
  lemma {:induction false} FlushesBytes(ids: seq<SetId>)
    requires forall id :: id in ids ==> |SetText(id)| <= 19
    ensures ScriptBytes(Flushes(ids)) <= 45 * |ids|
  {
    if ids != [] {
      assert Flushes(ids)[1..] == Flushes(ids[1..]);
      FlushesBytes(ids[1..]);
    }
  }

  lemma {:induction false} HeadBytes(options: Options)
    ensures ScriptBytes(DELETE_TABLES + [DefineTable(Ip, options), DefineTable(Ip6, options)]) >= 1640
  {
    var all := DELETE_TABLES + [DefineTable(Ip, options), DefineTable(Ip6, options)];
    assert ScriptBytes(all[6..]) == 0;
    assert all[5..][1..] == all[6..];
    assert all[4..][1..] == all[5..];
    assert all[3..][1..] == all[4..];
    assert all[2..][1..] == all[3..];
    assert all[1..][1..] == all[2..];
    assert ScriptBytes(all[4..]) >= 760 + 1 + 777;
    assert ScriptBytes(all[2..]) >= 25 + 27 + 2 + 760 + 1 + 777;
  }

  /** Emptying the static sets always fits. */
  lemma {:induction false} EmptyUpdateFits(net: Net)
    requires EmptyStaysEmpty(net)
    ensures Fits(RenderStaticUpdate(net, NO_FIREWALL))
  {
    var lists := StaticLists(net, NO_FIREWALL);
    forall id | id in lists ensures lists[id] == [] {
      if id.name.EgressPorts? {
        NoPorts(1);
      }
    }
    NoFills(lists, STATIC_IDS);
    BytesConcat(Flushes(STATIC_IDS), []);
    FlushBytes();
  }

  lemma {:induction false} NoFills(lists: map<SetId, seq<Element>>, ids: seq<SetId>)
    requires forall id :: id in ids ==> id in lists && lists[id] == []
    ensures Fills(lists, ids) == []
  {
    if ids != [] {
      NoFills(lists, ids[1..]);
    }
  }

  lemma {:induction false} NoPorts(low: int)
    requires 1 <= low <= 65536
    ensures PortsFrom([], low) == []
    decreases 65536 - low
  {
    if low < 65536 {
      NoPorts(low + 1);
    }
  }
}
