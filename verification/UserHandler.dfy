/**
Batches of user changes against the running core: which users are members of which inbound.  The
core may refuse any call, and a refused call may or may not have taken effect; a request can be
cancelled between calls.
 */
module UserHandler {
  import opened Wrappers

  datatype HandlerResult = HandlerResult(ok: bool, message: string)

  datatype GenericResponse = GenericResponse(success: bool, error: Option<string>)

  datatype Kind = Vless | Trojan | Shadowsocks | Shadowsocks22 | Hysteria | Other(name: string)

  datatype Inbound = Inbound(kind: Kind, tag: string)

  datatype BatchUser = BatchUser(id: string, inbounds: seq<Inbound>)

  // ---------- The core ----------

  datatype Call =
    | RemoveCall(tag: string, user: string)
    | AddCall(tag: string, user: string)
    | LookupCall(user: string, ips: seq<string>)
    | DropCall(ips: seq<string>)

  datatype Step = Step(call: Call, result: HandlerResult)

  const DONE := HandlerResult(true, "")
  const LOOKUP_FAILED := "failed to read user IP stats"
  const DROP_FAILED := "failed to drop user connections"

  class Core {
    const tags: seq<string>
    /** Every call succeeds, and the request is not cancelled meanwhile. */
    const willing: bool
    var members: set<(string, string)>
    var steps: seq<Step>

    constructor (tags: seq<string>, willing: bool, members: set<(string, string)>)
      ensures this.tags == tags && this.willing == willing && this.members == members && steps == []
    {
      this.willing := willing;
      this.tags, this.members, this.steps := tags, members, [];
    }

    method RemoveUser(tag: string, user: string) returns (r: HandlerResult)
      modifies this
      ensures steps == old(steps) + [Step(RemoveCall(tag, user), r)]
      ensures members == old(members) - {(tag, user)} || (!r.ok && members == old(members))
      ensures willing ==> r.ok
    {
      r := *;
      r := if willing then DONE else r;
      var done: bool := *;
      if r.ok || done {
        members := members - {(tag, user)};
      }
      steps := steps + [Step(RemoveCall(tag, user), r)];
    }

    method AddUser(tag: string, user: string) returns (r: HandlerResult)
      modifies this
      ensures steps == old(steps) + [Step(AddCall(tag, user), r)]
      ensures members == old(members) + {(tag, user)} || (!r.ok && members == old(members))
      ensures willing ==> r.ok
    {
      r := *;
      r := if willing then DONE else r;
      var done: bool := *;
      if r.ok || done {
        members := members + {(tag, user)};
      }
      steps := steps + [Step(AddCall(tag, user), r)];
    }

    /** The addresses a user was seen from, which may fail to be read. */
    method UserIPs(user: string) returns (ips: seq<string>, r: HandlerResult)
      modifies this`steps
      ensures steps == old(steps) + [Step(LookupCall(user, ips), r)]
      ensures willing ==> r.ok
    {
      ips := *;
      var known: bool := *;
      r := if known || willing then DONE else HandlerResult(false, LOOKUP_FAILED);
      steps := steps + [Step(LookupCall(user, ips), r)];
    }

    method DropIPs(ips: seq<string>) returns (r: HandlerResult)
      modifies this`steps
      ensures steps == old(steps) + [Step(DropCall(ips), r)]
      ensures willing ==> r.ok
    {
      var dropped: bool := *;
      r := if dropped || willing then DONE else HandlerResult(false, DROP_FAILED);
      steps := steps + [Step(DropCall(ips), r)];
    }
  }

  // ---------- Collecting results ----------

  /** One thing that adds a result: a call to the core, nothing to do, or a failure without a call. */
  datatype Event = Did(step: Step) | Skipped | Unsupported(why: string) | Stopped(why: string)

  function ResultOf(e: Event): HandlerResult {
    match e
    case Did(step) => step.result
    case Skipped => HandlerResult(true, [])
    case Unsupported(why) => HandlerResult(false, why)
    case Stopped(why) => HandlerResult(false, why)
  }

  predicate AllWell(trace: seq<Event>) {
    forall i :: 0 <= i < |trace| ==> ResultOf(trace[i]).ok
  }

  function FirstFailure(trace: seq<Event>): Option<string> {
    if trace == [] then None
    else
      var n := |trace| - 1;
      var earlier := FirstFailure(trace[..n]);
      if earlier.Some? || ResultOf(trace[n]).ok then earlier else Some(ResultOf(trace[n]).message)
  }

  function StepsOf(trace: seq<Event>): seq<Step> {
    if trace == [] then []
    else
      var n := |trace| - 1;
      if trace[n].Did? then StepsOf(trace[..n]) + [trace[n].step] else StepsOf(trace[..n])
  }

  lemma {:induction false} TraceNext(trace: seq<Event>, e: Event)
    ensures StepsOf(trace + [e]) == if e.Did? then StepsOf(trace) + [e.step] else StepsOf(trace)
    ensures FirstFailure(trace + [e])
         == if FirstFailure(trace).Some? || ResultOf(e).ok then FirstFailure(trace) else Some(ResultOf(e).message)
    ensures AllWell(trace + [e]) <==> AllWell(trace) && ResultOf(e).ok
  {
    assert (trace + [e])[..|trace|] == trace;
    assert forall i :: 0 <= i < |trace| ==> (trace + [e])[i] == trace[i];
    assert (trace + [e])[|trace|] == e;
  }

  /** The failure reported is that of the first event that is not a success. */
  lemma {:induction false} FirstFailureIsFirst(trace: seq<Event>)
    ensures FirstFailure(trace).None? <==> AllWell(trace)
    ensures FirstFailure(trace).Some? ==>
      exists i :: 0 <= i < |trace| && !ResultOf(trace[i]).ok && AllWell(trace[..i]) && FirstFailure(trace).value == ResultOf(trace[i]).message
    decreases |trace|
  {
    if trace != [] {
      var n := |trace| - 1;
      var before := trace[..n];
      FirstFailureIsFirst(before);
      if FirstFailure(before).Some? {
        var i :| 0 <= i < |before| && !ResultOf(before[i]).ok && AllWell(before[..i]) && FirstFailure(before).value == ResultOf(before[i]).message;
        assert before[..i] == trace[..i] && trace[i] == before[i];
      } else {
        assert forall i :: 0 <= i < n ==> trace[i] == before[i];
      }
    }
  }

  /** An empty message leaves the error out. */
  function ResponseOf(trace: seq<Event>): GenericResponse {
    var failure := FirstFailure(trace);
    if failure.None? then GenericResponse(true, None)
    else GenericResponse(false, if failure.value == "" then None else failure)
  }

  class ResultAccumulator {
    var failed: bool
    var message: string
    ghost var trace: seq<Event>

    ghost predicate Valid()
      reads this
    {
      FirstFailure(trace) == if failed then Some(message) else None
    }

    constructor ()
      ensures Valid() && trace == []
    {
      failed, message, trace := false, "", [];
    }

    method Add(result: HandlerResult, ghost e: Event)
      requires Valid() && ResultOf(e) == result
      modifies this
      ensures Valid() && trace == old(trace) + [e]
    {
      TraceNext(trace, e);
      if !failed && !result.ok {
        failed, message := true, result.message;
      }
      trace := trace + [e];
    }

    method Response() returns (r: GenericResponse)
      requires Valid()
      ensures r == ResponseOf(trace)
    {
      if failed {
        return GenericResponse(false, if message == "" then None else Some(message));
      }
      r := GenericResponse(true, None);
    }
  }

  predicate OneMore(before: seq<Event>, after: seq<Event>) {
    |after| == |before| + 1 && before <= after
  }

  /** A request at work: the calls made since it began are those of its trace. */
  class Session {
    const core: Core
    const results: ResultAccumulator
    ghost const before: seq<Step>

    ghost predicate Valid()
      reads this, core, results
    {
      results.Valid() && core.steps == before + StepsOf(results.trace)
    }

    constructor (core: Core)
      ensures this.core == core && before == core.steps && fresh(results) && results.trace == [] && Valid()
    {
      this.core, this.before := core, core.steps;
      results := new ResultAccumulator();
    }

    /** Whether the request has been cancelled, which counts as a failure. */
    method StopForContext() returns (stop: bool)
      requires Valid()
      modifies results
      ensures Valid()
      ensures !stop ==> results.trace == old(results.trace)
      ensures stop ==> OneMore(old(results.trace), results.trace) && results.trace[|old(results.trace)|].Stopped?
      ensures core.willing ==> !stop
    {
      stop := *;
      stop := stop && !core.willing;
      if stop {
        var why: string := *;
        TraceNext(results.trace, Stopped(why));
        results.Add(HandlerResult(false, why), Stopped(why));
      }
    }

    method Remove(tag: string, id: string) returns (r: HandlerResult)
      requires Valid()
      modifies core, results
      ensures Valid() && results.trace == old(results.trace) + [Did(Step(RemoveCall(tag, id), r))]
      ensures core.members == old(core.members) - {(tag, id)} || (!r.ok && core.members == old(core.members))
      ensures core.willing ==> r.ok
    {
      r := core.RemoveUser(tag, id);
      TraceNext(results.trace, Did(Step(RemoveCall(tag, id), r)));
      results.Add(r, Did(Step(RemoveCall(tag, id), r)));
    }

    /** A user type that the core does not know fails without a call. */
    method Add(inbound: Inbound, id: string) returns (ok: bool)
      requires Valid()
      modifies core, results
      ensures Valid() && OneMore(old(results.trace), results.trace)
      ensures Adds(results.trace[|old(results.trace)|], inbound.tag, id)
      ensures ok == ResultOf(results.trace[|old(results.trace)|]).ok
      ensures core.members == old(core.members) + {(inbound.tag, id)} || (!ok && core.members == old(core.members))
      ensures if inbound.kind.Other? then !ok else core.willing ==> ok
    {
      if inbound.kind.Other? {
        var message := UnsupportedMessage(inbound.kind.name);
        TraceNext(results.trace, Unsupported(message));
        results.Add(HandlerResult(false, message), Unsupported(message));
        return false;
      }
      var r := core.AddUser(inbound.tag, id);
      TraceNext(results.trace, Did(Step(AddCall(inbound.tag, id), r)));
      results.Add(r, Did(Step(AddCall(inbound.tag, id), r)));
      ok := r.ok;
    }

    /** Reads the addresses to drop later, if connections can be dropped at all. */
    method PrepareUserIPDrop(id: string, available: bool) returns (ok: bool, ips: seq<string>)
      requires Valid()
      modifies core`steps, results
      ensures Valid() && OneMore(old(results.trace), results.trace)
      ensures LooksUp(results.trace[|old(results.trace)|], id, ips)
      ensures ok == ResultOf(results.trace[|old(results.trace)|]).ok
      ensures core.willing ==> ok
    {
      ips := [];
      if !available {
        TraceNext(results.trace, Skipped);
        results.Add(HandlerResult(true, []), Skipped);
        return true, ips;
      }
      var seen, r := core.UserIPs(id);
      TraceNext(results.trace, Did(Step(LookupCall(id, seen), r)));
      results.Add(r, Did(Step(LookupCall(id, seen), r)));
      ok := r.ok;
      ips := NonEmpty(seen);
    }

    /** Drops the connections from all these addresses at once, if there are any. */
    method ApplyUserIPDrops(ips: seq<string>)
      requires Valid()
      modifies core`steps, results
      ensures Valid() && OneMore(old(results.trace), results.trace)
      ensures Drops(results.trace[|old(results.trace)|], ips)
      ensures core.willing ==> ResultOf(results.trace[|old(results.trace)|]).ok
    {
      if ips == [] {
        TraceNext(results.trace, Skipped);
        results.Add(HandlerResult(true, []), Skipped);
      } else {
        var r := core.DropIPs(ips);
        TraceNext(results.trace, Did(Step(DropCall(ips), r)));
        results.Add(r, Did(Step(DropCall(ips), r)));
      }
    }
  }

  function UnsupportedMessage(kind: string): string {
    "unsupported user type: " + kind
  }

  function NonEmpty(ips: seq<string>): seq<string> {
    if ips == [] then []
    else
      var n := |ips| - 1;
      NonEmpty(ips[..n]) + if ips[n] == "" then [] else [ips[n]]
  }

  predicate Adds(e: Event, tag: string, id: string) {
    e.Unsupported? || (e.Did? && e.step.call == AddCall(tag, id))
  }

  /** An address list was read for this user, and these are its non-empty addresses; or nothing was read. */
  predicate LooksUp(e: Event, id: string, ips: seq<string>) {
    || (e.Skipped? && ips == [])
    || (e.Did? && e.step.call.LookupCall? && e.step.call.user == id && ips == NonEmpty(e.step.call.ips))
  }

  predicate Drops(e: Event, ips: seq<string>) {
    if ips == [] then e.Skipped? else e.Did? && e.step.call == DropCall(ips)
  }

  // ---------- Tags ----------

  ghost predicate Requested(users: seq<BatchUser>, tag: string) {
    exists i, j :: 0 <= i < |users| && 0 <= j < |users[i].inbounds| && users[i].inbounds[j].tag == tag
  }

  predicate NoRepeats(tags: seq<string>) {
    forall i, j :: 0 <= i < j < |tags| ==> tags[i] != tags[j]
  }

  method AppendTag(tags: seq<string>, tag: string) returns (out: seq<string>)
    requires NoRepeats(tags) && "" !in tags
    ensures NoRepeats(out) && "" !in out && tags <= out
    ensures forall t :: t in out <==> t in tags || (t == tag && t != "")
  {
    if tag == "" || tag in tags {
      return tags;
    }
    out := tags + [tag];
  }

  method AppendTags(tags: seq<string>, more: seq<string>) returns (out: seq<string>)
    requires NoRepeats(tags) && "" !in tags
    ensures NoRepeats(out) && "" !in out && tags <= out
    ensures forall t :: t in out <==> t in tags || (t in more && t != "")
  {
    out := tags;
    for i := 0 to |more|
      invariant NoRepeats(out) && "" !in out && tags <= out
      invariant forall t :: t in out <==> t in tags || (t in more[..i] && t != "")
    {
      out := AppendTag(out, more[i]);
      assert more[..i + 1] == more[..i] + [more[i]];
    }
    assert more[..|more|] == more;
  }

  function TagsOf(inbounds: seq<Inbound>): (tags: seq<string>)
    ensures |tags| == |inbounds|
  {
    seq(|inbounds|, i requires 0 <= i < |inbounds| => inbounds[i].tag)
  }

  /** The provider's, the affected and the requested tags, each once, without the empty one. */
  method BatchMutationTags(provider: seq<string>, affected: seq<string>, users: seq<BatchUser>) returns (tags: seq<string>)
    ensures NoRepeats(tags)
    ensures forall t :: t in tags <==> t != "" && (t in provider || t in affected || Requested(users, t))
  {
    tags := AppendTags([], provider);
    tags := AppendTags(tags, affected);
    for i := 0 to |users|
      invariant NoRepeats(tags) && "" !in tags
      invariant forall t :: t in tags <==> t != "" && (t in provider || t in affected || Requested(users[..i], t))
    {
      ghost var before := tags;
      tags := AppendTags(tags, TagsOf(users[i].inbounds));
      forall t ensures Requested(users[..i + 1], t) <==> Requested(users[..i], t) || t in TagsOf(users[i].inbounds) {
        RequestedNext(users, i, t);
      }
    }
    assert users[..|users|] == users;
  }

  lemma {:induction false} RequestedNext(users: seq<BatchUser>, i: nat, t: string)
    requires i < |users|
    ensures Requested(users[..i + 1], t) <==> Requested(users[..i], t) || t in TagsOf(users[i].inbounds)
  {
    var now, before, last := users[..i + 1], users[..i], users[i].inbounds;
    if Requested(now, t) {
      var a, b :| 0 <= a < |now| && 0 <= b < |now[a].inbounds| && now[a].inbounds[b].tag == t;
      if a < i {
        assert before[a].inbounds[b].tag == t;
      } else {
        assert TagsOf(last)[b] == t;
      }
    }
    if Requested(before, t) {
      var a, b :| 0 <= a < |before| && 0 <= b < |before[a].inbounds| && before[a].inbounds[b].tag == t;
      assert now[a].inbounds[b].tag == t;
    }
    if t in TagsOf(last) {
      var b :| 0 <= b < |last| && TagsOf(last)[b] == t;
      assert now[i].inbounds[b].tag == t;
    }
  }

  // ---------- What a batch does ----------

  function Pairs(tags: seq<string>, id: string): set<(string, string)> {
    set tag | tag in tags :: (tag, id)
  }

  function Replaced(members: set<(string, string)>, tags: seq<string>, user: BatchUser): set<(string, string)> {
    members - Pairs(tags, user.id) + Pairs(TagsOf(user.inbounds), user.id)
  }

  function ReplacedAll(members: set<(string, string)>, tags: seq<string>, users: seq<BatchUser>): set<(string, string)> {
    if users == [] then members
    else
      var n := |users| - 1;
      Replaced(ReplacedAll(members, tags, users[..n]), tags, users[n])
  }

  /** The last entry of the batch for this user. */
  function LastEntry(users: seq<BatchUser>, id: string): Option<BatchUser> {
    if users == [] then None
    else
      var n := |users| - 1;
      if users[n].id == id then Some(users[n]) else LastEntry(users[..n], id)
  }

  /** On the tags of the batch, a user of the batch ends up in exactly the inbounds of its last entry, and nobody else changes. */
  lemma {:induction false} LastEntryWins(members: set<(string, string)>, tags: seq<string>, users: seq<BatchUser>, tag: string, id: string)
    requires tag in tags
    ensures (tag, id) in ReplacedAll(members, tags, users)
       <==> (var last := LastEntry(users, id); if last.Some? then tag in TagsOf(last.value.inbounds) else (tag, id) in members)
    decreases |users|
  {
    if users != [] {
      LastEntryWins(members, tags, users[..|users| - 1], tag, id);
    }
  }

  lemma {:induction false} PairsNext(tags: seq<string>, i: nat, id: string)
    requires i < |tags|
    ensures Pairs(tags[..i + 1], id) == Pairs(tags[..i], id) + {(tags[i], id)}
    ensures Pairs(tags[..i], id) <= Pairs(tags, id)
  {
    assert tags[..i + 1] == tags[..i] + [tags[i]];
  }

  predicate RemovesFrom(e: Event, tag: string, id: string) {
    e.Did? && e.step.call == RemoveCall(tag, id)
  }

  /** From this place on, the trace is one removal for each of the first n tags, in order. */
  predicate Removals(trace: seq<Event>, from: nat, tags: seq<string>, n: nat, id: string) {
    && n <= |tags| && from + n <= |trace|
    && forall j :: from <= j < from + n ==> RemovesFrom(trace[j], tags[j - from], id)
  }

  lemma {:induction false} RemovalsNext(before: seq<Event>, after: seq<Event>, from: nat, tags: seq<string>, id: string)
    requires OneMore(before, after) && from <= |before| < from + |tags| && Removals(before, from, tags, |before| - from, id)
    requires RemovesFrom(after[|before|], tags[|before| - from], id)
    ensures Removals(after, from, tags, |after| - from, id)
  {
    assert forall j :: 0 <= j < |before| ==> after[j] == before[j];
  }

  predicate WellFrom(trace: seq<Event>, from: nat) {
    forall i :: from <= i < |trace| ==> ResultOf(trace[i]).ok
  }

  lemma {:induction false} WellFromNext(before: seq<Event>, after: seq<Event>, from: nat)
    requires OneMore(before, after) && from <= |before|
    ensures WellFrom(after, from) <==> WellFrom(before, from) && ResultOf(after[|before|]).ok
  {
    assert forall i :: 0 <= i < |before| ==> after[i] == before[i];
  }

  /** Takes the user out of every tag, whatever fails on the way. */
  method RemoveFromAll(s: Session, tags: seq<string>, id: string) returns (stopped: bool, clean: bool)
    requires s.Valid()
    modifies s.core, s.results
    ensures s.Valid() && old(s.results.trace) <= s.results.trace
    ensures stopped ==> !WellFrom(s.results.trace, |old(s.results.trace)|)
    ensures s.core.willing ==> !stopped && clean
    ensures forall j :: |old(s.results.trace)| <= j < |s.results.trace| ==> !IsAdd(s.results.trace[j]) && !IsDrop(s.results.trace[j])
    ensures !stopped ==>
      && |s.results.trace| == |old(s.results.trace)| + |tags| && Removals(s.results.trace, |old(s.results.trace)|, tags, |tags|, id)
      && (clean <==> WellFrom(s.results.trace, |old(s.results.trace)|))
      && (clean ==> s.core.members == old(s.core.members) - Pairs(tags, id))
    ensures s.core.members <= old(s.core.members) && old(s.core.members) - Pairs(tags, id) <= s.core.members
  {
    clean, stopped := true, false;
    ghost var from := |s.results.trace|;
    for i := 0 to |tags|
      invariant s.Valid() && old(s.results.trace) <= s.results.trace && |s.results.trace| == from + i
      invariant Removals(s.results.trace, from, tags, i, id)
      invariant (clean <==> WellFrom(s.results.trace, from)) && (s.core.willing ==> clean)
      invariant clean ==> s.core.members == old(s.core.members) - Pairs(tags[..i], id)
      invariant s.core.members <= old(s.core.members) && old(s.core.members) - Pairs(tags[..i], id) <= s.core.members
    {
      PairsNext(tags, i, id);
      ghost var before := s.results.trace;
      var stop := s.StopForContext();
      if stop {
        WellFromNext(before, s.results.trace, from);
        assert forall j :: from <= j < |before| ==> s.results.trace[j] == before[j] && RemovesFrom(before[j], tags[j - from], id);
        return true, false;
      }
      var result := s.Remove(tags[i], id);
      WellFromNext(before, s.results.trace, from);
      RemovalsNext(before, s.results.trace, from, tags, id);
      clean := clean && result.ok;
    }
    assert tags[..|tags|] == tags;
    assert forall j :: from <= j < |s.results.trace| ==> RemovesFrom(s.results.trace[j], tags[j - from], id);
  }

  predicate IsAdd(e: Event) {
    e.Did? && e.step.call.AddCall?
  }

  predicate AddsFor(e: Event, id: string) {
    e.Unsupported? || (IsAdd(e) && e.step.call.user == id)
  }

  /** The core knows the user type of every inbound. */
  predicate Supported(inbounds: seq<Inbound>) {
    forall i :: 0 <= i < |inbounds| ==> !inbounds[i].kind.Other?
  }

  lemma {:induction false} SupportedNext(inbounds: seq<Inbound>, i: nat)
    requires i < |inbounds|
    ensures Supported(inbounds[..i + 1]) <==> Supported(inbounds[..i]) && !inbounds[i].kind.Other?
  {
    assert inbounds[..i + 1] == inbounds[..i] + [inbounds[i]];
  }

  /** Puts the user into its inbounds, whatever fails on the way. */
  method AddToInbounds(s: Session, user: BatchUser) returns (stopped: bool)
    requires s.Valid()
    modifies s.core, s.results
    ensures s.Valid() && old(s.results.trace) <= s.results.trace
    ensures forall j :: |old(s.results.trace)| <= j < |s.results.trace| - (if stopped then 1 else 0) ==> AddsFor(s.results.trace[j], user.id)
    ensures stopped ==> |old(s.results.trace)| < |s.results.trace| && s.results.trace[|s.results.trace| - 1].Stopped?
    ensures WellFrom(s.results.trace, |old(s.results.trace)|) ==>
      !stopped && s.core.members == old(s.core.members) + Pairs(TagsOf(user.inbounds), user.id)
    ensures old(s.core.members) <= s.core.members <= old(s.core.members) + Pairs(TagsOf(user.inbounds), user.id)
    ensures WellFrom(s.results.trace, |old(s.results.trace)|) ==> Supported(user.inbounds)
    ensures s.core.willing ==> !stopped && (Supported(user.inbounds) ==> WellFrom(s.results.trace, |old(s.results.trace)|))
  {
    stopped := false;
    ghost var first := s.results.trace;
    for i := 0 to |user.inbounds|
      invariant s.Valid()
      invariant AddedSoFar(first, s.results.trace, old(s.core.members), s.core.members, user.inbounds[..i], user.id, s.core.willing)
    {
      ghost var before, members := s.results.trace, s.core.members;
      var stop := s.StopForContext();
      if stop {
        WellFromNext(before, s.results.trace, |first|);
        assert forall j :: 0 <= j < |before| ==> s.results.trace[j] == before[j];
        PairsWithin(user.inbounds, i, user.id);
        return true;
      }
      var _ := s.Add(user.inbounds[i], user.id);
      AddedNext(first, before, s.results.trace, old(s.core.members), members, s.core.members, user.inbounds, i, user.id, s.core.willing);
    }
    assert user.inbounds[..|user.inbounds|] == user.inbounds;
  }

  /** The inbounds so far: one event each, and exactly those that went well changed anything. */
  ghost predicate AddedSoFar(first: seq<Event>, now: seq<Event>, was: set<(string, string)>, members: set<(string, string)>,
                             inbounds: seq<Inbound>, id: string, willing: bool) {
    && first <= now && (forall j :: |first| <= j < |now| ==> AddsFor(now[j], id))
    && was <= members <= was + Pairs(TagsOf(inbounds), id)
    && (WellFrom(now, |first|) ==> members == was + Pairs(TagsOf(inbounds), id) && Supported(inbounds))
    && (willing && Supported(inbounds) ==> WellFrom(now, |first|))
  }

  lemma {:induction false} PairsWithin(inbounds: seq<Inbound>, i: nat, id: string)
    requires i < |inbounds|
    ensures Pairs(TagsOf(inbounds[..i]), id) <= Pairs(TagsOf(inbounds), id)
    ensures Pairs(TagsOf(inbounds[..i + 1]), id) == Pairs(TagsOf(inbounds[..i]), id) + {(inbounds[i].tag, id)}
  {
    var tags := TagsOf(inbounds);
    assert TagsOf(inbounds[..i]) == tags[..i] && TagsOf(inbounds[..i + 1]) == tags[..i + 1];
    PairsNext(tags, i, id);
  }

  lemma {:induction false} AddedNext(first: seq<Event>, now: seq<Event>, next: seq<Event>, was: set<(string, string)>,
                                     members: set<(string, string)>, members': set<(string, string)>,
                                     inbounds: seq<Inbound>, i: nat, id: string, willing: bool)
    requires i < |inbounds| && AddedSoFar(first, now, was, members, inbounds[..i], id, willing)
    requires OneMore(now, next) && Adds(next[|now|], inbounds[i].tag, id)
    requires var ok := ResultOf(next[|now|]).ok;
      && (members' == members + {(inbounds[i].tag, id)} || (!ok && members' == members))
      && (if inbounds[i].kind.Other? then !ok else willing ==> ok)
    ensures AddedSoFar(first, next, was, members', inbounds[..i + 1], id, willing)
  {
    assert forall j :: 0 <= j < |now| ==> next[j] == now[j];
    PairsWithin(inbounds, i, id);
    SupportedNext(inbounds, i);
    WellFromNext(now, next, |first|);
  }

  /** The event at j belongs to an entry whose cleanup, from this place on, removed the user from every tag. */
  predicate Cleaned(trace: seq<Event>, j: nat, from: nat, tags: seq<string>, id: string) {
    && from + |tags| <= j < |trace| && Removals(trace, from, tags, |tags|, id)
    && (forall k :: from <= k < from + |tags| ==> ResultOf(trace[k]).ok)
    && (forall k :: from + |tags| <= k <= j ==> AddsFor(trace[k], id))
  }

  ghost predicate AddedClean(trace: seq<Event>, j: nat, tags: seq<string>)
    requires j < |trace| && IsAdd(trace[j])
  {
    exists from: nat :: Cleaned(trace, j, from, tags, trace[j].step.call.user)
  }

  /** No entry whose cleanup failed is ever added. */
  ghost predicate EveryAddClean(trace: seq<Event>, tags: seq<string>) {
    forall j :: 0 <= j < |trace| && IsAdd(trace[j]) ==> AddedClean(trace, j, tags)
  }

  lemma {:induction false} StaysClean(before: seq<Event>, after: seq<Event>, tags: seq<string>)
    requires EveryAddClean(before, tags) && before <= after
    requires forall j :: |before| <= j < |after| && IsAdd(after[j]) ==> AddedClean(after, j, tags)
    ensures EveryAddClean(after, tags)
  {
    forall j | 0 <= j < |after| && IsAdd(after[j]) ensures AddedClean(after, j, tags) {
      if j < |before| {
        assert before[j] == after[j] && AddedClean(before, j, tags);
        var from: nat :| Cleaned(before, j, from, tags, before[j].step.call.user);
        assert forall k :: 0 <= k < |before| ==> after[k] == before[k];
        assert Cleaned(after, j, from, tags, after[j].step.call.user);
      }
    }
  }

  lemma {:induction false} NewAddsClean(clean: seq<Event>, after: seq<Event>, from: nat, tags: seq<string>, id: string)
    requires clean <= after && Removals(clean, from, tags, |tags|, id) && |clean| == from + |tags| && WellFrom(clean, from)
    requires forall j :: |clean| <= j < |after| ==> AddsFor(after[j], id) || (j == |after| - 1 && after[j].Stopped?)
    ensures forall j :: |clean| <= j < |after| && IsAdd(after[j]) ==> AddedClean(after, j, tags)
  {
    forall j | |clean| <= j < |after| && IsAdd(after[j]) ensures AddedClean(after, j, tags) {
      assert forall k :: 0 <= k < |clean| ==> after[k] == clean[k];
      assert Cleaned(after, j, from, tags, id);
    }
  }

  lemma {:induction false} WellFromSplit(a: seq<Event>, b: seq<Event>, from: nat)
    requires a <= b && from <= |a|
    ensures WellFrom(b, from) <==> WellFrom(a, from) && WellFrom(b, |a|)
  {
    assert forall i :: 0 <= i < |a| ==> b[i] == a[i];
  }

  ghost predicate OnlyUserChanged(before: set<(string, string)>, after: set<(string, string)>, id: string) {
    forall tag, other :: other != id ==> ((tag, other) in after <==> (tag, other) in before)
  }

  /** One entry: out of every tag, and only then into its inbounds. */
  method AddEntry(s: Session, tags: seq<string>, user: BatchUser) returns (stopped: bool)
    requires s.Valid() && EveryAddClean(s.results.trace, tags)
    modifies s.core, s.results
    ensures s.Valid() && old(s.results.trace) <= s.results.trace && EveryAddClean(s.results.trace, tags)
    ensures WellFrom(s.results.trace, |old(s.results.trace)|) ==>
      !stopped && s.core.members == Replaced(old(s.core.members), tags, user) && Supported(user.inbounds)
    ensures s.core.willing ==> !stopped && (Supported(user.inbounds) ==> WellFrom(s.results.trace, |old(s.results.trace)|))
    ensures OnlyUserChanged(old(s.core.members), s.core.members, user.id)
  {
    ghost var first := s.results.trace;
    var clean;
    stopped, clean := RemoveFromAll(s, tags, user.id);
    ghost var second := s.results.trace;
    StaysClean(first, second, tags);
    if stopped || !clean {
      return;
    }
    stopped := AddToInbounds(s, user);
    WellFromSplit(second, s.results.trace, |first|);
    NewAddsClean(second, s.results.trace, |first|, tags, user.id);
    StaysClean(second, s.results.trace, tags);
  }

  function LeaseFailure(message: string): GenericResponse {
    GenericResponse(false, Some(if message == "" then "xray is not online" else message))
  }

  /** The tags of the batch: see BatchMutationTags. */
  ghost predicate BatchTags(tags: seq<string>, provider: seq<string>, affected: seq<string>, users: seq<BatchUser>) {
    NoRepeats(tags) && forall t :: t in tags <==> t != "" && (t in provider || t in affected || Requested(users, t))
  }

  /** On every tag of the batch, membership is what the last entries of the batch ask for. */
  ghost predicate AsRequested(before: set<(string, string)>, after: set<(string, string)>, tags: seq<string>, users: seq<BatchUser>) {
    forall tag, id :: tag in tags ==>
      ((tag, id) in after <==>
        (var last := LastEntry(users, id); if last.Some? then tag in TagsOf(last.value.inbounds) else (tag, id) in before))
  }

  /** The next entry, unless the request has been cancelled. */
  method NextEntry(s: Session, tags: seq<string>, user: BatchUser) returns (stopped: bool)
    requires s.Valid() && EveryAddClean(s.results.trace, tags)
    modifies s.core, s.results
    ensures s.Valid() && EveryAddClean(s.results.trace, tags)
    ensures WellFrom(s.results.trace, 0) ==>
      !stopped && WellFrom(old(s.results.trace), 0) && s.core.members == Replaced(old(s.core.members), tags, user) && Supported(user.inbounds)
    ensures s.core.willing ==> !stopped && (WellFrom(old(s.results.trace), 0) && Supported(user.inbounds) ==> WellFrom(s.results.trace, 0))
    ensures OnlyUserChanged(old(s.core.members), s.core.members, user.id)
  {
    ghost var before := s.results.trace;
    stopped := s.StopForContext();
    if stopped {
      WellFromNext(before, s.results.trace, 0);
      StaysClean(before, s.results.trace, tags);
      return;
    }
    stopped := AddEntry(s, tags, user);
    WellFromSplit(before, s.results.trace, 0);
  }

  predicate AllSupported(users: seq<BatchUser>) {
    forall i :: 0 <= i < |users| ==> Supported(users[i].inbounds)
  }

  lemma {:induction false} AllSupportedNext(users: seq<BatchUser>, i: nat)
    requires i < |users|
    ensures AllSupported(users[..i + 1]) <==> AllSupported(users[..i]) && Supported(users[i].inbounds)
  {
    assert users[..i + 1] == users[..i] + [users[i]];
  }

  /** The entries in order, up to a cancellation. */
  method AddEntries(s: Session, tags: seq<string>, users: seq<BatchUser>)
    requires s.Valid() && s.results.trace == []
    modifies s.core, s.results
    ensures s.Valid() && EveryAddClean(s.results.trace, tags)
    ensures WellFrom(s.results.trace, 0) ==> s.core.members == ReplacedAll(old(s.core.members), tags, users) && AllSupported(users)
    ensures s.core.willing && AllSupported(users) ==> WellFrom(s.results.trace, 0)
    ensures Untouched(old(s.core.members), s.core.members, users)
  {
    ghost var members := s.core.members;
    for i := 0 to |users|
      invariant s.Valid() && EveryAddClean(s.results.trace, tags)
      invariant WellFrom(s.results.trace, 0) ==> s.core.members == ReplacedAll(members, tags, users[..i]) && AllSupported(users[..i])
      invariant s.core.willing && AllSupported(users[..i]) ==> WellFrom(s.results.trace, 0)
      invariant Untouched(members, s.core.members, users[..i])
    {
      LastEntryNext(users, i);
      AllSupportedNext(users, i);
      assert users[..i + 1][..i] == users[..i];
      var stopped := NextEntry(s, tags, users[i]);
      if stopped {
        LastEntryPrefix(users, i + 1);
        return;
      }
    }
    assert users[..|users|] == users;
  }

  method AddUsers(core: Core, lease: Option<string>, affected: seq<string>, users: seq<BatchUser>)
    returns (response: GenericResponse, ghost tags: seq<string>, ghost trace: seq<Event>)
    modifies core
    ensures core.steps == old(core.steps) + StepsOf(trace)
    ensures users == [] ==> response == GenericResponse(true, None) && trace == []
    ensures users != [] && lease.Some? ==> response == LeaseFailure(lease.value) && trace == []
    ensures users != [] && lease.None? ==>
      response == ResponseOf(trace) && BatchTags(tags, core.tags, affected, users) && EveryAddClean(trace, tags)
    ensures users != [] && response.success ==> AsRequested(old(core.members), core.members, tags, users) && AllSupported(users)
    // left alone, it fails for user types that the core does not know and for nothing else
    ensures users != [] && lease.None? && core.willing ==> (response.success <==> AllSupported(users))
    ensures Untouched(old(core.members), core.members, users)
  {
    tags, trace := [], [];
    if users == [] {
      return GenericResponse(true, None), tags, trace;
    }
    if lease.Some? {
      return LeaseFailure(lease.value), tags, trace;
    }
    var mutation := BatchMutationTags(core.tags, affected, users);
    tags := mutation;
    var s := new Session(core);
    AddEntries(s, mutation, users);
    trace := s.results.trace;
    response := s.results.Response();
    FirstFailureIsFirst(trace);
    forall tag, id | tag in tags
      ensures (tag, id) in ReplacedAll(old(core.members), tags, users) <==>
        (var last := LastEntry(users, id); if last.Some? then tag in TagsOf(last.value.inbounds) else (tag, id) in old(core.members))
    {
      LastEntryWins(old(core.members), tags, users, tag, id);
    }
  }

  /** Users that no entry names keep their memberships. */
  ghost predicate Untouched(before: set<(string, string)>, after: set<(string, string)>, users: seq<BatchUser>) {
    forall tag, id :: LastEntry(users, id).None? ==> ((tag, id) in after <==> (tag, id) in before)
  }

  lemma {:induction false} LastEntryNext(users: seq<BatchUser>, i: nat)
    requires i < |users|
    ensures forall id :: LastEntry(users[..i + 1], id).None? <==> LastEntry(users[..i], id).None? && id != users[i].id
  {
    assert users[..i + 1][..i] == users[..i];
  }

  lemma {:induction false} LastEntryPrefix(users: seq<BatchUser>, i: nat)
    requires i <= |users|
    ensures forall id :: LastEntry(users, id).None? ==> LastEntry(users[..i], id).None?
    decreases |users| - i
  {
    if i < |users| {
      LastEntryNext(users, i);
      LastEntryPrefix(users, i + 1);
    } else {
      assert users[..i] == users;
    }
  }

  // ---------- Removing a batch ----------

  /** An entry of the batch that was looked up and then removed from every tag. */
  datatype Removed = Removed(at: nat, id: string, ips: seq<string>)

  predicate FullyRemoved(trace: seq<Event>, tags: seq<string>, r: Removed) {
    && r.at + 1 + |tags| <= |trace|
    && LooksUp(trace[r.at], r.id, r.ips) && ResultOf(trace[r.at]).ok
    && Removals(trace, r.at + 1, tags, |tags|, r.id)
    && forall k :: r.at + 1 <= k < r.at + 1 + |tags| ==> ResultOf(trace[k]).ok
  }

  function AllIPs(removed: seq<Removed>): seq<string> {
    if removed == [] then [] else AllIPs(removed[..|removed| - 1]) + removed[|removed| - 1].ips
  }

  predicate IsDrop(e: Event) {
    e.Did? && e.step.call.DropCall?
  }

  function Without(members: set<(string, string)>, tags: seq<string>, ids: seq<string>): set<(string, string)> {
    if ids == [] then members else Without(members, tags, ids[..|ids| - 1]) - Pairs(tags, ids[|ids| - 1])
  }

  /** After removing the users from the tags, none of them is a member of any, and everyone else is where they were. */
  lemma {:induction false} WithoutMeans(members: set<(string, string)>, tags: seq<string>, ids: seq<string>, tag: string, id: string)
    ensures (tag, id) in Without(members, tags, ids) <==> (tag, id) in members && !(tag in tags && id in ids)
    decreases |ids|
  {
    if ids != [] {
      WithoutMeans(members, tags, ids[..|ids| - 1], tag, id);
      assert ids == ids[..|ids| - 1] + [ids[|ids| - 1]];
    }
  }

  lemma {:induction false} StaysRemoved(before: seq<Event>, after: seq<Event>, tags: seq<string>, r: Removed)
    requires before <= after && FullyRemoved(before, tags, r)
    ensures FullyRemoved(after, tags, r)
  {
    assert forall k :: 0 <= k < |before| ==> after[k] == before[k];
  }

  /** One user: addresses first, then out of every tag; `removed` is set when all of it worked. */
  method RemoveEntry(s: Session, available: bool, tags: seq<string>, id: string)
    returns (stopped: bool, gone: bool, ips: seq<string>)
    requires s.Valid()
    modifies s.core, s.results
    ensures s.Valid() && old(s.results.trace) <= s.results.trace
    ensures forall j :: |old(s.results.trace)| <= j < |s.results.trace| ==> !IsDrop(s.results.trace[j])
    ensures gone ==> !stopped && FullyRemoved(s.results.trace, tags, Removed(|old(s.results.trace)|, id, ips))
    ensures gone ==> s.core.members == old(s.core.members) - Pairs(tags, id)
    ensures !gone ==> !WellFrom(s.results.trace, |old(s.results.trace)|)
    ensures s.core.willing ==> gone && WellFrom(s.results.trace, |old(s.results.trace)|)
    ensures s.core.members <= old(s.core.members) && old(s.core.members) - Pairs(tags, id) <= s.core.members
  {
    ghost var first := s.results.trace;
    stopped, gone, ips := false, false, [];
    stopped := s.StopForContext();
    if stopped {
      return;
    }
    var known;
    known, ips := s.PrepareUserIPDrop(id, available);
    if !known {
      return;
    }
    ghost var second := s.results.trace;
    stopped, gone := RemoveFromAll(s, tags, id);
    WellFromSplit(second, s.results.trace, |first|);
    assert forall k :: 0 <= k < |second| ==> s.results.trace[k] == second[k];
    gone := !stopped && gone;
  }

  /** Every recorded removal is in the trace, in the order of the records. */
  ghost predicate AllRemoved(trace: seq<Event>, tags: seq<string>, removed: seq<Removed>) {
    && (forall k :: 0 <= k < |removed| ==> FullyRemoved(trace, tags, removed[k]))
    && (forall j, k :: 0 <= j < k < |removed| ==> removed[j].at < removed[k].at)
  }

  lemma {:induction false} RemovedNext(before: seq<Event>, after: seq<Event>, tags: seq<string>, removed: seq<Removed>, r: Removed)
    requires AllRemoved(before, tags, removed) && before <= after && r.at == |before| && FullyRemoved(after, tags, r)
    ensures AllRemoved(after, tags, removed + [r]) && AllIPs(removed + [r]) == AllIPs(removed) + r.ips
    ensures Ids(removed + [r]) == Ids(removed) + [r.id]
  {
    var all := removed + [r];
    assert all[..|removed|] == removed;
    forall k | 0 <= k < |all| ensures FullyRemoved(after, tags, all[k]) {
      if k < |removed| {
        StaysRemoved(before, after, tags, removed[k]);
      }
    }
  }

  function Ids(removed: seq<Removed>): seq<string> {
    seq(|removed|, k requires 0 <= k < |removed| => removed[k].id)
  }

  predicate NoDrops(trace: seq<Event>) {
    forall j :: 0 <= j < |trace| ==> !IsDrop(trace[j])
  }

  lemma {:induction false} NoDropsMore(before: seq<Event>, after: seq<Event>)
    requires before <= after && NoDrops(before) && forall j :: |before| <= j < |after| ==> !IsDrop(after[j])
    ensures NoDrops(after)
  {
    assert forall j :: 0 <= j < |before| ==> after[j] == before[j];
  }

  lemma {:induction false} AllStayRemoved(before: seq<Event>, after: seq<Event>, tags: seq<string>, removed: seq<Removed>)
    requires AllRemoved(before, tags, removed) && before <= after
    ensures AllRemoved(after, tags, removed)
  {
    forall k | 0 <= k < |removed| ensures FullyRemoved(after, tags, removed[k]) {
      StaysRemoved(before, after, tags, removed[k]);
    }
  }

  /** Users who are not named keep their memberships. */
  ghost predicate OnlyNamed(before: set<(string, string)>, after: set<(string, string)>, ids: seq<string>) {
    forall tag, id :: id !in ids ==> ((tag, id) in after <==> (tag, id) in before)
  }

  lemma {:induction false} OnlyNamedNext(before: set<(string, string)>, middle: set<(string, string)>, after: set<(string, string)>,
                                         tags: seq<string>, ids: seq<string>, id: string)
    requires OnlyNamed(before, middle, ids) && after <= middle && middle - Pairs(tags, id) <= after
    ensures OnlyNamed(before, after, ids + [id])
  {
    forall tag, other | other !in ids + [id] ensures (tag, other) in after <==> (tag, other) in before {
      assert other !in ids && other != id;
      assert (tag, other) in middle <==> (tag, other) in before;
      assert (tag, other) !in Pairs(tags, id);
    }
  }

  /** One more user, whose addresses are added when it is removed from every tag. */
  method NextRemoval(s: Session, available: bool, tags: seq<string>, id: string, ips: seq<string>, ghost removed: seq<Removed>)
    returns (stopped: bool, all: seq<string>, ghost now: seq<Removed>)
    requires s.Valid() && NoDrops(s.results.trace) && AllRemoved(s.results.trace, tags, removed) && ips == AllIPs(removed)
    modifies s.core, s.results
    ensures s.Valid() && NoDrops(s.results.trace) && AllRemoved(s.results.trace, tags, now) && all == AllIPs(now)
    ensures WellFrom(s.results.trace, 0) ==>
      && !stopped && WellFrom(old(s.results.trace), 0) && Ids(now) == Ids(removed) + [id]
      && s.core.members == old(s.core.members) - Pairs(tags, id)
    ensures s.core.willing ==> !stopped && (WellFrom(old(s.results.trace), 0) ==> WellFrom(s.results.trace, 0))
    ensures s.core.members <= old(s.core.members) && old(s.core.members) - Pairs(tags, id) <= s.core.members
  {
    ghost var before := s.results.trace;
    var gone, more;
    stopped, gone, more := RemoveEntry(s, available, tags, id);
    NoDropsMore(before, s.results.trace);
    WellFromSplit(before, s.results.trace, 0);
    if gone {
      ghost var r := Removed(|before|, id, more);
      RemovedNext(before, s.results.trace, tags, removed, r);
      all, now := ips + more, removed + [r];
    } else {
      AllStayRemoved(before, s.results.trace, tags, removed);
      all, now := ips, removed;
    }
  }

  /** The users in order, up to a cancellation; the addresses are those of the users removed from every tag. */
  method RemoveEntries(s: Session, available: bool, tags: seq<string>, ids: seq<string>)
    returns (stopped: bool, ips: seq<string>, ghost removed: seq<Removed>)
    requires s.Valid() && s.results.trace == []
    modifies s.core, s.results
    ensures s.Valid() && NoDrops(s.results.trace)
    ensures AllRemoved(s.results.trace, tags, removed) && ips == AllIPs(removed)
    ensures stopped ==> !WellFrom(s.results.trace, 0)
    ensures s.core.willing ==> WellFrom(s.results.trace, 0)
    ensures WellFrom(s.results.trace, 0) ==> Ids(removed) == ids && s.core.members == Without(old(s.core.members), tags, ids)
    ensures s.core.members <= old(s.core.members) && OnlyNamed(old(s.core.members), s.core.members, ids)
  {
    stopped, ips, removed := false, [], [];
    for i := 0 to |ids|
      invariant s.Valid() && NoDrops(s.results.trace) && AllRemoved(s.results.trace, tags, removed) && ips == AllIPs(removed)
      invariant WellFrom(s.results.trace, 0) ==> Ids(removed) == ids[..i] && s.core.members == Without(old(s.core.members), tags, ids[..i])
      invariant s.core.members <= old(s.core.members) && OnlyNamed(old(s.core.members), s.core.members, ids[..i])
      invariant s.core.willing ==> WellFrom(s.results.trace, 0)
    {
      ghost var middle := s.core.members;
      assert ids[..i + 1][..i] == ids[..i] && ids[..i + 1] == ids[..i] + [ids[i]];
      stopped, ips, removed := NextRemoval(s, available, tags, ids[i], ips, removed);
      OnlyNamedNext(old(s.core.members), middle, s.core.members, tags, ids[..i], ids[i]);
      if stopped {
        assert forall id :: id in ids[..i + 1] ==> id in ids;
        return;
      }
    }
    assert ids[..|ids|] == ids;
  }

  /** At most one drop, at the very end, of the addresses of the users removed from every tag. */
  ghost predicate DropsLast(trace: seq<Event>, tags: seq<string>, removed: seq<Removed>) {
    && AllRemoved(trace, tags, removed)
    && forall j :: 0 <= j < |trace| && IsDrop(trace[j]) ==> j == |trace| - 1 && trace[j].step.call.ips == AllIPs(removed)
  }

  lemma {:induction false} DropsAtEnd(before: seq<Event>, after: seq<Event>, tags: seq<string>, removed: seq<Removed>)
    requires OneMore(before, after) && NoDrops(before) && AllRemoved(before, tags, removed) && Drops(after[|before|], AllIPs(removed))
    ensures DropsLast(after, tags, removed)
  {
    AllStayRemoved(before, after, tags, removed);
    assert forall j :: 0 <= j < |before| ==> after[j] == before[j];
  }

  method RemoveUsers(core: Core, lease: Option<string>, available: bool, ids: seq<string>)
    returns (response: GenericResponse, ghost trace: seq<Event>, ghost removed: seq<Removed>)
    modifies core
    ensures core.steps == old(core.steps) + StepsOf(trace) && core.members <= old(core.members)
    ensures OnlyNamed(old(core.members), core.members, ids)
    ensures ids == [] || (lease.None? && core.tags == []) ==> response == GenericResponse(true, None) && trace == []
    ensures ids != [] && lease.Some? ==> response == LeaseFailure(lease.value) && trace == []
    ensures ids != [] && lease.None? && core.tags != [] ==> response == ResponseOf(trace) && DropsLast(trace, core.tags, removed)
    ensures lease.None? && core.willing ==> response.success
    ensures ids != [] && core.tags != [] && response.success ==>
      && Ids(removed) == ids && trace != [] && Drops(trace[|trace| - 1], AllIPs(removed))
      && forall tag, id :: (tag, id) in core.members <==> (tag, id) in old(core.members) && !(tag in core.tags && id in ids)
  {
    trace, removed := [], [];
    if ids == [] {
      return GenericResponse(true, None), trace, removed;
    }
    if lease.Some? {
      return LeaseFailure(lease.value), trace, removed;
    }
    if core.tags == [] {
      return GenericResponse(true, None), trace, removed;
    }
    var s := new Session(core);
    response, removed := RemoveAll(s, available, core.tags, ids);
    trace := s.results.trace;
    WithoutAll(old(core.members), core.tags, ids);
  }

  /** The users one after the other, and then their connections at once. */
  method RemoveAll(s: Session, available: bool, tags: seq<string>, ids: seq<string>)
    returns (response: GenericResponse, ghost removed: seq<Removed>)
    requires s.Valid() && s.results.trace == []
    modifies s.core, s.results
    ensures s.Valid() && response == ResponseOf(s.results.trace) && DropsLast(s.results.trace, tags, removed)
    ensures s.core.members <= old(s.core.members) && OnlyNamed(old(s.core.members), s.core.members, ids)
    ensures s.core.willing ==> response.success
    ensures response.success ==>
      && Ids(removed) == ids && s.core.members == Without(old(s.core.members), tags, ids)
      && s.results.trace != [] && Drops(s.results.trace[|s.results.trace| - 1], AllIPs(removed))
  {
    var stopped, ips;
    stopped, ips, removed := RemoveEntries(s, available, tags, ids);
    if !stopped {
      DropAll(s, tags, ips, removed);
    }
    FirstFailureIsFirst(s.results.trace);
    response := s.results.Response();
  }

  /** The connections of the users removed from every tag, at the very end. */
  method DropAll(s: Session, tags: seq<string>, ips: seq<string>, ghost removed: seq<Removed>)
    requires s.Valid() && NoDrops(s.results.trace) && AllRemoved(s.results.trace, tags, removed) && ips == AllIPs(removed)
    modifies s.core`steps, s.results
    ensures s.Valid() && DropsLast(s.results.trace, tags, removed)
    ensures s.results.trace != [] && Drops(s.results.trace[|s.results.trace| - 1], AllIPs(removed))
    ensures WellFrom(s.results.trace, 0) ==> WellFrom(old(s.results.trace), 0)
    ensures s.core.willing && WellFrom(old(s.results.trace), 0) ==> WellFrom(s.results.trace, 0)
  {
    ghost var before := s.results.trace;
    s.ApplyUserIPDrops(ips);
    DropsAtEnd(before, s.results.trace, tags, removed);
    WellFromNext(before, s.results.trace, 0);
  }

  lemma {:induction false} WithoutAll(members: set<(string, string)>, tags: seq<string>, ids: seq<string>)
    ensures forall tag, id :: (tag, id) in Without(members, tags, ids) <==> (tag, id) in members && !(tag in tags && id in ids)
  {
    forall tag, id ensures (tag, id) in Without(members, tags, ids) <==> (tag, id) in members && !(tag in tags && id in ids) {
      WithoutMeans(members, tags, ids, tag, id);
    }
  }
}
