/**
 Input preservation agrees with the manifest: where the manifest keeps a binding, SQL ran with the
 caller's own value of the bound field; where a hop rewrote the input, the binding was dropped.
 */
module Preservation {
  import opened Contracts
  import opened Facts
  import opened Reads
  import opened SelectTrees
  import opened Plans
  import opened Noninterference

  /** Only identity calls lie between the requested endpoint and the leaf. */
  predicate Straight(hops: seq<Hop>) {
    forall i :: 0 <= i < |hops| ==> hops[i].Identity?
  }

  function LeafReads(plan: Plan): seq<Read> {
    match plan
    case Select(resource, options, count) => ReadSelect(resource, ReadOptions(options, count), [], None)
    case Native(query) => query.declared
    case _ => []
  }

  predicate Kept(read: Read, list: seq<Read>) {
    read in list
  }

  predicate Loose(read: Read, list: seq<Read>) {
    read.(bindings := []) in list
  }

  /** How one executed leaf relates to the reads of the plan that led to it. */
  ghost predicate Accounted(
    caller: Input, wanted: set<string>, list: seq<Read>, hops: seq<Hop>, leaf: Executed)
  {
    && (Straight(leaf.hops) ==> Straight(hops) && SameFields(caller, leaf.input, wanted))
    && forall read :: read in LeafReads(leaf.plan) ==>
         && (Kept(read, list) || Loose(read, list))
         && (Straight(leaf.hops) ==> Kept(read, list))
         && (Straight(hops) && !Straight(leaf.hops) ==> Loose(read, list))
  }

  ghost predicate Carries(caller: Input, wanted: set<string>, input: Input, required: Option<set<string>>, hops: seq<Hop>) {
    && (required.Some? <==> Straight(hops))
    && (required.Some? ==> wanted <= required.value && SameFields(caller, input, wanted))
  }

  lemma AccountedWider(caller: Input, wanted: set<string>, part: seq<Read>, all: seq<Read>, hops: seq<Hop>, leaf: Executed)
    ensures Accounted(caller, wanted, part, hops, leaf) && (forall read :: read in part ==> read in all) ==>
      Accounted(caller, wanted, all, hops, leaf)
  {
  }

  /** Below a hop that is not the identity every read of the leaf has lost its bindings. */
  lemma AccountedDropped(
      caller: Input, wanted: set<string>, list: seq<Read>, hops: seq<Hop>, hop: Hop, leaf: Executed)
    requires Accounted(caller, wanted, list, hops + [hop], leaf) && !hop.Identity?
    ensures Accounted(caller, wanted, DropBindings(list), hops, leaf)
  {
    assert !Straight(hops + [hop]) by {
      assert (hops + [hop])[|hops|] == hop;
    }
    forall read | read in LeafReads(leaf.plan) ensures Loose(read, DropBindings(list)) {
      var source := if Kept(read, list) then read else read.(bindings := []);
      var i :| 0 <= i < |list| && list[i] == source;
      assert DropBindings(list)[i] == read.(bindings := []);
    }
  }

  lemma StraightPush(hops: seq<Hop>, hop: Hop)
    ensures Straight(hops + [hop]) <==> Straight(hops) && hop.Identity?
  {
    if Straight(hops + [hop]) {
      assert (hops + [hop])[|hops|] == hop;
      assert forall i :: 0 <= i < |hops| ==> (hops + [hop])[i] == hops[i];
    }
  }

  lemma AccountedIdentity(caller: Input, wanted: set<string>, list: seq<Read>, hops: seq<Hop>, leaf: Executed)
    requires Accounted(caller, wanted, list, hops + [Identity], leaf)
    ensures Accounted(caller, wanted, list, hops, leaf)
  {
    StraightPush(hops, Identity);
  }

  lemma {:induction false} LeafAccounted(
      world: World, rank: Ranking, caller: Input, wanted: set<string>, plan: Plan, input: Input,
      required: Option<set<string>>, hops: seq<Hop>, level: nat, leaf: Executed)
    requires Ranked(world.queries, rank) && Below(world.queries, rank, Calls(plan), level)
    requires Carries(caller, wanted, input, required, hops)
    requires leaf in Execute(world, rank, plan, input, required, hops, level).executed
    ensures Accounted(caller, wanted, ReadsFor(world.queries, rank, plan, level), hops, leaf)
    decreases level, plan, 1
  {
    match plan
    case Select(_, _, _) =>
    case Native(_) =>
    case Constant(_) =>
    case Call(_, _) => CallAccounted(world, rank, caller, wanted, plan, input, required, hops, level, leaf);
    case Combine(children) => AllAccounted(world, rank, caller, wanted, children, input, required, hops, level, leaf);
    case When(test, yes, no) =>
      var taken := if test(input).value then yes else no;
      LeafAccounted(world, rank, caller, wanted, taken, input, required, hops, level, leaf);
      AccountedWider(
        caller, wanted, ReadsFor(world.queries, rank, taken, level), ReadsFor(world.queries, rank, plan, level), hops, leaf);
    case Bind(_, _, _) => BindAccounted(world, rank, caller, wanted, plan, input, required, hops, level, leaf);
    case Map(source, _) => LeafAccounted(world, rank, caller, wanted, source, input, required, hops, level, leaf);
    case Choose(choices, choose) =>
      PickedCalls(choices, choose(input).value);
      var i :| 0 <= i < |choices| && choices[i].plan == Pick(choices, choose(input).value).value;
      ReadsForAllHas(world.queries, rank, choices, level, i);
      LeafAccounted(world, rank, caller, wanted, choices[i].plan, input, required, hops, level, leaf);
      AccountedWider(
        caller, wanted, ReadsFor(world.queries, rank, choices[i].plan, level),
        ReadsFor(world.queries, rank, plan, level), hops, leaf);
  }

  lemma {:induction false} BindAccounted(
      world: World, rank: Ranking, caller: Input, wanted: set<string>, plan: Plan, input: Input,
      required: Option<set<string>>, hops: seq<Hop>, level: nat, leaf: Executed)
    requires Ranked(world.queries, rank) && Below(world.queries, rank, Calls(plan), level) && plan.Bind?
    requires Carries(caller, wanted, input, required, hops)
    requires leaf in Execute(world, rank, plan, input, required, hops, level).executed
    ensures Accounted(caller, wanted, ReadsFor(world.queries, rank, plan, level), hops, leaf)
    decreases level, plan, 0
  {
    var list := ReadsFor(world.queries, rank, plan, level);
    var first := Execute(world, rank, plan.parent, input, required, hops, level);
    if leaf in first.executed {
      LeafAccounted(world, rank, caller, wanted, plan.parent, input, required, hops, level, leaf);
      AccountedWider(caller, wanted, ReadsFor(world.queries, rank, plan.parent, level), list, hops, leaf);
    } else {
      var next := plan.derive(first.outcome.value, input).value.value;
      StraightPush(hops, Derived);
      LeafAccounted(world, rank, caller, wanted, plan.child, next, None, hops + [Derived], level, leaf);
      AccountedDropped(caller, wanted, ReadsFor(world.queries, rank, plan.child, level), hops, Derived, leaf);
      AccountedWider(caller, wanted, DropBindings(ReadsFor(world.queries, rank, plan.child, level)), list, hops, leaf);
    }
  }

  lemma {:induction false} CallAccounted(
      world: World, rank: Ranking, caller: Input, wanted: set<string>, plan: Plan, input: Input,
      required: Option<set<string>>, hops: seq<Hop>, level: nat, leaf: Executed)
    requires Ranked(world.queries, rank) && Below(world.queries, rank, Calls(plan), level) && plan.Call?
    requires Carries(caller, wanted, input, required, hops)
    requires leaf in ExecuteCall(world, rank, plan, input, required, hops, level).executed
    ensures Accounted(caller, wanted, ReadsFor(world.queries, rank, plan, level), hops, leaf)
    decreases level, plan, 0
  {
    var query := world.queries[plan.endpoint];
    var raw := (if plan.mapper.Some? then plan.mapper.value(input) else Returned(Fields(input))).value;
    var parsed := query.parse(raw).value.input;
    var fields := if required.Some? then required.value + PreservedInputs(world.queries, rank, plan.endpoint) else {};
    var identity := plan.mapper.None? && !query.opaqueInput;
    var hop := if plan.mapper.Some? then Mapped else if query.opaqueInput then OpaqueInput else Identity;
    var carried := if identity && required.Some? then Some(fields) else None;
    var below := ReadsFor(world.queries, rank, query.plan, rank[plan.endpoint]);
    StraightPush(hops, hop);
    assert Carries(caller, wanted, parsed, carried, hops + [hop]);
    LeafAccounted(
      world, rank, caller, wanted, query.plan, parsed, carried, hops + [hop], rank[plan.endpoint], leaf);
    if identity {
      AccountedIdentity(caller, wanted, below, hops, leaf);
    } else {
      AccountedDropped(caller, wanted, below, hops, hop, leaf);
    }
  }

  lemma {:induction false} AllAccounted(
      world: World, rank: Ranking, caller: Input, wanted: set<string>, plans: seq<NamedPlan>, input: Input,
      required: Option<set<string>>, hops: seq<Hop>, level: nat, leaf: Executed)
    requires Ranked(world.queries, rank) && Below(world.queries, rank, CallsOf(plans), level)
    requires Carries(caller, wanted, input, required, hops)
    requires leaf in ExecuteAll(world, rank, plans, input, required, hops, level).1
    ensures Accounted(caller, wanted, ReadsForAll(world.queries, rank, plans, level), hops, leaf)
    decreases level, plans, 0
  {
    var list := ReadsForAll(world.queries, rank, plans, level);
    if leaf in Execute(world, rank, plans[0].plan, input, required, hops, level).executed {
      LeafAccounted(world, rank, caller, wanted, plans[0].plan, input, required, hops, level, leaf);
      AccountedWider(caller, wanted, ReadsFor(world.queries, rank, plans[0].plan, level), list, hops, leaf);
    } else {
      AllAccounted(world, rank, caller, wanted, plans[1..], input, required, hops, level, leaf);
      AccountedWider(caller, wanted, ReadsForAll(world.queries, rank, plans[1..], level), list, hops, leaf);
    }
  }

  /**
   Every leaf a requested query executed. Reached through identity calls from an endpoint that does not
   declare its input opaque, its reads stand in the manifest with their bindings and SQL saw the caller's
   value of every bound field; on any other path the manifest holds those reads without bindings.
   */
  lemma ExecutedLeafPreserves(world: World, rank: Ranking, id: string, raw: Raw, leaf: Executed)
    requires Ranked(world.queries, rank) && id in world.queries
    requires leaf in RunQuery(world, rank, id, raw).executed
    ensures var kept := Straight(leaf.hops) && !world.queries[id].opaqueInput;
      forall read :: read in LeafReads(leaf.plan) ==>
        if kept then
          && read in ManifestReads(world.queries, rank, id)
          && SameFields(CallerInput(raw), leaf.input, set b | b in read.bindings :: b.input)
        else read.(bindings := []) in ManifestReads(world.queries, rank, id)
  {
    var query := world.queries[id];
    var parsed := query.parse(raw).value.input;
    var required := PreservedInputs(world.queries, rank, id);
    var list := ReadsFor(world.queries, rank, query.plan, rank[id]);
    var caller := CallerInput(raw);
    LeafAccounted(world, rank, caller, required, query.plan, parsed, Some(required), [], rank[id], leaf);
    forall read | read in LeafReads(leaf.plan)
      ensures query.opaqueInput ==> read.(bindings := []) in ManifestReads(world.queries, rank, id)
    {
      var source := if Kept(read, list) then read else read.(bindings := []);
      var i :| 0 <= i < |list| && list[i] == source;
      assert DropBindings(list)[i] == read.(bindings := []);
    }
  }
}
