/**
 Whole plans. A write that affects none of an endpoint's manifest reads for the caller's input leaves
 the result of the whole plan unchanged, for arbitrary callbacks and any depth of calls.
 */
module Noninterference {
  import opened Contracts
  import opened Facts
  import opened Reads
  import opened SelectTrees
  import opened SelectSound
  import opened Plans

  function AfterWorld(world: World, w: RowWrite): World {
    world.(tables := Apply(world.tables, w))
  }

  // ------------------------------------------------------------------- leaves

  lemma RequiredIndex(joins: seq<Join>, i: nat) returns (k: nat)
    requires i < |RequiredJoins(joins)|
    ensures k < |joins| && joins[k] == RequiredJoins(joins)[i] && joins[k].required
  {
    assert RequiredJoins(joins)[i] in joins;
    k :| 0 <= k < |joins| && joins[k] == RequiredJoins(joins)[i];
  }

  /** The executors' count skips exactly what `readOptions` leaves out, so both select the same rows. */
  lemma CountAligned(env: Env, resource: string, options: SelectOptions)
    ensures Selected(env, resource, options, None).Keys == Selected(env, resource, ReadOptions(options, true), None).Keys
  {
    var reduced := ReadOptions(options, true);
    forall row: Row ensures Matches(env, resource, options, None, row) <==> Matches(env, resource, reduced, None, row) {
      if Matches(env, resource, options, None, row) {
        forall i | 0 <= i < |reduced.joins|
          ensures |Children(env, reduced.joins[i], row)| > PageNumber(reduced.joins[i].options.offset, env.input)
        {
          var k := RequiredIndex(options.joins, i);
        }
      }
      if Matches(env, resource, reduced, None, row) {
        forall i | 0 <= i < |options.joins| && options.joins[i].required
          ensures |Children(env, options.joins[i], row)| > PageNumber(options.joins[i].options.offset, env.input)
        {
          assert options.joins[i] in reduced.joins;
          var k :| 0 <= k < |reduced.joins| && reduced.joins[k] == options.joins[i];
        }
      }
    }
  }

  lemma CountsEqual(left: map<int, Tree>, right: map<int, Tree>)
    requires left.Keys == right.Keys
    ensures |left| == |right|
  {
    assert |left| == |left.Keys| && |right| == |right.Keys|;
  }

  lemma SelectLeafStable(world: World, w: RowWrite, resource: string, options: SelectOptions, count: bool, input: Input)
    requires Lawful(world.db) && Current(world.tables, w)
    requires AllRegistered(EnvOf(world, input), ReadSelect(resource, ReadOptions(options, count), [], None))
    requires NoneAffected(EnvOf(world, input), ReadSelect(resource, ReadOptions(options, count), [], None), w)
    ensures RunSelect(world, resource, options, count, input) == RunSelect(AfterWorld(world, w), resource, options, count, input)
  {
    var env := EnvOf(world, input);
    assert After(env, w) == EnvOf(AfterWorld(world, w), input);
    SelectStable(env, w, resource, ReadOptions(options, count), [], None);
    if count {
      CountAligned(env, resource, options);
      CountAligned(After(env, w), resource, options);
      CountsEqual(Selected(env, resource, options, None), Selected(After(env, w), resource, options, None));
    }
  }

  lemma ViewStable(env: Env, w: RowWrite, read: Read)
    requires Current(env.tables, w) && Covering(read)
    requires !Affects(env.db, env.resources, read, env.input, env.scope, w)
    ensures View(env, read) == View(After(env, w), read)
  {
    var table := Table(env.tables, read.resource);
    var updated := Table(After(env, w).tables, read.resource);
    var left, right := View(env, read), View(After(env, w), read);
    if read.resource == w.resource {
      WrittenView(env, w, read);
    }
    forall row ensures Admits(env, read, row) <==> Admits(After(env, w), read, row) {
    }
    hide Admits, Projection, Affects;
    forall id ensures id in left <==> id in right
      ensures id in left ==> left[id] == right[id]
    {
      if read.resource != w.resource || id != w.id {
        assert id in table <==> id in updated;
        assert id in table ==> updated[id] == table[id];
        if id in table {
          ProjectionSame(env, w, read, table[id]);
        }
      } else if w.after.Some? {
        ProjectionSame(env, w, read, w.after.value);
      }
    }
    assert left.Keys == right.Keys;
  }

  lemma ProjectionSame(env: Env, w: RowWrite, read: Read, row: Row)
    ensures Projection(env, read, row) == Projection(After(env, w), read, row)
  {
  }

  lemma WrittenView(env: Env, w: RowWrite, read: Read)
    requires Covering(read) && read.resource == w.resource
    requires !Affects(env.db, env.resources, read, env.input, env.scope, w)
    ensures (w.before.Some? && Admits(env, read, w.before.value)) <==> (w.after.Some? && Admits(env, read, w.after.value))
    ensures w.before.Some? && w.after.Some? && Admits(env, read, w.before.value) ==>
      Projection(env, read, w.before.value) == Projection(env, read, w.after.value)
  {
    if read.resource in env.resources && w.before.Some? && w.after.Some?
       && !ReadChanged(env.resources[read.resource], read, w) {
      VersionsReach(env, env.resources[read.resource], read, w);
    }
  }

  /** Versions of a row that agree on what the read is sensitive to reach it alike. */
  lemma VersionsReach(env: Env, resource: Resource, read: Read, w: RowWrite)
    requires Covering(read) && w.before.Some? && w.after.Some? && !ReadChanged(resource, read, w)
    ensures Reaches(env.db, resource, read, env.input, env.scope, w.before)
      <==> Reaches(env.db, resource, read, env.input, env.scope, w.after)
    ensures forall column :: Sensitive(resource, read, column) ==>
      Col(w.before.value, column) == Col(w.after.value, column)
  {
    forall column | Sensitive(resource, read, column)
      ensures Col(w.before.value, column) == Col(w.after.value, column)
    {
      assert !Differs(w.before.value, w.after.value, column);
    }
    if resource.scopeColumn.Some? {
      assert Sensitive(resource, read, resource.scopeColumn.value);
    }
    forall i | 0 <= i < |read.bindings|
      ensures Col(w.before.value, read.bindings[i].column) == Col(w.after.value, read.bindings[i].column)
    {
      assert read.bindings[i] in read.bindings;
      assert Sensitive(resource, read, read.bindings[i].column);
    }
    forall i | 0 <= i < |read.filters|
      ensures Col(w.before.value, read.filters[i].column) == Col(w.after.value, read.filters[i].column)
    {
      assert Sensitive(resource, read, read.filters[i].column);
    }
  }

  // -------------------------------------------------------------- whole plans

  /** One write seen from one caller: the caller's input and the fields the requested endpoint binds. */
  datatype Probe = Probe(world: World, rank: Ranking, w: RowWrite, caller: Input, wanted: set<string>)

  ghost predicate Ready(t: Probe) {
    && Lawful(t.world.db) && Current(t.world.tables, t.w)
    && Ranked(t.world.queries, t.rank)
    && forall id :: id in t.world.queries ==> NativesCover(t.world.queries[id].plan)
  }

  /** The reads as they end up in the requested endpoint's manifest. */
  ghost function Effective(list: seq<Read>, kept: bool): seq<Read> {
    if kept then list else DropBindings(list)
  }

  ghost predicate Quiet(t: Probe, list: seq<Read>) {
    forall read :: read in list ==>
      && read.resource in t.world.resources
      && !Affects(t.world.db, t.world.resources, read, t.caller, t.world.scope, t.w)
  }

  ghost predicate SameFields(left: Input, right: Input, names: set<string>) {
    forall name :: name in names ==> (name in left <==> name in right) && (name in left ==> left[name] == right[name])
  }

  /** On a path that keeps its bindings, the input still carries the caller's value of every bound field. */
  ghost predicate Faithful(t: Probe, list: seq<Read>, input: Input, required: Option<set<string>>, kept: bool) {
    kept ==>
      && required.Some? && t.wanted <= required.value
      && SameFields(t.caller, input, t.wanted)
      && BoundInputs(list) <= t.wanted
  }

  /** What the caller's input does not reach, the SQL input of a faithful leaf does not reach either. */
  lemma LeafQuiet(t: Probe, list: seq<Read>, input: Input, required: Option<set<string>>, kept: bool)
    requires Quiet(t, Effective(list, kept)) && Faithful(t, list, input, required, kept)
    ensures AllRegistered(EnvOf(t.world, input), list)
    ensures NoneAffected(EnvOf(t.world, input), list, t.w)
  {
    forall read | read in list
      ensures read.resource in t.world.resources
      ensures !Affects(t.world.db, t.world.resources, read, input, t.world.scope, t.w)
    {
      var i :| 0 <= i < |list| && list[i] == read;
      if kept {
        if Affects(t.world.db, t.world.resources, read, input, t.world.scope, t.w) {
          SameReach(t, read, input);
        }
      } else {
        assert DropBindings(list)[i] == read.(bindings := []);
        assert read.(bindings := []) in DropBindings(list);
        if Affects(t.world.db, t.world.resources, read, input, t.world.scope, t.w) {
          DroppedIsWider(t.world.db, t.world.resources, read, input, t.caller, t.world.scope, t.w);
        }
      }
    }
  }

  lemma SameReach(t: Probe, read: Read, input: Input)
    requires Affects(t.world.db, t.world.resources, read, input, t.world.scope, t.w)
    requires forall b :: b in read.bindings ==> SameFields(t.caller, input, {b.input})
    ensures Affects(t.world.db, t.world.resources, read, t.caller, t.world.scope, t.w)
  {
    forall i, row: Row | 0 <= i < |read.bindings| && BindingHolds(t.world.db, read.bindings[i], input, row)
      ensures BindingHolds(t.world.db, read.bindings[i], t.caller, row)
    {
      assert read.bindings[i] in read.bindings;
      assert read.bindings[i].input in {read.bindings[i].input};
    }
  }

  ghost predicate Calm(t: Probe, list: seq<Read>, input: Input, required: Option<set<string>>, kept: bool) {
    Quiet(t, Effective(list, kept)) && Faithful(t, list, input, required, kept)
  }

  lemma CalmPart(
      t: Probe, all: seq<Read>, part: seq<Read>, input: Input, required: Option<set<string>>, kept: bool)
    requires Calm(t, all, input, required, kept)
    requires forall read :: read in part ==> read in all
    ensures Calm(t, part, input, required, kept)
  {
    forall read | read in Effective(part, kept) ensures read in Effective(all, kept) {
      if !kept {
        var i :| 0 <= i < |part| && DropBindings(part)[i] == read;
        assert part[i] in all;
        var k :| 0 <= k < |all| && all[k] == part[i];
        assert DropBindings(all)[k] == read;
      }
    }
  }

  /** Below a dropped path nothing has to be preserved any more. */
  lemma CalmDropped(t: Probe, list: seq<Read>, input: Input, next: Input, required: Option<set<string>>, kept: bool)
    requires Calm(t, DropBindings(list), input, required, kept)
    ensures Calm(t, list, next, None, false)
  {
    assert DropBindings(DropBindings(list)) == DropBindings(list);
    assert Effective(list, false) == Effective(DropBindings(list), kept);
  }

  /** A caller below an unkept path may carry any input. */
  lemma CalmUnkept(t: Probe, list: seq<Read>, input: Input, next: Input, required: Option<set<string>>)
    ensures Calm(t, list, input, required, false) ==> Calm(t, list, next, None, false)
  {
  }

  ghost predicate Unmoved(
    t: Probe, plan: Plan, input: Input, required: Option<set<string>>, hops: seq<Hop>, level: nat)
    requires Ranked(t.world.queries, t.rank) && Below(t.world.queries, t.rank, Calls(plan), level)
  {
    Execute(t.world, t.rank, plan, input, required, hops, level)
    == Execute(AfterWorld(t.world, t.w), t.rank, plan, input, required, hops, level)
  }

  lemma {:induction false} ReadsForAllHas(queries: Queries, rank: Ranking, plans: seq<NamedPlan>, level: nat, i: nat)
    requires Ranked(queries, rank) && Below(queries, rank, CallsOf(plans), level) && i < |plans|
    ensures Calls(plans[i].plan) <= CallsOf(plans)
    ensures forall read ::
      read in ReadsFor(queries, rank, plans[i].plan, level) ==> read in ReadsForAll(queries, rank, plans, level)
  {
    CallsOfPicked(plans, i);
    if i > 0 {
      ReadsForAllHas(queries, rank, plans[1..], level, i - 1);
    }
  }

  lemma {:induction false} CoverHas(plans: seq<NamedPlan>, i: nat)
    requires AllNativesCover(plans) && i < |plans|
    ensures NativesCover(plans[i].plan)
  {
    if i > 0 {
      CoverHas(plans[1..], i - 1);
    }
  }

  /** Non-interference of a plan: nothing it executes, and nothing it returns, changes with the write. */
  lemma {:induction false} PlanStable(
      t: Probe, plan: Plan, input: Input, required: Option<set<string>>, hops: seq<Hop>, level: nat, kept: bool)
    requires Ready(t) && Below(t.world.queries, t.rank, Calls(plan), level) && NativesCover(plan)
    requires Calm(t, ReadsFor(t.world.queries, t.rank, plan, level), input, required, kept)
    ensures Unmoved(t, plan, input, required, hops, level)
    decreases level, plan, 1
  {
    var list := ReadsFor(t.world.queries, t.rank, plan, level);
    match plan
    case Select(resource, options, count) =>
      LeafQuiet(t, list, input, required, kept);
      SelectLeafStable(t.world, t.w, resource, options, count, input);
    case Native(query) =>
      LeafQuiet(t, list, input, required, kept);
      NativeLeafStable(t.world, t.w, query, input);
    case Constant(_) =>
    case Call(_, _) => CallStable(t, plan, input, required, hops, level, kept);
    case Combine(children) => AllStable(t, children, input, required, hops, level, kept);
    case When(_, _, _) => WhenStable(t, plan, input, required, hops, level, kept);
    case Bind(parent, child, derive) => BindStable(t, plan, input, required, hops, level, kept);
    case Map(source, _) => PlanStable(t, source, input, required, hops, level, kept);
    case Choose(_, _) => ChooseStable(t, plan, input, required, hops, level, kept);
  }

  lemma {:induction false} WhenStable(
      t: Probe, plan: Plan, input: Input, required: Option<set<string>>, hops: seq<Hop>, level: nat, kept: bool)
    requires Ready(t) && Below(t.world.queries, t.rank, Calls(plan), level) && NativesCover(plan) && plan.When?
    requires Calm(t, ReadsFor(t.world.queries, t.rank, plan, level), input, required, kept)
    ensures Unmoved(t, plan, input, required, hops, level)
    decreases level, plan, 0
  {
    if plan.test(input).Returned? {
      var list := ReadsFor(t.world.queries, t.rank, plan, level);
      var taken := if plan.test(input).value then plan.yes else plan.no;
      CalmPart(t, list, ReadsFor(t.world.queries, t.rank, taken, level), input, required, kept);
      PlanStable(t, taken, input, required, hops, level, kept);
    }
  }

  lemma {:induction false} ChooseStable(
      t: Probe, plan: Plan, input: Input, required: Option<set<string>>, hops: seq<Hop>, level: nat, kept: bool)
    requires Ready(t) && Below(t.world.queries, t.rank, Calls(plan), level) && NativesCover(plan) && plan.Choose?
    requires Calm(t, ReadsFor(t.world.queries, t.rank, plan, level), input, required, kept)
    ensures Unmoved(t, plan, input, required, hops, level)
    decreases level, plan, 0
  {
    var choice := plan.choose(input);
    if choice.Returned? && Pick(plan.choices, choice.value).Some? {
      PickedCalls(plan.choices, choice.value);
      var i :| 0 <= i < |plan.choices| && plan.choices[i].plan == Pick(plan.choices, choice.value).value;
      ReadsForAllHas(t.world.queries, t.rank, plan.choices, level, i);
      CoverHas(plan.choices, i);
      CalmPart(
        t, ReadsFor(t.world.queries, t.rank, plan, level),
        ReadsFor(t.world.queries, t.rank, plan.choices[i].plan, level), input, required, kept);
      PlanStable(t, plan.choices[i].plan, input, required, hops, level, kept);
    }
  }

  lemma NativeLeafStable(world: World, w: RowWrite, query: NativeQuery, input: Input)
    requires Lawful(world.db) && Current(world.tables, w)
    requires forall read :: read in query.declared ==> Covering(read)
    requires NoneAffected(EnvOf(world, input), query.declared, w)
    ensures Views(EnvOf(world, input), query.declared) == Views(EnvOf(AfterWorld(world, w), input), query.declared)
  {
    var env := EnvOf(world, input);
    assert After(env, w) == EnvOf(AfterWorld(world, w), input);
    forall i | 0 <= i < |query.declared| ensures View(env, query.declared[i]) == View(After(env, w), query.declared[i]) {
      assert query.declared[i] in query.declared;
      ViewStable(env, w, query.declared[i]);
    }
  }

  lemma {:induction false} BindStable(
      t: Probe, plan: Plan, input: Input, required: Option<set<string>>, hops: seq<Hop>, level: nat, kept: bool)
    requires Ready(t) && Below(t.world.queries, t.rank, Calls(plan), level) && NativesCover(plan) && plan.Bind?
    requires Calm(t, ReadsFor(t.world.queries, t.rank, plan, level), input, required, kept)
    ensures Unmoved(t, plan, input, required, hops, level)
    decreases level, plan, 0
  {
    hide Execute, Quiet, Faithful;
    var list := ReadsFor(t.world.queries, t.rank, plan, level);
    var below := ReadsFor(t.world.queries, t.rank, plan.child, level);
    CalmPart(t, list, ReadsFor(t.world.queries, t.rank, plan.parent, level), input, required, kept);
    CalmPart(t, list, DropBindings(below), input, required, kept);
    PlanStable(t, plan.parent, input, required, hops, level, kept);
    var first := Execute(t.world, t.rank, plan.parent, input, required, hops, level);
    if first.outcome.Returned? {
      var derived := plan.derive(first.outcome.value, input);
      if derived.Returned? && derived.value.Some? {
        CalmDropped(t, below, input, derived.value.value, required, kept);
        PlanStable(t, plan.child, derived.value.value, None, hops + [Derived], level, false);
      }
    }
    BindRuns(t, plan, input, required, hops, level);
  }

  /** A bind does what its parent and its child do. */
  lemma BindRuns(t: Probe, plan: Plan, input: Input, required: Option<set<string>>, hops: seq<Hop>, level: nat)
    requires Ranked(t.world.queries, t.rank) && plan.Bind? && Below(t.world.queries, t.rank, Calls(plan), level)
    requires Unmoved(t, plan.parent, input, required, hops, level)
    requires var first := Execute(t.world, t.rank, plan.parent, input, required, hops, level);
      first.outcome.Returned? && plan.derive(first.outcome.value, input).Returned?
      && plan.derive(first.outcome.value, input).value.Some? ==>
        Unmoved(t, plan.child, plan.derive(first.outcome.value, input).value.value, None, hops + [Derived], level)
    ensures Unmoved(t, plan, input, required, hops, level)
  {
    hide Ranked, Below;
  }

  /** An identity hop keeps the bound fields or refuses; any other hop has dropped its bindings. */
  lemma {:induction false} CallStable(
      t: Probe, plan: Plan, input: Input, required: Option<set<string>>, hops: seq<Hop>, level: nat, kept: bool)
    requires Ready(t) && Below(t.world.queries, t.rank, Calls(plan), level) && plan.Call?
    requires Calm(t, ReadsFor(t.world.queries, t.rank, plan, level), input, required, kept)
    ensures Unmoved(t, plan, input, required, hops, level)
    decreases level, plan, 0
  {
    var query := t.world.queries[plan.endpoint];
    var below := ReadsFor(t.world.queries, t.rank, query.plan, t.rank[plan.endpoint]);
    var raw := if plan.mapper.Some? then plan.mapper.value(input) else Returned(Fields(input));
    if raw.Returned? && query.parse(raw.value).Returned? && query.parse(raw.value).value.Fields? {
      var parsed := query.parse(raw.value).value.input;
      var fields := if required.Some? then required.value + PreservedInputs(t.world.queries, t.rank, plan.endpoint) else {};
      var identity := plan.mapper.None? && !query.opaqueInput;
      var hop := if plan.mapper.Some? then Mapped else if query.opaqueInput then OpaqueInput else Identity;
      if !(identity && required.Some?) {
        if identity {
          assert !kept;
          CalmUnkept(t, below, input, parsed, required);
        } else {
          CalmDropped(t, below, input, parsed, required, kept);
        }
        PlanStable(t, query.plan, parsed, None, hops + [hop], t.rank[plan.endpoint], false);
      } else if Preserved(raw.value, parsed, fields) {
        CalmPreserved(t, below, input, parsed, required, fields, kept);
        PlanStable(t, query.plan, parsed, Some(fields), hops + [hop], t.rank[plan.endpoint], kept);
      }
    }
  }

  lemma CalmPreserved(
      t: Probe, list: seq<Read>, input: Input, parsed: Input, required: Option<set<string>>, fields: set<string>, kept: bool)
    requires Calm(t, list, input, required, kept)
    requires required.Some? && required.value <= fields && Preserved(Fields(input), parsed, fields)
    ensures Calm(t, list, parsed, Some(fields), kept)
  {
  }

  lemma {:induction false} AllStable(
      t: Probe, plans: seq<NamedPlan>, input: Input, required: Option<set<string>>, hops: seq<Hop>, level: nat, kept: bool)
    requires Ready(t) && Below(t.world.queries, t.rank, CallsOf(plans), level) && AllNativesCover(plans)
    requires Calm(t, ReadsForAll(t.world.queries, t.rank, plans, level), input, required, kept)
    ensures ExecuteAll(t.world, t.rank, plans, input, required, hops, level)
      == ExecuteAll(AfterWorld(t.world, t.w), t.rank, plans, input, required, hops, level)
    decreases level, plans, 0
  {
    if plans != [] {
      var list := ReadsForAll(t.world.queries, t.rank, plans, level);
      CalmPart(t, list, ReadsFor(t.world.queries, t.rank, plans[0].plan, level), input, required, kept);
      CalmPart(t, list, ReadsForAll(t.world.queries, t.rank, plans[1..], level), input, required, kept);
      PlanStable(t, plans[0].plan, input, required, hops, level, kept);
      AllStable(t, plans[1..], input, required, hops, level, kept);
    }
  }

  // -------------------------------------------------------- requested queries

  /** The fields a consumer compares selectors with. */
  function CallerInput(raw: Raw): Input {
    if raw.Fields? then raw.input else map[]
  }

  ghost predicate Registered(world: World, rank: Ranking, id: string)
    requires Ranked(world.queries, rank) && id in world.queries
  {
    && (forall read :: read in ManifestReads(world.queries, rank, id) ==> read.resource in world.resources)
    && (forall other :: other in world.queries ==> NativesCover(world.queries[other].plan))
  }

  /** A write that affects no manifest read of the endpoint for the caller's own input changes nothing. */
  lemma QueryStable(world: World, rank: Ranking, id: string, raw: Raw, w: RowWrite)
    requires Lawful(world.db) && Current(world.tables, w)
    requires Ranked(world.queries, rank) && id in world.queries && Registered(world, rank, id)
    requires forall read :: read in ManifestReads(world.queries, rank, id) ==>
      !Affects(world.db, world.resources, read, CallerInput(raw), world.scope, w)
    ensures RunQuery(world, rank, id, raw) == RunQuery(AfterWorld(world, w), rank, id, raw)
  {
    var query := world.queries[id];
    var required := PreservedInputs(world.queries, rank, id);
    if query.parse(raw).Returned? && query.parse(raw).value.Fields? {
      var parsed := query.parse(raw).value.input;
      if Preserved(raw, parsed, required) {
        var t := Probe(world, rank, w, CallerInput(raw), required);
        var list := ReadsFor(world.queries, rank, query.plan, rank[id]);
        assert Effective(list, !query.opaqueInput) == ManifestReads(world.queries, rank, id);
        assert Calm(t, list, parsed, Some(required), !query.opaqueInput);
        PlanStable(t, query.plan, parsed, Some(required), [], rank[id], !query.opaqueInput);
      }
    }
  }

  function AfterAll(world: World, writes: seq<RowWrite>): World {
    world.(tables := ApplyAll(world.tables, writes))
  }

  /**
   If an endpoint returns something else after a command than before it, one of the command's row writes
   affects one of the endpoint's manifest reads for the caller's input.
   */
  lemma {:induction false} DifferenceHasCause(world: World, rank: Ranking, id: string, raw: Raw, writes: seq<RowWrite>)
      returns (k: nat, read: Read)
    requires Lawful(world.db) && Sequential(world.tables, writes)
    requires Ranked(world.queries, rank) && id in world.queries && Registered(world, rank, id)
    requires RunQuery(world, rank, id, raw) != RunQuery(AfterAll(world, writes), rank, id, raw)
    ensures k < |writes| && read in ManifestReads(world.queries, rank, id)
    ensures Affects(world.db, world.resources, read, CallerInput(raw), world.scope, writes[k])
    decreases writes
  {
    assert AfterAll(world, []) == world;
    var w := writes[0];
    assert AfterAll(world, writes) == AfterAll(AfterWorld(world, w), writes[1..]);
    if cause :| cause in ManifestReads(world.queries, rank, id)
                && Affects(world.db, world.resources, cause, CallerInput(raw), world.scope, w) {
      k, read := 0, cause;
    } else {
      QueryStable(world, rank, id, raw, w);
      k, read := DifferenceHasCause(AfterWorld(world, w), rank, id, raw, writes[1..]);
      k := k + 1;
    }
  }
}
