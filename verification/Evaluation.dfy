/**
 What a plan evaluates to, as derivations: trees that show, node by node, which callback was asked, which branch
 was taken and which error stopped. The interpreter ends in a run exactly if some derivation does.
 */
module Evaluation {
  import opened Contracts
  import opened Facts
  import opened Reads
  import opened SelectTrees
  import opened SelectSound
  import opened Plans

  /** The run a node ends in, and the way it got there. */
  datatype Derivation = Derivation(run: Run, way: Way)

  datatype Way =
    | InvalidSelect | Counted | Shown | Answered | Fixed
    | TestThrew | Took(taken: bool, chosen: Derivation)
    | ChooseThrew | NoSuchChoice | Chose(index: nat, chosen: Derivation)
    | ParentThrew(parent: Derivation) | DeriveThrew(parent: Derivation) | NothingDerived(parent: Derivation)
    | Bound(parent: Derivation, child: Derivation)
    | SourceThrew(source: Derivation) | Projected(source: Derivation)
    | Combined(parts: seq<Derivation>) | Stopped(parts: seq<Derivation>)
    | MapperThrew | ParserThrew | NotFields | NotPreserved
    | Straight(fields: set<string>, called: Derivation) | Loose(hop: Hop, called: Derivation)

  /** The rows a declared read lets through, each seen through the columns of the read. */
  ghost predicate IsView(env: Env, read: Read, view: map<int, Record>) {
    var table := Table(env.tables, read.resource);
    && (forall id :: id in view <==>
          && id in table && read.resource in env.resources
          && Reaches(env.db, env.resources[read.resource], read, env.input, env.scope, Some(table[id])))
    && forall id :: id in view && id in table ==>
         && (forall column :: column in view[id] <==>
               if read.columns.Every? then read.resource in env.resources && column in env.resources[read.resource].columns
               else column in read.columns.names)
         && forall column :: column in view[id] ==> view[id][column] == Col(table[id], column)
  }

  ghost predicate AreViews(env: Env, list: seq<Read>, views: seq<map<int, Record>>) {
    |views| == |list| && forall i :: 0 <= i < |list| ==> IsView(env, list[i], views[i])
  }

  /** What an identity call has to hand on unchanged: what its caller has to, and what the endpoint's own reads bind. */
  ghost predicate AreKept(world: World, rank: Ranking, id: string, required: set<string>, fields: set<string>)
    requires Ranked(world.queries, rank) && id in world.queries
  {
    forall field :: field in fields <==>
      || field in required
      || exists read, b :: read in ManifestReads(world.queries, rank, id) && b in read.bindings && b.input == field
  }

  /** Handed on: there or not there alike, and with the same value. */
  ghost predicate HandedOn(raw: Raw, parsed: Input, fields: set<string>) {
    forall field :: field in fields ==>
      && raw.Fields? && (field in raw.input <==> field in parsed)
      && (field in raw.input ==> raw.input[field] == parsed[field])
  }

  predicate ReturnedBefore(parts: seq<Derivation>, count: int) {
    forall i :: 0 <= i < |parts| && i < count ==> parts[i].run.outcome.Returned?
  }

  function Together(parts: seq<Derivation>): seq<Executed> {
    if parts == [] then [] else parts[0].run.executed + Together(parts[1..])
  }

  predicate IsNamed(children: seq<NamedPlan>, name: string) {
    exists i :: 0 <= i < |children| && children[i].name == name
  }

  predicate IsLast(children: seq<NamedPlan>, name: string, i: int) {
    0 <= i < |children| && children[i].name == name && forall j :: i < j < |children| ==> children[j].name != name
  }

  /** Under each name what the last child of that name returned. */
  ghost predicate IsObject(children: seq<NamedPlan>, parts: seq<Derivation>, fields: map<string, Data>)
    requires |parts| == |children|
  {
    && (forall name :: name in fields <==> IsNamed(children, name))
    && forall name, i :: IsLast(children, name, i) ==> name in fields && parts[i].run.outcome == Returned(fields[name])
  }

  /** A tree that shows why the plan ends in its run. */
  ghost predicate Shows(
    world: World, rank: Ranking, d: Derivation, plan: Plan, input: Input, required: Option<set<string>>, hops: seq<Hop>)
    requires Ranked(world.queries, rank)
    decreases d, 1
  {
    match plan
    case Select(_, _, _) => d.run.executed == [Executed(plan, input, hops)] && ShowsSelect(world, d, plan, input)
    case Native(_) => d.run.executed == [Executed(plan, input, hops)] && ShowsNative(world, d, plan, input)
    case Constant(value) => d.way.Fixed? && d.run == Run(Returned(value), [])
    case When(_, _, _) => ShowsWhen(world, rank, d, plan, input, required, hops)
    case Choose(_, _) => ShowsChoose(world, rank, d, plan, input, required, hops)
    case Map(_, _) => ShowsMap(world, rank, d, plan, input, required, hops)
    case Bind(_, _, _) => ShowsBind(world, rank, d, plan, input, required, hops)
    case Combine(_) => ShowsCombine(world, rank, d, plan, input, required, hops)
    case Call(endpoint, _) => endpoint in world.queries && ShowsCall(world, rank, d, plan, input, required, hops)
  }

  ghost predicate ShowsNative(world: World, d: Derivation, plan: Plan, input: Input)
    requires plan.Native?
  {
    d.way.Answered?
    && exists views :: AreViews(EnvOf(world, input), plan.query.declared, views) && d.run.outcome == plan.query.answer(input, views)
  }

  ghost predicate ShowsWhen(
    world: World, rank: Ranking, d: Derivation, plan: Plan, input: Input, required: Option<set<string>>, hops: seq<Hop>)
    requires Ranked(world.queries, rank) && plan.When?
    decreases d, 0
  {
    var test := plan.test(input);
    || (d.way.TestThrew? && test.Threw? && d.run == Run(Threw(test.error), []))
    || (d.way.Took? && test == Returned(d.way.taken) && d.run == d.way.chosen.run
        && (d.way.taken ==> Shows(world, rank, d.way.chosen, plan.yes, input, required, hops))
        && (!d.way.taken ==> Shows(world, rank, d.way.chosen, plan.no, input, required, hops)))
  }

  ghost predicate ShowsChoose(
    world: World, rank: Ranking, d: Derivation, plan: Plan, input: Input, required: Option<set<string>>, hops: seq<Hop>)
    requires Ranked(world.queries, rank) && plan.Choose?
    decreases d, 0
  {
    var choice, choices := plan.choose(input), plan.choices;
    || (d.way.ChooseThrew? && choice.Threw? && d.run == Run(Threw(choice.error), []))
    || (d.way.NoSuchChoice? && choice.Returned? && d.run == Run(Threw("Unregistered query choice"), [])
        && forall i :: 0 <= i < |choices| ==> choices[i].name != choice.value)
    || (d.way.Chose? && d.way.index < |choices| && choice == Returned(choices[d.way.index].name)
        && (forall i :: 0 <= i < d.way.index ==> choices[i].name != choice.value)
        && d.run == d.way.chosen.run && Shows(world, rank, d.way.chosen, choices[d.way.index].plan, input, required, hops))
  }

  ghost predicate ShowsMap(
    world: World, rank: Ranking, d: Derivation, plan: Plan, input: Input, required: Option<set<string>>, hops: seq<Hop>)
    requires Ranked(world.queries, rank) && plan.Map?
    decreases d, 0
  {
    && (d.way.SourceThrew? || d.way.Projected?)
    && var source := d.way.source;
       && Shows(world, rank, source, plan.source, input, required, hops)
       && (d.way.SourceThrew? ==> source.run.outcome.Threw? && d.run == source.run)
       && (d.way.Projected? ==>
             source.run.outcome.Returned? && d.run == Run(plan.project(source.run.outcome.value, input), source.run.executed))
  }

  ghost predicate ShowsBind(
    world: World, rank: Ranking, d: Derivation, plan: Plan, input: Input, required: Option<set<string>>, hops: seq<Hop>)
    requires Ranked(world.queries, rank) && plan.Bind?
    decreases d, 0
  {
    && (d.way.ParentThrew? || d.way.DeriveThrew? || d.way.NothingDerived? || d.way.Bound?)
    && var first := d.way.parent;
       && Shows(world, rank, first, plan.parent, input, required, hops)
       && if d.way.ParentThrew? then first.run.outcome.Threw? && d.run == first.run
          else
            && first.run.outcome.Returned?
            && var next := plan.derive(first.run.outcome.value, input);
               || (d.way.DeriveThrew? && next.Threw? && d.run == Run(Threw(next.error), first.run.executed))
               || (d.way.NothingDerived? && next == Returned(None) && d.run == Run(Returned(List([])), first.run.executed))
               || (d.way.Bound? && next.Returned? && next.value.Some?
                   && Shows(world, rank, d.way.child, plan.child, next.value.value, None, hops + [Derived])
                   && d.run == Run(d.way.child.run.outcome, first.run.executed + d.way.child.run.executed))
  }

  ghost predicate ShowsCombine(
    world: World, rank: Ranking, d: Derivation, plan: Plan, input: Input, required: Option<set<string>>, hops: seq<Hop>)
    requires Ranked(world.queries, rank) && plan.Combine?
    decreases d, 0
  {
    && (d.way.Combined? || d.way.Stopped?)
    && var parts := d.way.parts;
       && |parts| <= |plan.children| && d.run.executed == Together(parts)
       && (forall i :: 0 <= i < |parts| ==> Shows(world, rank, parts[i], plan.children[i].plan, input, required, hops))
       && (d.way.Combined? ==>
             && |parts| == |plan.children| && ReturnedBefore(parts, |parts|)
             && d.run.outcome.Returned? && d.run.outcome.value.Object? && IsObject(plan.children, parts, d.run.outcome.value.fields))
       && (d.way.Stopped? ==>
             && parts != [] && ReturnedBefore(parts, |parts| - 1)
             && var last := parts[|parts| - 1]; last.run.outcome.Threw? && d.run.outcome == Threw(last.run.outcome.error))
  }

  ghost predicate ShowsSelect(world: World, d: Derivation, plan: Plan, input: Input)
    requires plan.Select?
  {
    var rows := Selected(EnvOf(world, input), plan.resource, plan.options, None);
    var compiles := Compiles(world.db, world.resources, input, plan.resource, plan.options, plan.count);
    || (d.way.InvalidSelect? && !compiles && d.run.outcome == Threw("INVALID_SELECT"))
    || (d.way.Counted? && compiles && plan.count && d.run.outcome == Returned(Atom(|rows|)))
    || (d.way.Shown? && compiles && !plan.count && d.run.outcome == Returned(world.render(plan.options, input, rows)))
  }

  /** A call maps the input or hands it on, has it parsed, and runs the endpoint's plan on the result. */
  ghost predicate ShowsCall(
    world: World, rank: Ranking, d: Derivation, plan: Plan, input: Input, required: Option<set<string>>, hops: seq<Hop>)
    requires Ranked(world.queries, rank) && plan.Call? && plan.endpoint in world.queries
    decreases d, 0
  {
    var query := world.queries[plan.endpoint];
    if plan.mapper.Some? && plan.mapper.value(input).Threw? then
      d.way.MapperThrew? && d.run == Run(Threw(plan.mapper.value(input).error), [])
    else
      var raw := if plan.mapper.Some? then plan.mapper.value(input).value else Fields(input);
      match query.parse(raw)
      case Threw(error) => d.way.ParserThrew? && d.run == Run(Threw(error), [])
      case Returned(NotAnObject) => d.way.NotFields? && d.run == Run(Threw("INVALID_QUERY_INPUT"), [])
      case Returned(Fields(parsed)) =>
        var straight := plan.mapper.None? && !query.opaqueInput;
        || (d.way.NotPreserved? && straight && required.Some? && d.run == Run(Threw("QUERY_INPUT_PRESERVATION_VIOLATION"), [])
            && exists fields :: AreKept(world, rank, plan.endpoint, required.value, fields) && !HandedOn(raw, parsed, fields))
        || (d.way.Straight? && straight && required.Some? && d.run == d.way.called.run
            && AreKept(world, rank, plan.endpoint, required.value, d.way.fields) && HandedOn(raw, parsed, d.way.fields)
            && Shows(world, rank, d.way.called, query.plan, parsed, Some(d.way.fields), hops + [Identity]))
        || (d.way.Loose? && !(straight && required.Some?) && d.run == d.way.called.run
            && d.way.hop == (if straight then Identity else if plan.mapper.Some? then Mapped else OpaqueInput)
            && Shows(world, rank, d.way.called, query.plan, parsed, None, hops + [d.way.hop]))
  }

  // ------------------------------------------------------------------ leaves

  lemma ViewExactly(env: Env, read: Read, view: map<int, Record>)
    ensures IsView(env, read, view) <==> view == View(env, read)
  {
    hide Reaches;
    var expected := View(env, read);
    forall id | id in expected ensures forall column :: column in expected[id] <==>
        if read.columns.Every? then read.resource in env.resources && column in env.resources[read.resource].columns
        else column in read.columns.names
    {
    }
    if IsView(env, read, view) {
      var table := Table(env.tables, read.resource);
      forall id ensures id in view <==> id in expected {
        assert id in expected <==> id in table && Admits(env, read, table[id]);
      }
      assert view.Keys == expected.Keys;
      forall id | id in view ensures view[id] == expected[id] {
        assert view[id].Keys == expected[id].Keys;
      }
    }
  }

  lemma ViewsExactly(env: Env, list: seq<Read>, views: seq<map<int, Record>>)
    ensures AreViews(env, list, views) <==> views == Views(env, list)
  {
    hide IsView, View;
    forall i | 0 <= i < |list| ensures IsView(env, list[i], Views(env, list)[i]) {
      ViewExactly(env, list[i], Views(env, list)[i]);
    }
    if AreViews(env, list, views) {
      forall i | 0 <= i < |list| ensures views[i] == Views(env, list)[i] {
        ViewExactly(env, list[i], views[i]);
      }
    }
  }

  lemma NativeExactly(world: World, d: Derivation, plan: Plan, input: Input)
    requires plan.Native? && d.way.Answered?
    ensures ShowsNative(world, d, plan, input) <==>
      d.run.outcome == plan.query.answer(input, Views(EnvOf(world, input), plan.query.declared))
  {
    hide AreViews;
    var env, list := EnvOf(world, input), plan.query.declared;
    ViewsExactly(env, list, Views(env, list));
    forall views ensures AreViews(env, list, views) <==> views == Views(env, list) {
      ViewsExactly(env, list, views);
    }
  }

  function SelectWay(world: World, plan: Plan, input: Input): Way
    requires plan.Select?
  {
    if !Compiles(world.db, world.resources, input, plan.resource, plan.options, plan.count) then InvalidSelect
    else if plan.count then Counted else Shown
  }

  lemma SelectExactly(world: World, d: Derivation, plan: Plan, input: Input)
    requires plan.Select?
    ensures ShowsSelect(world, d, plan, input) <==>
      d.way == SelectWay(world, plan, input) && d.run.outcome == RunSelect(world, plan.resource, plan.options, plan.count, input)
  {
    hide Compiles, Selected;
  }

  // ----------------------------------------------------------------- helpers

  lemma {:induction false} PickExactly(choices: seq<NamedPlan>, name: string)
    ensures Pick(choices, name).None? <==> forall i :: 0 <= i < |choices| ==> choices[i].name != name
    ensures forall i :: 0 <= i < |choices| && choices[i].name == name && (forall j :: 0 <= j < i ==> choices[j].name != name) ==>
      Pick(choices, name) == Some(choices[i].plan)
    decreases |choices|
  {
    if choices != [] && choices[0].name != name {
      var rest := choices[1..];
      PickExactly(rest, name);
      hide Pick;
      assert forall i :: 0 <= i < |rest| ==> rest[i] == choices[i + 1];
      if Pick(rest, name).Some? {
        assert exists i :: 0 <= i < |rest| && rest[i].name == name;
      }
      forall i | 0 <= i < |choices| && choices[i].name == name && (forall j :: 0 <= j < i ==> choices[j].name != name)
        ensures Pick(rest, name) == Some(choices[i].plan)
      {
        assert rest[i - 1] == choices[i];
        assert forall j :: 0 <= j < i - 1 ==> rest[j].name != name;
      }
    }
  }

  lemma FirstNamed(choices: seq<NamedPlan>, name: string) returns (i: nat)
    requires Pick(choices, name).Some?
    ensures i < |choices| && choices[i].name == name && forall j :: 0 <= j < i ==> choices[j].name != name
  {
    PickExactly(choices, name);
    i := 0;
    while choices[i].name != name
      invariant i < |choices| && forall j :: 0 <= j < i ==> choices[j].name != name
      decreases |choices| - i
    {
      i := i + 1;
    }
  }

  lemma KeptExactly(world: World, rank: Ranking, id: string, required: set<string>, fields: set<string>)
    requires Ranked(world.queries, rank) && id in world.queries
    ensures AreKept(world, rank, id, required, fields) <==> fields == required + PreservedInputs(world.queries, rank, id)
  {
    hide ManifestReads, Ranked;
    var preserved := PreservedInputs(world.queries, rank, id);
    forall field ensures field in preserved <==>
        exists read, b :: read in ManifestReads(world.queries, rank, id) && b in read.bindings && b.input == field
    {
    }
  }

  lemma HandedOnExactly(raw: Raw, parsed: Input, fields: set<string>)
    ensures HandedOn(raw, parsed, fields) <==> Preserved(raw, parsed, fields)
  {
    if fields != {} {
      var field :| field in fields;
    }
  }

  lemma {:induction false} LastNamed(children: seq<NamedPlan>, name: string) returns (i: nat)
    requires IsNamed(children, name)
    ensures IsLast(children, name, i)
    decreases |children|
  {
    var last := |children| - 1;
    if children[last].name == name {
      i := last;
    } else {
      var k :| 0 <= k < |children| && children[k].name == name;
      assert children[..last][k].name == name;
      i := LastNamed(children[..last], name);
    }
  }

  lemma OneObject(children: seq<NamedPlan>, parts: seq<Derivation>, left: map<string, Data>, right: map<string, Data>)
    requires |parts| == |children| && IsObject(children, parts, left) && IsObject(children, parts, right)
    ensures left == right
  {
    hide IsNamed, IsLast;
    forall name ensures name in left <==> name in right {
    }
    forall name | name in left ensures left[name] == right[name] {
      var i := LastNamed(children, name);
    }
    assert left.Keys == right.Keys;
  }

  lemma NamedThen(first: NamedPlan, below: seq<NamedPlan>, name: string, i: int)
    ensures IsNamed([first] + below, name) <==> first.name == name || IsNamed(below, name)
    ensures IsLast([first] + below, name, i) <==>
      (i > 0 && IsLast(below, name, i - 1)) || (i == 0 && first.name == name && !IsNamed(below, name))
  {
    var children := [first] + below;
    assert forall j :: 0 <= j < |below| ==> children[j + 1] == below[j];
    assert forall j :: 0 < j < |children| ==> children[j] == below[j - 1];
    if j :| 0 <= j < |below| && below[j].name == name {
      assert children[j + 1].name == name;
    }
    assert children[0].name == first.name;
  }

  lemma ObjectThen(
      first: NamedPlan, below: seq<NamedPlan>, part: Derivation, parts: seq<Derivation>, value: Data, rest: map<string, Data>)
    requires |parts| == |below| && part.run.outcome == Returned(value) && IsObject(below, parts, rest)
    ensures IsObject([first] + below, [part] + parts, map[first.name := value] + rest)
  {
    hide IsNamed;
    var children, all, fields := [first] + below, [part] + parts, map[first.name := value] + rest;
    forall name ensures name in fields <==> IsNamed(children, name) {
      NamedThen(first, below, name, 0);
    }
    forall name, i | IsLast(children, name, i) ensures name in fields && all[i].run.outcome == Returned(fields[name]) {
      NamedThen(first, below, name, i);
      assert i > 0 ==> all[i] == parts[i - 1];
    }
  }

  lemma EmptyObject()
    ensures IsObject([], [], map[]) && Together([]) == []
  {
  }

  // ----------------------------------------------- children in their order

  /** The children ran one after the other, as far as the parts go. */
  ghost predicate RanInOrder(
    world: World, rank: Ranking, plans: seq<NamedPlan>, parts: seq<Derivation>, input: Input, required: Option<set<string>>,
    hops: seq<Hop>, level: nat)
    requires Ranked(world.queries, rank) && Below(world.queries, rank, CallsOf(plans), level)
  {
    |parts| <= |plans| && forall i :: 0 <= i < |parts| ==>
      Calls(plans[i].plan) <= CallsOf(plans)
      && parts[i].run == Execute(world, rank, plans[i].plan, input, required, hops, level)
  }

  lemma {:induction false} OrderDecides(
      world: World, rank: Ranking, plans: seq<NamedPlan>, parts: seq<Derivation>, input: Input, required: Option<set<string>>,
      hops: seq<Hop>, level: nat)
    requires Ranked(world.queries, rank) && Below(world.queries, rank, CallsOf(plans), level)
    requires RanInOrder(world, rank, plans, parts, input, required, hops, level)
    ensures var (fields, executed) := ExecuteAll(world, rank, plans, input, required, hops, level);
      && (ReturnedBefore(parts, |parts|) && |parts| == |plans| ==>
            fields.Returned? && executed == Together(parts) && IsObject(plans, parts, fields.value))
      && (parts != [] && ReturnedBefore(parts, |parts| - 1) && parts[|parts| - 1].run.outcome.Threw? ==>
            fields == Threw(parts[|parts| - 1].run.outcome.error) && executed == Together(parts))
    decreases |plans|
  {
    EmptyObject();
    hide Execute, RanInOrder, Together, IsObject, Calls, CallsOf, Below, Ranked;
    if parts == [] {
      return;
    }
    var first, rest := parts[0], parts[1..];
    OrderBelow(world, rank, plans, parts, input, required, hops, level);
    if first.run.outcome.Threw? {
      StopsAtFirst(parts);
    } else {
      OrderDecides(world, rank, plans[1..], rest, input, required, hops, level);
      FirstThenRest(parts);
      if ReturnedBefore(parts, |parts|) && |parts| == |plans| {
        assert plans == [plans[0]] + plans[1..] && parts == [first] + rest;
        ObjectThen(
          plans[0], plans[1..], first, rest, first.run.outcome.value,
          ExecuteAll(world, rank, plans[1..], input, required, hops, level).0.value);
      }
    }
  }

  lemma OrderBelow(
      world: World, rank: Ranking, plans: seq<NamedPlan>, parts: seq<Derivation>, input: Input, required: Option<set<string>>,
      hops: seq<Hop>, level: nat)
    requires Ranked(world.queries, rank) && Below(world.queries, rank, CallsOf(plans), level) && parts != []
    requires RanInOrder(world, rank, plans, parts, input, required, hops, level)
    ensures plans != [] && Below(world.queries, rank, CallsOf(plans[1..]), level)
    ensures RanInOrder(world, rank, plans[1..], parts[1..], input, required, hops, level)
    ensures parts[0].run == Execute(world, rank, plans[0].plan, input, required, hops, level)
  {
    hide Execute, Ranked;
    forall i | 0 <= i < |parts| - 1
      ensures Calls(plans[1..][i].plan) <= CallsOf(plans[1..])
      ensures parts[1..][i].run == Execute(world, rank, plans[1..][i].plan, input, required, hops, level)
    {
      CallsOfPicked(plans[1..], i);
      assert plans[1..][i] == plans[i + 1] && parts[1..][i] == parts[i + 1];
    }
  }

  lemma StopsAtFirst(parts: seq<Derivation>)
    requires parts != [] && parts[0].run.outcome.Threw?
    ensures ReturnedBefore(parts, |parts| - 1) ==> |parts| == 1 && Together(parts) == parts[0].run.executed
    ensures !ReturnedBefore(parts, |parts|)
  {
    assert |parts| == 1 ==> parts[1..] == [];
  }

  lemma FirstThenRest(parts: seq<Derivation>)
    requires parts != [] && parts[0].run.outcome.Returned?
    ensures Together(parts) == parts[0].run.executed + Together(parts[1..])
    ensures ReturnedBefore(parts, |parts|) <==> ReturnedBefore(parts[1..], |parts| - 1)
    ensures |parts| == 1 ==> ReturnedBefore(parts, |parts|)
    ensures |parts| > 1 ==> parts[1..][|parts| - 2] == parts[|parts| - 1]
    ensures |parts| > 1 && ReturnedBefore(parts, |parts| - 1) ==> ReturnedBefore(parts[1..], |parts| - 2)
  {
    var rest := parts[1..];
    assert forall i :: 0 <= i < |rest| ==> rest[i] == parts[i + 1];
    assert ReturnedBefore(rest, |rest|) ==> forall i :: 0 < i < |parts| ==> parts[i] == rest[i - 1];
  }

  // ------------------------------------------------------- a derivation each

  /** Whatever the interpreter ends in has a derivation. */
  lemma {:induction false} HasDerivation(
      world: World, rank: Ranking, plan: Plan, input: Input, required: Option<set<string>>, hops: seq<Hop>, level: nat)
      returns (d: Derivation)
    requires Ranked(world.queries, rank) && Below(world.queries, rank, Calls(plan), level)
    ensures Shows(world, rank, d, plan, input, required, hops)
    ensures d.run == Execute(world, rank, plan, input, required, hops, level)
    decreases level, plan, 3
  {
    hide ShowsSelect, ShowsNative, ShowsWhen, ShowsChoose, ShowsMap, ShowsBind, ShowsCombine, ShowsCall, Ranked, RunSelect;
    match plan
    case Select(_, _, _) =>
      d := Derivation(Execute(world, rank, plan, input, required, hops, level), SelectWay(world, plan, input));
      SelectExactly(world, d, plan, input);
    case Native(_) =>
      d := Derivation(Execute(world, rank, plan, input, required, hops, level), Answered);
      NativeExactly(world, d, plan, input);
    case Constant(_) => d := Derivation(Execute(world, rank, plan, input, required, hops, level), Way.Fixed);
    case When(_, _, _) => d := WhenDerived(world, rank, plan, input, required, hops, level);
    case Choose(_, _) => d := ChooseDerived(world, rank, plan, input, required, hops, level);
    case Map(_, _) => d := MapDerived(world, rank, plan, input, required, hops, level);
    case Bind(_, _, _) => d := BindDerived(world, rank, plan, input, required, hops, level);
    case Combine(_) => d := CombineDerived(world, rank, plan, input, required, hops, level);
    case Call(_, _) => d := CallDerived(world, rank, plan, input, required, hops, level);
  }

  lemma {:induction false} WhenDerived(
      world: World, rank: Ranking, plan: Plan, input: Input, required: Option<set<string>>, hops: seq<Hop>, level: nat)
      returns (d: Derivation)
    requires Ranked(world.queries, rank) && Below(world.queries, rank, Calls(plan), level) && plan.When?
    ensures ShowsWhen(world, rank, d, plan, input, required, hops)
    ensures d.run == Execute(world, rank, plan, input, required, hops, level)
    decreases level, plan, 2
  {
    hide Shows, Ranked;
    var test := plan.test(input);
    if test.Threw? {
      d := Derivation(Run(Threw(test.error), []), TestThrew);
    } else {
      var chosen := HasDerivation(world, rank, if test.value then plan.yes else plan.no, input, required, hops, level);
      d := Derivation(chosen.run, Took(test.value, chosen));
    }
  }

  lemma {:induction false} ChooseDerived(
      world: World, rank: Ranking, plan: Plan, input: Input, required: Option<set<string>>, hops: seq<Hop>, level: nat)
      returns (d: Derivation)
    requires Ranked(world.queries, rank) && Below(world.queries, rank, Calls(plan), level) && plan.Choose?
    ensures ShowsChoose(world, rank, d, plan, input, required, hops)
    ensures d.run == Execute(world, rank, plan, input, required, hops, level)
    decreases level, plan, 2
  {
    hide Shows, Ranked, Pick;
    var choice := plan.choose(input);
    if choice.Threw? {
      d := Derivation(Run(Threw(choice.error), []), ChooseThrew);
    } else {
      PickExactly(plan.choices, choice.value);
      if Pick(plan.choices, choice.value).None? {
        d := Derivation(Run(Threw("Unregistered query choice"), []), NoSuchChoice);
      } else {
        var i := FirstNamed(plan.choices, choice.value);
        CallsOfPicked(plan.choices, i);
        var chosen := HasDerivation(world, rank, plan.choices[i].plan, input, required, hops, level);
        d := Derivation(chosen.run, Chose(i, chosen));
      }
    }
  }

  lemma {:induction false} MapDerived(
      world: World, rank: Ranking, plan: Plan, input: Input, required: Option<set<string>>, hops: seq<Hop>, level: nat)
      returns (d: Derivation)
    requires Ranked(world.queries, rank) && Below(world.queries, rank, Calls(plan), level) && plan.Map?
    ensures ShowsMap(world, rank, d, plan, input, required, hops)
    ensures d.run == Execute(world, rank, plan, input, required, hops, level)
    decreases level, plan, 2
  {
    hide Shows, Ranked;
    var source := HasDerivation(world, rank, plan.source, input, required, hops, level);
    d := if source.run.outcome.Threw? then Derivation(source.run, SourceThrew(source))
         else Derivation(Run(plan.project(source.run.outcome.value, input), source.run.executed), Projected(source));
  }

  lemma {:induction false} BindDerived(
      world: World, rank: Ranking, plan: Plan, input: Input, required: Option<set<string>>, hops: seq<Hop>, level: nat)
      returns (d: Derivation)
    requires Ranked(world.queries, rank) && Below(world.queries, rank, Calls(plan), level) && plan.Bind?
    ensures ShowsBind(world, rank, d, plan, input, required, hops)
    ensures d.run == Execute(world, rank, plan, input, required, hops, level)
    decreases level, plan, 2
  {
    hide Shows, Ranked;
    var parent := HasDerivation(world, rank, plan.parent, input, required, hops, level);
    if parent.run.outcome.Threw? {
      d := Derivation(parent.run, ParentThrew(parent));
    } else {
      var next := plan.derive(parent.run.outcome.value, input);
      if next.Threw? {
        d := Derivation(Run(Threw(next.error), parent.run.executed), DeriveThrew(parent));
      } else if next.value.None? {
        d := Derivation(Run(Returned(List([])), parent.run.executed), NothingDerived(parent));
      } else {
        var child := HasDerivation(world, rank, plan.child, next.value.value, None, hops + [Derived], level);
        d := Derivation(Run(child.run.outcome, parent.run.executed + child.run.executed), Way.Bound(parent, child));
      }
    }
  }

  lemma {:induction false} PartsDerived(
      world: World, rank: Ranking, plans: seq<NamedPlan>, input: Input, required: Option<set<string>>, hops: seq<Hop>, level: nat)
      returns (parts: seq<Derivation>)
    requires Ranked(world.queries, rank) && Below(world.queries, rank, CallsOf(plans), level)
    ensures RanInOrder(world, rank, plans, parts, input, required, hops, level)
    ensures forall i :: 0 <= i < |parts| ==> Shows(world, rank, parts[i], plans[i].plan, input, required, hops)
    ensures ReturnedBefore(parts, |parts|) ==> |parts| == |plans|
    ensures !ReturnedBefore(parts, |parts|) ==> ReturnedBefore(parts, |parts| - 1) && parts[|parts| - 1].run.outcome.Threw?
    decreases level, plans, 0
  {
    hide Shows, Ranked, Execute;
    if plans == [] {
      parts := [];
    } else {
      var first := HasDerivation(world, rank, plans[0].plan, input, required, hops, level);
      if first.run.outcome.Threw? {
        parts := [first];
      } else {
        var rest := PartsDerived(world, rank, plans[1..], input, required, hops, level);
        parts := [first] + rest;
        PartsThen(world, rank, plans, first, rest, input, required, hops, level);
      }
    }
  }

  lemma BelowFirst(world: World, rank: Ranking, plans: seq<NamedPlan>, level: nat)
    requires Below(world.queries, rank, CallsOf(plans), level) && plans != []
    ensures Below(world.queries, rank, Calls(plans[0].plan), level) && Below(world.queries, rank, CallsOf(plans[1..]), level)
  {
  }

  lemma PartsThen(
      world: World, rank: Ranking, plans: seq<NamedPlan>, first: Derivation, rest: seq<Derivation>, input: Input,
      required: Option<set<string>>, hops: seq<Hop>, level: nat)
    requires Ranked(world.queries, rank) && Below(world.queries, rank, CallsOf(plans), level) && plans != []
    requires first.run == Execute(world, rank, plans[0].plan, input, required, hops, level) && first.run.outcome.Returned?
    requires Shows(world, rank, first, plans[0].plan, input, required, hops)
    requires RanInOrder(world, rank, plans[1..], rest, input, required, hops, level)
    requires forall i :: 0 <= i < |rest| ==> Shows(world, rank, rest[i], plans[1..][i].plan, input, required, hops)
    ensures var parts := [first] + rest;
      && RanInOrder(world, rank, plans, parts, input, required, hops, level)
      && (forall i :: 0 <= i < |parts| ==> Shows(world, rank, parts[i], plans[i].plan, input, required, hops))
      && (ReturnedBefore(parts, |parts|) <==> ReturnedBefore(rest, |rest|))
      && (rest != [] && ReturnedBefore(rest, |rest| - 1) ==> ReturnedBefore(parts, |parts| - 1))
  {
    hide Shows, Ranked, Execute, Calls, CallsOf;
    var parts := [first] + rest;
    BelowFirst(world, rank, plans, level);
    forall i | 0 <= i < |parts|
      ensures Calls(plans[i].plan) <= CallsOf(plans)
      ensures parts[i].run == Execute(world, rank, plans[i].plan, input, required, hops, level)
      ensures Shows(world, rank, parts[i], plans[i].plan, input, required, hops)
    {
      CallsOfPicked(plans, i);
      assert i > 0 ==> parts[i] == rest[i - 1] && plans[i] == plans[1..][i - 1];
    }
    assert forall i :: 0 < i < |parts| ==> parts[i] == rest[i - 1];
    assert forall i :: 0 <= i < |rest| ==> rest[i] == parts[i + 1];
  }

  lemma {:induction false} CombineDerived(
      world: World, rank: Ranking, plan: Plan, input: Input, required: Option<set<string>>, hops: seq<Hop>, level: nat)
      returns (d: Derivation)
    requires Ranked(world.queries, rank) && Below(world.queries, rank, Calls(plan), level) && plan.Combine?
    ensures ShowsCombine(world, rank, d, plan, input, required, hops)
    ensures d.run == Execute(world, rank, plan, input, required, hops, level)
    decreases level, plan, 2
  {
    hide Shows, Ranked, ExecuteAll, Together, IsObject;
    var parts := PartsDerived(world, rank, plan.children, input, required, hops, level);
    OrderDecides(world, rank, plan.children, parts, input, required, hops, level);
    var (fields, executed) := ExecuteAll(world, rank, plan.children, input, required, hops, level);
    if ReturnedBefore(parts, |parts|) {
      d := Derivation(Run(Returned(Object(fields.value)), executed), Combined(parts));
    } else {
      d := Derivation(Run(Threw(fields.error), executed), Stopped(parts));
    }
  }

  lemma {:induction false} CallDerived(
      world: World, rank: Ranking, plan: Plan, input: Input, required: Option<set<string>>, hops: seq<Hop>, level: nat)
      returns (d: Derivation)
    requires Ranked(world.queries, rank) && Below(world.queries, rank, Calls(plan), level) && plan.Call?
    ensures ShowsCall(world, rank, d, plan, input, required, hops)
    ensures d.run == Execute(world, rank, plan, input, required, hops, level)
    decreases level, plan, 2
  {
    hide Shows, AreKept, HandedOn, Preserved, PreservedInputs;
    var query := world.queries[plan.endpoint];
    var raw := if plan.mapper.Some? then plan.mapper.value(input) else Returned(Fields(input));
    if raw.Threw? {
      d := Derivation(Run(Threw(raw.error), []), MapperThrew);
    } else if query.parse(raw.value).Threw? {
      d := Derivation(Run(Threw(query.parse(raw.value).error), []), ParserThrew);
    } else if query.parse(raw.value).value.NotAnObject? {
      d := Derivation(Run(Threw("INVALID_QUERY_INPUT"), []), NotFields);
    } else {
      var parsed := query.parse(raw.value).value.input;
      var fields := if required.Some? then required.value + PreservedInputs(world.queries, rank, plan.endpoint) else {};
      HandedOnExactly(raw.value, parsed, fields);
      if required.Some? {
        KeptExactly(world, rank, plan.endpoint, required.value, fields);
      }
      d := ParsedDerived(world, rank, plan, raw.value, parsed, fields, input, required, hops, level);
    }
  }

  lemma {:induction false} ParsedDerived(
      world: World, rank: Ranking, plan: Plan, raw: Raw, parsed: Input, fields: set<string>, input: Input,
      required: Option<set<string>>, hops: seq<Hop>, level: nat)
      returns (d: Derivation)
    requires Ranked(world.queries, rank) && Below(world.queries, rank, Calls(plan), level) && plan.Call?
    requires Returned(raw) == if plan.mapper.Some? then plan.mapper.value(input) else Returned(Fields(input))
    requires world.queries[plan.endpoint].parse(raw) == Returned(Fields(parsed))
    requires fields == if required.Some? then required.value + PreservedInputs(world.queries, rank, plan.endpoint) else {}
    requires required.Some? ==> AreKept(world, rank, plan.endpoint, required.value, fields)
    requires HandedOn(raw, parsed, fields) <==> Preserved(raw, parsed, fields)
    ensures ShowsCall(world, rank, d, plan, input, required, hops)
    ensures d.run == ExecuteCall(world, rank, plan, input, required, hops, level)
    decreases level, plan, 1
  {
    hide Shows, AreKept, HandedOn, Preserved, PreservedInputs, Execute;
    var query, below := world.queries[plan.endpoint], rank[plan.endpoint];
    var straight := plan.mapper.None? && !query.opaqueInput;
    if straight && required.Some? {
      if Preserved(raw, parsed, fields) {
        var called := HasDerivation(world, rank, query.plan, parsed, Some(fields), hops + [Identity], below);
        d := Derivation(called.run, Straight(fields, called));
      } else {
        d := Derivation(Run(Threw("QUERY_INPUT_PRESERVATION_VIOLATION"), []), NotPreserved);
      }
    } else {
      var hop := if straight then Identity else if plan.mapper.Some? then Mapped else OpaqueInput;
      var called := HasDerivation(world, rank, query.plan, parsed, None, hops + [hop], below);
      d := Derivation(called.run, Loose(hop, called));
    }
  }

  // ------------------------------------------------------ and no other run

  /** Every derivation ends in the run of the interpreter. */
  lemma {:induction false} DerivationEnds(
      world: World, rank: Ranking, d: Derivation, plan: Plan, input: Input, required: Option<set<string>>, hops: seq<Hop>,
      level: nat)
    requires Ranked(world.queries, rank) && Below(world.queries, rank, Calls(plan), level)
    requires Shows(world, rank, d, plan, input, required, hops)
    ensures d.run == Execute(world, rank, plan, input, required, hops, level)
    decreases d, 1
  {
    hide ShowsSelect, ShowsNative, ShowsWhen, ShowsChoose, ShowsMap, ShowsBind, ShowsCombine, ShowsCall, Ranked, RunSelect;
    match plan
    case Select(_, _, _) => SelectExactly(world, d, plan, input);
    case Native(_) =>
      NativeIsAnswered(world, d, plan, input);
      NativeExactly(world, d, plan, input);
    case Constant(_) =>
    case When(_, _, _) => WhenEnds(world, rank, d, plan, input, required, hops, level);
    case Choose(_, _) => ChooseEnds(world, rank, d, plan, input, required, hops, level);
    case Map(_, _) => MapEnds(world, rank, d, plan, input, required, hops, level);
    case Bind(_, _, _) => BindEnds(world, rank, d, plan, input, required, hops, level);
    case Combine(_) => CombineEnds(world, rank, d, plan, input, required, hops, level);
    case Call(_, _) => CallEnds(world, rank, d, plan, input, required, hops, level);
  }

  lemma NativeIsAnswered(world: World, d: Derivation, plan: Plan, input: Input)
    ensures plan.Native? && ShowsNative(world, d, plan, input) ==> d.way.Answered?
  {
  }

  lemma {:induction false} WhenEnds(
      world: World, rank: Ranking, d: Derivation, plan: Plan, input: Input, required: Option<set<string>>, hops: seq<Hop>,
      level: nat)
    requires Ranked(world.queries, rank) && Below(world.queries, rank, Calls(plan), level) && plan.When?
    requires ShowsWhen(world, rank, d, plan, input, required, hops)
    ensures d.run == Execute(world, rank, plan, input, required, hops, level)
    decreases d, 0
  {
    hide Shows, Ranked;
    if d.way.Took? {
      DerivationEnds(world, rank, d.way.chosen, if d.way.taken then plan.yes else plan.no, input, required, hops, level);
    }
  }

  lemma {:induction false} ChooseEnds(
      world: World, rank: Ranking, d: Derivation, plan: Plan, input: Input, required: Option<set<string>>, hops: seq<Hop>,
      level: nat)
    requires Ranked(world.queries, rank) && Below(world.queries, rank, Calls(plan), level) && plan.Choose?
    requires ShowsChoose(world, rank, d, plan, input, required, hops)
    ensures d.run == Execute(world, rank, plan, input, required, hops, level)
    decreases d, 0
  {
    hide Shows, Ranked, Pick;
    if plan.choose(input).Returned? {
      PickExactly(plan.choices, plan.choose(input).value);
      PickedCalls(plan.choices, plan.choose(input).value);
    }
    if d.way.Chose? {
      CallsOfPicked(plan.choices, d.way.index);
      DerivationEnds(world, rank, d.way.chosen, plan.choices[d.way.index].plan, input, required, hops, level);
    }
  }

  lemma {:induction false} MapEnds(
      world: World, rank: Ranking, d: Derivation, plan: Plan, input: Input, required: Option<set<string>>, hops: seq<Hop>,
      level: nat)
    requires Ranked(world.queries, rank) && Below(world.queries, rank, Calls(plan), level) && plan.Map?
    requires ShowsMap(world, rank, d, plan, input, required, hops)
    ensures d.run == Execute(world, rank, plan, input, required, hops, level)
    decreases d, 0
  {
    hide Shows, Ranked;
    DerivationEnds(world, rank, d.way.source, plan.source, input, required, hops, level);
  }

  lemma {:induction false} BindEnds(
      world: World, rank: Ranking, d: Derivation, plan: Plan, input: Input, required: Option<set<string>>, hops: seq<Hop>,
      level: nat)
    requires Ranked(world.queries, rank) && Below(world.queries, rank, Calls(plan), level) && plan.Bind?
    requires ShowsBind(world, rank, d, plan, input, required, hops)
    ensures d.run == Execute(world, rank, plan, input, required, hops, level)
    decreases d, 0
  {
    hide Shows, Ranked;
    DerivationEnds(world, rank, d.way.parent, plan.parent, input, required, hops, level);
    if d.way.Bound? {
      var next := plan.derive(d.way.parent.run.outcome.value, input).value.value;
      DerivationEnds(world, rank, d.way.child, plan.child, next, None, hops + [Derived], level);
    }
  }

  lemma {:induction false} CombineEnds(
      world: World, rank: Ranking, d: Derivation, plan: Plan, input: Input, required: Option<set<string>>, hops: seq<Hop>,
      level: nat)
    requires Ranked(world.queries, rank) && Below(world.queries, rank, Calls(plan), level) && plan.Combine?
    requires ShowsCombine(world, rank, d, plan, input, required, hops)
    ensures d.run == Execute(world, rank, plan, input, required, hops, level)
    decreases d, 0
  {
    hide Shows, Ranked, ExecuteAll, Together, IsObject, IsLast;
    var parts := d.way.parts;
    forall i | 0 <= i < |parts|
      ensures Calls(plan.children[i].plan) <= CallsOf(plan.children)
      ensures parts[i].run == Execute(world, rank, plan.children[i].plan, input, required, hops, level)
    {
      CallsOfPicked(plan.children, i);
      DerivationEnds(world, rank, parts[i], plan.children[i].plan, input, required, hops, level);
    }
    OrderDecides(world, rank, plan.children, parts, input, required, hops, level);
    if d.way.Combined? {
      var (fields, executed) := ExecuteAll(world, rank, plan.children, input, required, hops, level);
      OneObject(plan.children, parts, d.run.outcome.value.fields, fields.value);
    }
  }

  lemma {:induction false} CallEnds(
      world: World, rank: Ranking, d: Derivation, plan: Plan, input: Input, required: Option<set<string>>, hops: seq<Hop>,
      level: nat)
    requires Ranked(world.queries, rank) && Below(world.queries, rank, Calls(plan), level) && plan.Call?
    requires plan.endpoint in world.queries && ShowsCall(world, rank, d, plan, input, required, hops)
    ensures d.run == Execute(world, rank, plan, input, required, hops, level)
    decreases d, 0
  {
    hide Shows, AreKept, HandedOn, Preserved, PreservedInputs;
    var query, below := world.queries[plan.endpoint], rank[plan.endpoint];
    var raw := if plan.mapper.Some? then plan.mapper.value(input) else Returned(Fields(input));
    if raw.Returned? && query.parse(raw.value).Returned? && query.parse(raw.value).value.Fields? {
      var parsed := query.parse(raw.value).value.input;
      if required.Some? {
        KeptIsUnique(world, rank, plan.endpoint, required.value);
        HandedOnExactly(raw.value, parsed, required.value + PreservedInputs(world.queries, rank, plan.endpoint));
      }
      if d.way.Straight? {
        DerivationEnds(world, rank, d.way.called, query.plan, parsed, Some(d.way.fields), hops + [Identity], below);
      } else if d.way.Loose? {
        DerivationEnds(world, rank, d.way.called, query.plan, parsed, None, hops + [d.way.hop], below);
      }
    }
  }

  lemma KeptIsUnique(world: World, rank: Ranking, id: string, required: set<string>)
    requires Ranked(world.queries, rank) && id in world.queries
    ensures forall fields ::
      AreKept(world, rank, id, required, fields) <==> fields == required + PreservedInputs(world.queries, rank, id)
  {
    hide AreKept, PreservedInputs, Ranked;
    forall fields ensures AreKept(world, rank, id, required, fields) <==> fields == required + PreservedInputs(world.queries, rank, id) {
      KeptExactly(world, rank, id, required, fields);
    }
  }

  /** The interpreter ends in a run exactly if some derivation shows it. */
  lemma ExecuteExactly(
      world: World, rank: Ranking, plan: Plan, input: Input, required: Option<set<string>>, hops: seq<Hop>, level: nat, run: Run)
    requires Ranked(world.queries, rank) && Below(world.queries, rank, Calls(plan), level)
    ensures Execute(world, rank, plan, input, required, hops, level) == run <==>
      exists d :: Shows(world, rank, d, plan, input, required, hops) && d.run == run
  {
    hide Shows, Execute, Ranked, Calls;
    var derived := HasDerivation(world, rank, plan, input, required, hops, level);
    if d :| Shows(world, rank, d, plan, input, required, hops) && d.run == run {
      DerivationEnds(world, rank, d, plan, input, required, hops, level);
    }
  }

  // ---------------------------------------------------------------- queries

  /** What a caller's query has to hand to its plan unchanged, and how it may end before it gets there. */
  ghost predicate AnswersQuery(world: World, rank: Ranking, id: string, raw: Raw, run: Run)
    requires Ranked(world.queries, rank) && id in world.queries
  {
    match world.queries[id].parse(raw)
    case Threw(error) => run == Run(Threw(error), [])
    case Returned(NotAnObject) => run == Run(Threw("INVALID_QUERY_INPUT"), [])
    case Returned(Fields(parsed)) =>
      exists fields :: AreKept(world, rank, id, {}, fields)
        && if HandedOn(raw, parsed, fields)
           then exists d :: Shows(world, rank, d, world.queries[id].plan, parsed, Some(fields), []) && d.run == run
           else run == Run(Threw("QUERY_INPUT_PRESERVATION_VIOLATION"), [])
  }

  /** `query` answers exactly that. */
  lemma QueryExactly(world: World, rank: Ranking, id: string, raw: Raw, run: Run)
    requires Ranked(world.queries, rank) && id in world.queries
    ensures RunQuery(world, rank, id, raw) == run <==> AnswersQuery(world, rank, id, raw, run)
  {
    hide Shows, Execute, AreKept, HandedOn, Preserved, PreservedInputs, Calls;
    var query := world.queries[id];
    if query.parse(raw).Returned? && query.parse(raw).value.Fields? {
      var parsed := query.parse(raw).value.input;
      var fields := PreservedInputs(world.queries, rank, id);
      KeptIsUnique(world, rank, id, {});
      assert {} + fields == fields;
      HandedOnExactly(raw, parsed, fields);
      ExecuteExactly(world, rank, query.plan, parsed, Some(fields), [], rank[id], run);
    }
  }
}
