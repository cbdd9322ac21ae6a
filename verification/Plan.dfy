/** Query plans, the read dependencies compiled from them, and the interpreter they must agree with. */
module Plans {
  import opened Contracts
  import opened Facts
  import opened Reads
  import opened SelectTrees

  // ------------------------------------------------------------------ syntax

  datatype Data = Atom(token: int) | List(items: seq<Data>) | Object(fields: map<string, Data>)

  /** What a caller or a mapper hands to a parser. */
  datatype Raw = Fields(input: Input) | NotAnObject

  /**
   SQL compiled ahead of time. Its answer is any function of the input and, for each declared read, of
   the visible rows that satisfy the read, seen through the read's columns.
   */
  datatype NativeQuery = NativeQuery(
    declared: seq<Read>, answer: (Input, seq<map<int, Record>>) -> Outcome<Data>)

  /** Callbacks are arbitrary functions that may throw. */
  datatype Plan =
    | Select(resource: string, options: SelectOptions, count: bool)
    | Native(query: NativeQuery)
    | Constant(value: Data)
    | Call(endpoint: string, mapper: Option<Input -> Outcome<Raw>>)
    | Combine(children: seq<NamedPlan>)
    | When(test: Input -> Outcome<bool>, yes: Plan, no: Plan)
    | Bind(parent: Plan, child: Plan, derive: (Data, Input) -> Outcome<Option<Input>>)
    | Map(source: Plan, project: (Data, Input) -> Outcome<Data>)
    | Choose(choices: seq<NamedPlan>, choose: Input -> Outcome<string>)

  datatype NamedPlan = NamedPlan(name: string, plan: Plan)

  datatype Query = Query(parse: Raw -> Outcome<Raw>, opaqueInput: bool, plan: Plan)

  type Queries = map<string, Query>

  // ----------------------------------------------------------- the call graph

  function Calls(plan: Plan): set<string>
    decreases plan, 1
  {
    match plan
    case Select(_, _, _) => {}
    case Native(_) => {}
    case Constant(_) => {}
    case Call(endpoint, _) => {endpoint}
    case Combine(children) => CallsOf(children)
    case When(_, yes, no) => Calls(yes) + Calls(no)
    case Bind(parent, child, _) => Calls(parent) + Calls(child)
    case Map(source, _) => Calls(source)
    case Choose(choices, _) => CallsOf(choices)
  }

  function CallsOf(plans: seq<NamedPlan>): set<string>
    decreases plans, 0
  {
    if plans == [] then {} else Calls(plans[0].plan) + CallsOf(plans[1..])
  }

  type Ranking = map<string, nat>

  /** Every called endpoint is registered and ranks below its caller: there is no cycle. */
  ghost predicate Ranked(queries: Queries, rank: Ranking) {
    forall id :: id in queries ==> id in rank && Below(queries, rank, Calls(queries[id].plan), rank[id])
  }

  ghost predicate Below(queries: Queries, rank: Ranking, called: set<string>, level: nat) {
    forall id :: id in called ==> id in queries && id in rank && rank[id] < level
  }

  // ------------------------------------------------------- read dependencies

  function RequiredJoins(joins: seq<Join>): (kept: seq<Join>)
    ensures |kept| <= |joins|
    ensures forall join :: join in kept <==> join in joins && join.required
  {
    if joins == [] then []
    else if joins[0].required then [joins[0]] + RequiredJoins(joins[1..])
    else RequiredJoins(joins[1..])
  }

  /** `readOptions`: a count ignores the root's projection, order, pagination and optional joins. */
  function ReadOptions(options: SelectOptions, count: bool): SelectOptions {
    if count then SelectOptions(Some([]), RequiredJoins(options.joins), options.where, [], None, None) else options
  }

  /** `readsFor`: a mapped, opaque or derived input cannot be inverted, so its bindings are dropped. */
  ghost function ReadsFor(queries: Queries, rank: Ranking, plan: Plan, level: nat): seq<Read>
    requires Ranked(queries, rank) && Below(queries, rank, Calls(plan), level)
    decreases level, plan, 1
  {
    match plan
    case Select(resource, options, count) => ReadSelect(resource, ReadOptions(options, count), [], None)
    case Native(query) => query.declared
    case Constant(_) => []
    case Call(endpoint, mapper) =>
      var query := queries[endpoint];
      var called := ReadsFor(queries, rank, query.plan, rank[endpoint]);
      if mapper.Some? || query.opaqueInput then DropBindings(called) else called
    case Combine(children) => ReadsForAll(queries, rank, children, level)
    case When(_, yes, no) => ReadsFor(queries, rank, yes, level) + ReadsFor(queries, rank, no, level)
    case Bind(parent, child, _) =>
      ReadsFor(queries, rank, parent, level) + DropBindings(ReadsFor(queries, rank, child, level))
    case Map(source, _) => ReadsFor(queries, rank, source, level)
    case Choose(choices, _) => ReadsForAll(queries, rank, choices, level)
  }

  ghost function ReadsForAll(queries: Queries, rank: Ranking, plans: seq<NamedPlan>, level: nat): seq<Read>
    requires Ranked(queries, rank) && Below(queries, rank, CallsOf(plans), level)
    decreases level, plans, 0
  {
    if plans == [] then []
    else ReadsFor(queries, rank, plans[0].plan, level) + ReadsForAll(queries, rank, plans[1..], level)
  }

  /** `manifest.reads` of one endpoint. */
  ghost function ManifestReads(queries: Queries, rank: Ranking, id: string): seq<Read>
    requires Ranked(queries, rank) && id in queries
  {
    var list := ReadsFor(queries, rank, queries[id].plan, rank[id]);
    if queries[id].opaqueInput then DropBindings(list) else list
  }

  ghost function BoundInputs(list: seq<Read>): set<string> {
    set read, b | read in list && b in read.bindings :: b.input
  }

  /** `preservedInputs`: the selector fields an endpoint's manifest still binds. */
  ghost function PreservedInputs(queries: Queries, rank: Ranking, id: string): set<string>
    requires Ranked(queries, rank) && id in queries
  {
    BoundInputs(ManifestReads(queries, rank, id))
  }

  /** A declared read sees every column its bindings constrain. */
  predicate Covering(read: Read) {
    read.columns.Every? || forall b :: b in read.bindings ==> b.column in read.columns.names
  }

  ghost predicate NativesCover(plan: Plan)
    decreases plan, 1
  {
    match plan
    case Select(_, _, _) => true
    case Native(query) => forall read :: read in query.declared ==> Covering(read)
    case Constant(_) => true
    case Call(_, _) => true
    case Combine(children) => AllNativesCover(children)
    case When(_, yes, no) => NativesCover(yes) && NativesCover(no)
    case Bind(parent, child, _) => NativesCover(parent) && NativesCover(child)
    case Map(source, _) => NativesCover(source)
    case Choose(choices, _) => AllNativesCover(choices)
  }

  ghost predicate AllNativesCover(plans: seq<NamedPlan>)
    decreases plans, 0
  {
    plans == [] || (NativesCover(plans[0].plan) && AllNativesCover(plans[1..]))
  }

  // ------------------------------------------------------- input preservation

  /** `assertInputPreserved`: same presence and same value for every required field. */
  ghost predicate Preserved(raw: Raw, parsed: Input, required: set<string>) {
    required == {}
    || (raw.Fields? && forall field :: field in required ==>
          (field in raw.input <==> field in parsed) && (field in raw.input ==> raw.input[field] == parsed[field]))
  }

  // ------------------------------------------------------------- interpreter

  datatype Hop = Identity | Mapped | OpaqueInput | Derived

  /** A leaf that reached the database: the input SQL ran with and the hops that led to it. */
  datatype Executed = Executed(plan: Plan, input: Input, hops: seq<Hop>)

  datatype Run = Run(outcome: Outcome<Data>, executed: seq<Executed>)

  /** The database a query runs on, and how a select's rows become its result. */
  datatype World = World(
    queries: Queries, db: Database, resources: Resources, tables: Tables, scope: Scalar,
    render: (SelectOptions, Input, map<int, Tree>) -> Data)

  function EnvOf(world: World, input: Input): Env {
    Env(world.db, world.resources, world.tables, world.scope, input)
  }

  predicate Admits(env: Env, read: Read, row: Row) {
    read.resource in env.resources
    && Reaches(env.db, env.resources[read.resource], read, env.input, env.scope, Some(row))
  }

  function Projection(env: Env, read: Read, row: Row): Record {
    var columns := if read.columns.Every? then RegisteredColumns(env.resources, read.resource) else read.columns.names;
    map column | column in columns :: Col(row, column)
  }

  /** What a declared read lets a native query see. */
  function View(env: Env, read: Read): map<int, Record> {
    var table := Table(env.tables, read.resource);
    map id | id in table && Admits(env, read, table[id]) :: Projection(env, read, table[id])
  }

  function Views(env: Env, list: seq<Read>): (views: seq<map<int, Record>>)
    ensures |views| == |list| && forall i :: 0 <= i < |list| ==> views[i] == View(env, list[i])
  {
    seq(|list|, i requires 0 <= i < |list| => View(env, list[i]))
  }

  predicate ValueAccepted(db: Database, op: Comparison, value: Option<Value>) {
    && value.Some?
    && (if op.In? then value.value.Many? && forall item :: item in value.value.items ==> db.accepts(item)
        else value.value.Single? && db.accepts(value.value.scalar))
  }

  /** Every operand present and of a kind the statement can carry, every column registered. */
  predicate Renderable(db: Database, columns: seq<string>, condition: Predicate, input: Input)
    decreases condition, 1
  {
    match condition
    case Atomic(field, op, value) =>
      field in columns
      && (op.IsNull? || op.NotNull?
          || ValueAccepted(db, op, if value.Some? then Resolve(value.value, input) else None))
    case And(all) => AllRenderable(db, columns, all, input)
    case Or(any) => AllRenderable(db, columns, any, input)
    case Not(negated) => Renderable(db, columns, negated, input)
  }

  predicate AllRenderable(db: Database, columns: seq<string>, conditions: seq<Predicate>, input: Input)
    decreases conditions, 0
  {
    conditions == []
    || (Renderable(db, columns, conditions[0], input) && AllRenderable(db, columns, conditions[1..], input))
  }

  predicate ValidPage(page: Option<Operand>, input: Input, minimum: int) {
    page.None?
    || match Resolve(page.value, input)
       case Some(Single(Num(number))) => number == number.Floor as real && minimum <= number.Floor <= 10000
       case _ => false
  }

  /** Whether `compileSelect` renders the statement. It looks at the plan and the input, never at rows. */
  predicate Compiles(
    db: Database, resources: Resources, input: Input, resource: string, options: SelectOptions, countRoot: bool)
    decreases options
  {
    && resource in resources
    && var columns := resources[resource].columns;
       && AllRenderable(db, columns, options.where, input)
       && (countRoot || options.columns.None? || forall column :: column in options.columns.value ==> column in columns)
       && (forall i :: 0 <= i < |options.order| ==> options.order[i].field in columns)
       && ValidPage(options.limit, input, 1) && ValidPage(options.offset, input, 0)
       && forall i :: 0 <= i < |options.joins| ==>
            var join := options.joins[i];
            join.local in columns
            && ((countRoot && !join.required)
                || (join.resource in resources && join.foreign in resources[join.resource].columns
                    && Compiles(db, resources, input, join.resource, join.options, false)))
  }

  function RunSelect(world: World, resource: string, options: SelectOptions, count: bool, input: Input): Outcome<Data> {
    var env := EnvOf(world, input);
    if !Compiles(world.db, world.resources, input, resource, options, count) then Threw("INVALID_SELECT")
    else
      var rows := Selected(env, resource, options, None);
      Returned(if count then Atom(|rows|) else world.render(options, input, rows))
  }

  function Pick(choices: seq<NamedPlan>, name: string): (picked: Option<Plan>)
    ensures picked.Some? ==> exists i :: 0 <= i < |choices| && choices[i].plan == picked.value
    decreases choices
  {
    if choices == [] then None
    else if choices[0].name == name then Some(choices[0].plan)
    else
      var rest := Pick(choices[1..], name);
      assert rest.Some? ==> exists i :: 0 <= i < |choices| - 1 && choices[1..][i].plan == rest.value;
      assert forall i :: 0 <= i < |choices| - 1 ==> choices[1..][i] == choices[i + 1];
      rest
  }

  lemma {:induction false} CallsOfPicked(choices: seq<NamedPlan>, i: nat)
    requires i < |choices|
    ensures Calls(choices[i].plan) <= CallsOf(choices)
  {
    if i > 0 {
      CallsOfPicked(choices[1..], i - 1);
    }
  }

  lemma PickedCalls(choices: seq<NamedPlan>, name: string)
    ensures Pick(choices, name).Some? ==> Calls(Pick(choices, name).value) <= CallsOf(choices)
    ensures Pick(choices, name).Some? ==> exists i :: 0 <= i < |choices| && choices[i].plan == Pick(choices, name).value
  {
    if Pick(choices, name).Some? {
      var i :| 0 <= i < |choices| && choices[i].plan == Pick(choices, name).value;
      CallsOfPicked(choices, i);
    }
  }

  /**
   `executePlan`. `required` is the set of selector fields every identity hop must preserve, or none
   once an ancestor has widened the path.
   */
  ghost function Execute(
    world: World, rank: Ranking, plan: Plan, input: Input, required: Option<set<string>>, hops: seq<Hop>, level: nat): Run
    requires Ranked(world.queries, rank) && Below(world.queries, rank, Calls(plan), level)
    decreases level, plan, 1
  {
    match plan
    case Select(resource, options, count) =>
      Run(RunSelect(world, resource, options, count, input), [Executed(plan, input, hops)])
    case Native(query) =>
      Run(query.answer(input, Views(EnvOf(world, input), query.declared)), [Executed(plan, input, hops)])
    case Constant(value) => Run(Returned(value), [])
    case Call(endpoint, mapper) => ExecuteCall(world, rank, plan, input, required, hops, level)
    case Combine(children) =>
      var (fields, executed) := ExecuteAll(world, rank, children, input, required, hops, level);
      Run(if fields.Threw? then Threw(fields.error) else Returned(Object(fields.value)), executed)
    case When(test, yes, no) =>
      (match test(input)
       case Threw(error) => Run(Threw(error), [])
       case Returned(taken) => Execute(world, rank, if taken then yes else no, input, required, hops, level))
    case Bind(parent, child, derive) =>
      var first := Execute(world, rank, parent, input, required, hops, level);
      if first.outcome.Threw? then first
      else
        (match derive(first.outcome.value, input)
         case Threw(error) => Run(Threw(error), first.executed)
         case Returned(None) => Run(Returned(List([])), first.executed)
         case Returned(Some(next)) =>
           var second := Execute(world, rank, child, next, None, hops + [Derived], level);
           Run(second.outcome, first.executed + second.executed))
    case Map(source, project) =>
      var run := Execute(world, rank, source, input, required, hops, level);
      if run.outcome.Threw? then run else Run(project(run.outcome.value, input), run.executed)
    case Choose(choices, choose) =>
      (match choose(input)
       case Threw(error) => Run(Threw(error), [])
       case Returned(name) =>
         PickedCalls(choices, name);
         match Pick(choices, name)
         case None => Run(Threw("Unregistered query choice"), [])
         case Some(picked) => Execute(world, rank, picked, input, required, hops, level))
  }

  ghost function ExecuteCall(
    world: World, rank: Ranking, plan: Plan, input: Input, required: Option<set<string>>, hops: seq<Hop>, level: nat): Run
    requires Ranked(world.queries, rank) && Below(world.queries, rank, Calls(plan), level) && plan.Call?
    decreases level, plan, 0
  {
    var query := world.queries[plan.endpoint];
    match if plan.mapper.Some? then plan.mapper.value(input) else Returned(Fields(input))
    case Threw(error) => Run(Threw(error), [])
    case Returned(raw) =>
      var fields := if required.Some? then required.value + PreservedInputs(world.queries, rank, plan.endpoint) else {};
      match query.parse(raw)
      case Threw(error) => Run(Threw(error), [])
      case Returned(NotAnObject) => Run(Threw("INVALID_QUERY_INPUT"), [])
      case Returned(Fields(parsed)) =>
        var identity := plan.mapper.None? && !query.opaqueInput;
        if identity && required.Some? && !Preserved(raw, parsed, fields) then
          Run(Threw("QUERY_INPUT_PRESERVATION_VIOLATION"), [])
        else
          var hop := if plan.mapper.Some? then Mapped else if query.opaqueInput then OpaqueInput else Identity;
          Execute(
            world, rank, query.plan, parsed, if identity && required.Some? then Some(fields) else None, hops + [hop],
            rank[plan.endpoint])
  }

  ghost function ExecuteAll(
    world: World, rank: Ranking, plans: seq<NamedPlan>, input: Input, required: Option<set<string>>, hops: seq<Hop>,
    level: nat): (Outcome<map<string, Data>>, seq<Executed>)
    requires Ranked(world.queries, rank) && Below(world.queries, rank, CallsOf(plans), level)
    decreases level, plans, 0
  {
    if plans == [] then (Returned(map[]), [])
    else
      var first := Execute(world, rank, plans[0].plan, input, required, hops, level);
      if first.outcome.Threw? then (Threw(first.outcome.error), first.executed)
      else
        var (rest, executed) := ExecuteAll(world, rank, plans[1..], input, required, hops, level);
        (if rest.Threw? then rest else Returned(map[plans[0].name := first.outcome.value] + rest.value),
         first.executed + executed)
  }

  /** `query`: parse the caller's input, insist on its preservation, and run the endpoint's plan. */
  ghost function RunQuery(world: World, rank: Ranking, id: string, raw: Raw): Run
    requires Ranked(world.queries, rank) && id in world.queries
  {
    var query := world.queries[id];
    var required := PreservedInputs(world.queries, rank, id);
    match query.parse(raw)
    case Threw(error) => Run(Threw(error), [])
    case Returned(NotAnObject) => Run(Threw("INVALID_QUERY_INPUT"), [])
    case Returned(Fields(parsed)) =>
      if !Preserved(raw, parsed, required) then Run(Threw("QUERY_INPUT_PRESERVATION_VIOLATION"), [])
      else Execute(world, rank, query.plan, parsed, Some(required), [], rank[id])
  }
}
