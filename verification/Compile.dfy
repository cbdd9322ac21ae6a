/** `compileManifest`'s walk over the call graph: it accepts exactly the query sets without a cycle. */
module Compile {
  import opened Contracts
  import opened Facts
  import opened Reads
  import opened SelectTrees
  import opened Plans

  // -------------------------------------------------- what is to be accepted

  function SelectResources(resource: string, options: SelectOptions): set<string>
    decreases options, 1
  {
    {resource} + JoinResources(options.joins)
  }

  function JoinResources(joins: seq<Join>): set<string>
    decreases joins, 0
  {
    if joins == [] then {} else SelectResources(joins[0].resource, joins[0].options) + JoinResources(joins[1..])
  }

  /** The resources a plan's own leaves name. A native query's were checked when it was compiled. */
  function OwnResources(plan: Plan): set<string>
    decreases plan, 1
  {
    match plan
    case Select(resource, options, count) => SelectResources(resource, ReadOptions(options, count))
    case Native(_) => {}
    case Constant(_) => {}
    case Call(_, _) => {}
    case Combine(children) => OwnResourcesOf(children)
    case When(_, yes, no) => OwnResources(yes) + OwnResources(no)
    case Bind(parent, child, _) => OwnResources(parent) + OwnResources(child)
    case Map(source, _) => OwnResources(source)
    case Choose(choices, _) => OwnResourcesOf(choices)
  }

  function OwnResourcesOf(plans: seq<NamedPlan>): set<string>
    decreases plans, 0
  {
    if plans == [] then {} else OwnResources(plans[0].plan) + OwnResourcesOf(plans[1..])
  }

  /** The resources a plan reads itself, natively declared ones included. */
  function LeafResources(plan: Plan): set<string>
    decreases plan, 1
  {
    match plan
    case Select(resource, options, count) => SelectResources(resource, ReadOptions(options, count))
    case Native(query) => set read | read in query.declared :: read.resource
    case Constant(_) => {}
    case Call(_, _) => {}
    case Combine(children) => LeafResourcesOf(children)
    case When(_, yes, no) => LeafResources(yes) + LeafResources(no)
    case Bind(parent, child, _) => LeafResources(parent) + LeafResources(child)
    case Map(source, _) => LeafResources(source)
    case Choose(choices, _) => LeafResourcesOf(choices)
  }

  function LeafResourcesOf(plans: seq<NamedPlan>): set<string>
    decreases plans, 0
  {
    if plans == [] then {} else LeafResources(plans[0].plan) + LeafResourcesOf(plans[1..])
  }

  type Sources = map<string, set<string>>

  ghost function Inherited(sources: Sources, called: set<string>): set<string> {
    set id, resource | id in called && id in sources && resource in sources[id] :: resource
  }

  /** Each endpoint's entry is what its own leaves read and what the endpoints it calls read. */
  ghost predicate Collected(queries: Queries, sources: Sources) {
    forall id :: id in sources ==>
      && id in queries
      && Calls(queries[id].plan) <= sources.Keys
      && sources[id] == LeafResources(queries[id].plan) + Inherited(sources, Calls(queries[id].plan))
  }

  ghost predicate Grown(before: Sources, after: Sources) {
    forall id :: id in before ==> id in after && after[id] == before[id]
  }

  lemma InheritedGrown(before: Sources, after: Sources, called: set<string>)
    ensures Grown(before, after) && called <= before.Keys ==> Inherited(before, called) == Inherited(after, called)
  {
  }

  lemma CollectStep(queries: Queries, sources: Sources, id: string, resources: set<string>)
    requires Collected(queries, sources) && id in queries && id !in sources
    requires Calls(queries[id].plan) <= sources.Keys
    requires resources == LeafResources(queries[id].plan) + Inherited(sources, Calls(queries[id].plan))
    ensures Collected(queries, sources[id := resources]) && Grown(sources, sources[id := resources])
  {
    var grown := sources[id := resources];
    assert Grown(sources, grown);
    forall other | other in grown
      ensures Calls(queries[other].plan) <= grown.Keys
      ensures grown[other] == LeafResources(queries[other].plan) + Inherited(grown, Calls(queries[other].plan))
    {
      InheritedGrown(sources, grown, Calls(queries[other].plan));
    }
  }

  ghost predicate Compilable(queries: Queries, registered: set<string>) {
    && (exists rank :: Ranked(queries, rank))
    && forall id :: id in queries ==> OwnResources(queries[id].plan) <= registered
  }

  /** Why a walk stops: a chain of calls that closes, a call of a missing query, or an unregistered resource. */
  datatype Why =
    | Cycle(chain: seq<string>)
    | Missing(caller: string, id: string)
    | Unregistered(id: string, resource: string)

  ghost predicate Explains(queries: Queries, registered: set<string>, why: Why) {
    match why
    case Cycle(chain) => |chain| >= 2 && Chain(queries, chain) && chain[0] == chain[|chain| - 1]
    case Missing(caller, id) => caller in queries && id in Calls(queries[caller].plan) && id !in queries
    case Unregistered(id, resource) =>
      id in queries && resource in OwnResources(queries[id].plan) && resource !in registered
  }

  function Message(why: Why): string {
    match why
    case Cycle(chain) => "Query cycle: " + if chain == [] then "" else chain[0]
    case Missing(_, id) => "Query missing: " + id
    case Unregistered(_, resource) => "Unregistered resource: " + resource
  }

  // ------------------------------------------------------------- the walk

  /** Endpoints in the order their walk ended; each calls only endpoints that ended before it. */
  ghost predicate Finished(queries: Queries, registered: set<string>, order: seq<string>) {
    && (forall i :: 0 <= i < |order| ==> order[i] in queries)
    && (forall i, j :: 0 <= i < j < |order| ==> order[i] != order[j])
    && forall i :: 0 <= i < |order| ==>
         && OwnResources(queries[order[i]].plan) <= registered
         && forall id :: id in Calls(queries[order[i]].plan) ==> id in order[..i]
  }

  /** The endpoints being walked, outermost first; each calls the next. */
  ghost predicate Chain(queries: Queries, path: seq<string>) {
    && (forall i :: 0 <= i < |path| ==> path[i] in queries)
    && forall i :: 0 <= i < |path| - 1 ==> path[i + 1] in Calls(queries[path[i]].plan)
  }

  lemma ChainStep(queries: Queries, path: seq<string>, id: string)
    ensures Chain(queries, path) ==> forall i :: 0 <= i < |path| ==> path[i] in queries
    ensures Chain(queries, path) && id in queries && (path != [] ==> id in Calls(queries[path[|path| - 1]].plan)) ==>
      Chain(queries, path + [id])
  {
  }

  /** Along a chain of calls any ranking goes strictly down. */
  lemma {:induction false} ChainDescends(queries: Queries, path: seq<string>, rank: Ranking, i: nat, j: nat)
    requires Chain(queries, path) && Ranked(queries, rank)
    requires i < j < |path|
    ensures path[i] in rank && path[j] in rank && rank[path[j]] < rank[path[i]]
  {
    assert Below(queries, rank, Calls(queries[path[j - 1]].plan), rank[path[j - 1]]);
    assert path[j - 1 + 1] in Calls(queries[path[j - 1]].plan);
    if i < j - 1 {
      ChainDescends(queries, path, rank, i, j - 1);
    }
  }

  /** Calling an endpoint that is still being walked closes a chain of calls. */
  lemma ClosesCycle(queries: Queries, registered: set<string>, path: seq<string>, id: string) returns (why: Why)
    requires Chain(queries, path) && path != [] && id in path
    requires id in Calls(queries[path[|path| - 1]].plan)
    ensures Explains(queries, registered, why) && Message(why) == "Query cycle: " + id
  {
    var k :| 0 <= k < |path| && path[k] == id;
    var chain := path[k..] + [id];
    forall i | 0 <= i < |chain| - 1 ensures chain[i] in queries && chain[i + 1] in Calls(queries[chain[i]].plan) {
      assert chain[i] == path[k + i];
      assert i < |chain| - 2 ==> chain[i + 1] == path[k + i + 1];
    }
    why := Cycle(chain);
  }

  lemma BelowCaller(queries: Queries, rank: Ranking, caller: string)
    requires Ranked(queries, rank) && caller in queries
    ensures forall id :: id in Calls(queries[caller].plan) ==> id in queries
  {
    assert Below(queries, rank, Calls(queries[caller].plan), rank[caller]);
  }

  /** Whatever stops the walk, nothing can be compiled. */
  lemma ExplainedIsBroken(queries: Queries, registered: set<string>, why: Why)
    requires Explains(queries, registered, why)
    ensures !Compilable(queries, registered)
  {
    match why
    case Cycle(chain) =>
      if rank :| Ranked(queries, rank) {
        ChainDescends(queries, chain, rank, 0, |chain| - 1);
      }
    case Missing(caller, _) =>
      if rank :| Ranked(queries, rank) {
        BelowCaller(queries, rank, caller);
      }
    case Unregistered(_, _) =>
  }

  function PositionRank(order: seq<string>): Ranking
    requires forall i, j :: 0 <= i < j < |order| ==> order[i] != order[j]
  {
    map i | 0 <= i < |order| :: order[i] := i
  }

  /** The finishing order is itself a ranking. */
  lemma FinishedIsRanked(queries: Queries, registered: set<string>, order: seq<string>)
    requires Finished(queries, registered, order)
    requires forall id :: id in queries ==> id in order
    ensures Ranked(queries, PositionRank(order))
  {
    var rank := PositionRank(order);
    forall id | id in queries
      ensures id in rank && Below(queries, rank, Calls(queries[id].plan), rank[id])
    {
      var i :| 0 <= i < |order| && order[i] == id;
      CallsAreEarlier(queries, registered, order, i);
    }
  }

  lemma CallsAreEarlier(queries: Queries, registered: set<string>, order: seq<string>, i: nat)
    requires Finished(queries, registered, order) && i < |order|
    ensures Below(queries, PositionRank(order), Calls(queries[order[i]].plan), i)
  {
    hide Calls, OwnResources;
    var rank := PositionRank(order);
    forall other | other in Calls(queries[order[i]].plan)
      ensures other in queries && other in rank && rank[other] < i
    {
      var j :| 0 <= j < i && order[..i][j] == other;
      assert rank[order[j]] == j;
    }
  }

  class Compiler {
    const queries: Queries
    const registered: set<string>
    /** The resources of every endpoint whose walk has ended. */
    var sources: Sources
    var visiting: set<string>
    ghost var order: seq<string>
    ghost var path: seq<string>

    ghost predicate Valid()
      reads this
    {
      && Finished(queries, registered, order)
      && (forall id :: id in sources <==> id in order)
      && Collected(queries, sources)
      && Chain(queries, path)
      && (forall id :: id in visiting <==> id in path)
      && visiting <= queries.Keys
      && visiting !! sources.Keys
    }

    constructor (queries: Queries, registered: set<string>)
      ensures Valid() && this.queries == queries && this.registered == registered && path == [] && visiting == {}
    {
      this.queries := queries;
      this.registered := registered;
      sources, visiting := map[], {};
      order, path := [], [];
    }

    /** The walk of one endpoint; the caller, if any, is the last on the path. */
    method Endpoint(id: string) returns (result: Outcome<set<string>>, ghost why: Why)
      requires Valid()
      requires path == [] ==> id in queries
      requires path != [] ==> id in Calls(queries[path[|path| - 1]].plan)
      modifies this
      ensures result.Threw? ==> Explains(queries, registered, why) && result.error == Message(why)
      ensures result.Returned? ==>
        Valid() && path == old(path) && visiting == old(visiting) && old(order) <= order && Grown(old(sources), sources)
        && id in sources && result.value == sources[id]
      decreases queries.Keys - visiting, 0
    {
      hide Finished, Collected, Chain, Calls, LeafResources, OwnResources, Inherited;
      ChainStep(queries, path, id);
      why := Cycle([]);
      if id in visiting {
        why := ClosesCycle(queries, registered, path, id);
        return Threw("Query cycle: " + id), why;
      }
      if id in sources {
        return Returned(sources[id]), why;
      }
      if id !in queries {
        return Threw("Query missing: " + id), Missing(path[|path| - 1], id);
      }
      ghost var outer := path;
      visiting := visiting + {id};
      path := path + [id];
      result, why := Walk(queries[id].plan);
      if result.Returned? {
        FinishStep(queries, registered, order, id);
        CollectStep(queries, sources, id, result.value);
        sources := sources[id := result.value];
        visiting := visiting - {id};
        order := order + [id];
        path := outer;
      }
    }

    /** `walk`: a plan's resources, provided everything it calls could be walked first. */
    method Walk(plan: Plan) returns (result: Outcome<set<string>>, ghost why: Why)
      requires Valid() && path != []
      requires Within(queries, path[|path| - 1], Calls(plan), OwnResources(plan))
      modifies this
      ensures result.Threw? ==> Explains(queries, registered, why) && result.error == Message(why)
      ensures result.Returned? ==>
        && Valid() && path == old(path) && visiting == old(visiting) && old(order) <= order && Grown(old(sources), sources)
        && Walked(registered, sources, Calls(plan), OwnResources(plan), LeafResources(plan), result.value)
      decreases queries.Keys - visiting, 1, plan, 1
    {
      hide Finished, Collected, Chain, SelectResources;
      why := Cycle([]);
      match plan
      case Select(resource, options, count) =>
        var named := SelectResources(resource, ReadOptions(options, count));
        if unknown :| unknown in named && unknown !in registered {
          return Threw("Unregistered resource: " + unknown), Unregistered(path[|path| - 1], unknown);
        }
        return Returned(named), why;
      case Native(query) =>
        return Returned(set read | read in query.declared :: read.resource), why;
      case Constant(_) =>
        return Returned({}), why;
      case Call(endpoint, _) =>
        result, why := Endpoint(endpoint);
      case Combine(children) =>
        result, why := WalkAll(children);
      case When(_, yes, no) =>
        result, why := WalkBoth(plan, yes, no);
      case Bind(parent, child, _) =>
        result, why := WalkBoth(plan, parent, child);
      case Map(source, _) =>
        result, why := Walk(source);
      case Choose(choices, _) =>
        result, why := WalkAll(choices);
    }

    method WalkBoth(plan: Plan, first: Plan, second: Plan) returns (result: Outcome<set<string>>, ghost why: Why)
      requires Valid() && path != []
      requires Within(queries, path[|path| - 1], Calls(plan), OwnResources(plan))
      requires Calls(plan) == Calls(first) + Calls(second)
      requires OwnResources(plan) == OwnResources(first) + OwnResources(second)
      requires LeafResources(plan) == LeafResources(first) + LeafResources(second)
      requires first < plan && second < plan
      modifies this
      ensures result.Threw? ==> Explains(queries, registered, why) && result.error == Message(why)
      ensures result.Returned? ==>
        && Valid() && path == old(path) && visiting == old(visiting) && old(order) <= order && Grown(old(sources), sources)
        && Walked(registered, sources, Calls(plan), OwnResources(plan), LeafResources(plan), result.value)
      decreases queries.Keys - visiting, 1, plan, 0
    {
      hide Explains, Message, Inherited, Walked, Calls, OwnResources, LeafResources;
      var left;
      left, why := Walk(first);
      if left.Threw? {
        return left, why;
      }
      ghost var middle := sources;
      var right;
      right, why := Walk(second);
      if right.Threw? {
        return right, why;
      }
      WalkedBoth(
        registered, middle, sources, Calls(first), Calls(second), OwnResources(first), OwnResources(second),
        LeafResources(first), LeafResources(second), left.value, right.value);
      return Returned(left.value + right.value), why;
    }

    method WalkAll(plans: seq<NamedPlan>) returns (result: Outcome<set<string>>, ghost why: Why)
      requires Valid() && path != []
      requires Within(queries, path[|path| - 1], CallsOf(plans), OwnResourcesOf(plans))
      modifies this
      ensures result.Threw? ==> Explains(queries, registered, why) && result.error == Message(why)
      ensures result.Returned? ==>
        && Valid() && path == old(path) && visiting == old(visiting) && old(order) <= order && Grown(old(sources), sources)
        && Walked(registered, sources, CallsOf(plans), OwnResourcesOf(plans), LeafResourcesOf(plans), result.value)
      decreases queries.Keys - visiting, 1, plans, 0
    {
      why := Cycle([]);
      if plans == [] {
        return Returned({}), why;
      }
      hide Explains, Message, Inherited, Walked, Calls, OwnResources, LeafResources;
      var left;
      left, why := Walk(plans[0].plan);
      if left.Threw? {
        return left, why;
      }
      ghost var middle := sources;
      var right;
      right, why := WalkAll(plans[1..]);
      if right.Threw? {
        return right, why;
      }
      WalkedBoth(
        registered, middle, sources, Calls(plans[0].plan), CallsOf(plans[1..]), OwnResources(plans[0].plan),
        OwnResourcesOf(plans[1..]), LeafResources(plans[0].plan), LeafResourcesOf(plans[1..]), left.value, right.value);
      return Returned(left.value + right.value), why;
    }
  }

  /** A part of the plan of the endpoint being walked. */
  ghost predicate Within(queries: Queries, id: string, called: set<string>, named: set<string>) {
    id in queries && called <= Calls(queries[id].plan) && named <= OwnResources(queries[id].plan)
  }

  ghost predicate Walked(
    registered: set<string>, sources: Sources, called: set<string>, named: set<string>, leaves: set<string>,
    result: set<string>)
  {
    named <= registered && called <= sources.Keys && result == leaves + Inherited(sources, called)
  }

  lemma WalkedBoth(
      registered: set<string>, middle: Sources, sources: Sources, calledL: set<string>, calledR: set<string>,
      namedL: set<string>, namedR: set<string>, leavesL: set<string>, leavesR: set<string>, left: set<string>, right: set<string>)
    requires Walked(registered, middle, calledL, namedL, leavesL, left) && Grown(middle, sources)
    requires Walked(registered, sources, calledR, namedR, leavesR, right)
    ensures Walked(registered, sources, calledL + calledR, namedL + namedR, leavesL + leavesR, left + right)
  {
    InheritedGrown(middle, sources, calledL);
    InheritedUnion(sources, calledL, calledR);
  }

  lemma FinishStep(queries: Queries, registered: set<string>, order: seq<string>, id: string)
    requires Finished(queries, registered, order) && id in queries && id !in order
    requires OwnResources(queries[id].plan) <= registered
    requires forall called :: called in Calls(queries[id].plan) ==> called in order
    ensures Finished(queries, registered, order + [id])
  {
    assert (order + [id])[..|order|] == order;
    assert forall i :: 0 <= i < |order| ==> (order + [id])[..i] == order[..i];
  }

  /**
   `compileManifest` over all endpoints: it succeeds exactly when the call graph has no cycle and no
   missing endpoint and every plan names registered resources, and then the walk order ranks the endpoints.
   */
  method CompileAll(queries: Queries, registered: set<string>, ids: seq<string>)
    returns (result: Outcome<Sources>, ghost rank: Ranking, ghost why: Why)
    requires forall id :: id in ids <==> id in queries
    ensures result.Returned? <==> Compilable(queries, registered)
    ensures result.Threw? ==> Explains(queries, registered, why) && result.error == Message(why)
    ensures result.Returned? ==> Ranked(queries, rank) && result.value.Keys == queries.Keys && Collected(queries, result.value)
  {
    rank, why := map[], Cycle([]);
    var compiler := new Compiler(queries, registered);
    hide Compilable, Finished, Chain, Ranked, Collected, Grown, Explains, Message;
    for i := 0 to |ids|
      invariant compiler.Valid() && compiler.path == [] && fresh(compiler)
      invariant compiler.queries == queries && compiler.registered == registered
      invariant forall k :: 0 <= k < i ==> ids[k] in compiler.order
    {
      var walked;
      walked, why := compiler.Endpoint(ids[i]);
      if walked.Threw? {
        ExplainedIsBroken(queries, registered, why);
        return Threw(walked.error), map[], why;
      }
    }
    rank := AllFinished(queries, registered, compiler.order, ids);
    assert compiler.sources.Keys == queries.Keys;
    result := Returned(compiler.sources);
  }

  lemma AllFinished(queries: Queries, registered: set<string>, order: seq<string>, ids: seq<string>) returns (rank: Ranking)
    requires Finished(queries, registered, order)
    requires forall id :: id in ids <==> id in queries
    requires forall k :: 0 <= k < |ids| ==> ids[k] in order
    ensures Ranked(queries, rank) && Compilable(queries, registered)
    ensures forall id :: id in order <==> id in queries
  {
    rank := PositionRank(order);
    forall id | id in queries ensures id in order {
      var k :| 0 <= k < |ids| && ids[k] == id;
    }
    FinishedIsRanked(queries, registered, order);
    forall id | id in queries ensures OwnResources(queries[id].plan) <= registered {
      var i :| 0 <= i < |order| && order[i] == id;
    }
  }

  // --------------------------------------- the walk agrees with the reads

  ghost function ReadResources(list: seq<Read>): set<string> {
    set read | read in list :: read.resource
  }

  lemma ReadResourcesConcat(left: seq<Read>, right: seq<Read>)
    ensures ReadResources(left + right) == ReadResources(left) + ReadResources(right)
  {
  }

  lemma DroppedResources(list: seq<Read>)
    ensures ReadResources(DropBindings(list)) == ReadResources(list)
  {
    var dropped := DropBindings(list);
    forall read | read in list ensures read.resource in ReadResources(dropped) {
      var i :| 0 <= i < |list| && list[i] == read;
      assert dropped[i] in dropped;
    }
    forall read | read in dropped ensures read.resource in ReadResources(list) {
      var i :| 0 <= i < |dropped| && dropped[i] == read;
      assert list[i] in list;
    }
  }

  lemma {:induction false} SelectReadsResources(
      resource: string, options: SelectOptions, inherited: seq<Binding>, foreign: Option<string>)
    ensures ReadResources(ReadSelect(resource, options, inherited, foreign)) == SelectResources(resource, options)
    decreases options, 1
  {
    var own := OwnRead(resource, options, inherited, foreign);
    JoinReadsResources(options.joins, own.bindings);
    ReadResourcesConcat([own], ReadJoins(options.joins, own.bindings));
    assert ReadResources([own]) == {resource};
  }

  lemma {:induction false} JoinReadsResources(joins: seq<Join>, bindings: seq<Binding>)
    ensures ReadResources(ReadJoins(joins, bindings)) == JoinResources(joins)
    decreases joins, 0
  {
    if joins != [] {
      var join := joins[0];
      var first := ReadSelect(join.resource, join.options, Propagated(bindings, join), Some(join.foreign));
      SelectReadsResources(join.resource, join.options, Propagated(bindings, join), Some(join.foreign));
      JoinReadsResources(joins[1..], bindings);
      ReadResourcesConcat(first, ReadJoins(joins[1..], bindings));
    }
  }

  lemma NothingInherited(sources: Sources)
    ensures Inherited(sources, {}) == {} && ReadResources([]) == {}
  {
  }

  lemma EndpointInherited(queries: Queries, sources: Sources, endpoint: string)
    requires Collected(queries, sources) && endpoint in sources
    ensures Inherited(sources, {endpoint})
      == LeafResources(queries[endpoint].plan) + Inherited(sources, Calls(queries[endpoint].plan))
  {
    hide LeafResources, Calls;
    assert Inherited(sources, {endpoint}) == sources[endpoint];
  }

  /** The resources the walk collected are those of the reads `readsFor` derives on its own traversal. */
  lemma {:induction false} SourcesAgree(queries: Queries, sources: Sources, rank: Ranking, plan: Plan, level: nat)
    requires Ranked(queries, rank) && Below(queries, rank, Calls(plan), level)
    requires Collected(queries, sources) && sources.Keys == queries.Keys
    ensures ReadResources(ReadsFor(queries, rank, plan, level)) == LeafResources(plan) + Inherited(sources, Calls(plan))
    decreases level, plan, 1
  {
    NothingInherited(sources);
    hide Inherited, Collected, ReadSelect, SelectResources, DropBindings;
    match plan
    case Select(resource, options, count) => SelectReadsResources(resource, ReadOptions(options, count), [], None);
    case Native(_) =>
    case Constant(_) =>
    case Call(endpoint, _) =>
      SourcesAgree(queries, sources, rank, queries[endpoint].plan, rank[endpoint]);
      DroppedResources(ReadsFor(queries, rank, queries[endpoint].plan, rank[endpoint]));
      EndpointInherited(queries, sources, endpoint);
    case Combine(children) => AllSourcesAgree(queries, sources, rank, children, level);
    case When(_, yes, no) => PairSourcesAgree(queries, sources, rank, plan, yes, no, level);
    case Bind(parent, child, _) =>
      PairSourcesAgree(queries, sources, rank, plan, parent, child, level);
      DroppedResources(ReadsFor(queries, rank, child, level));
      ReadResourcesConcat(ReadsFor(queries, rank, parent, level), DropBindings(ReadsFor(queries, rank, child, level)));
    case Map(source, _) => SourcesAgree(queries, sources, rank, source, level);
    case Choose(choices, _) => AllSourcesAgree(queries, sources, rank, choices, level);
  }

  lemma {:induction false} PairSourcesAgree(
      queries: Queries, sources: Sources, rank: Ranking, plan: Plan, first: Plan, second: Plan, level: nat)
    requires Ranked(queries, rank)
    requires Below(queries, rank, Calls(first), level) && Below(queries, rank, Calls(second), level)
    requires Collected(queries, sources) && sources.Keys == queries.Keys
    requires first < plan && second < plan
    ensures ReadResources(ReadsFor(queries, rank, first, level)) + ReadResources(ReadsFor(queries, rank, second, level))
      == LeafResources(first) + LeafResources(second) + Inherited(sources, Calls(first) + Calls(second))
    ensures ReadResources(ReadsFor(queries, rank, first, level) + ReadsFor(queries, rank, second, level))
      == LeafResources(first) + LeafResources(second) + Inherited(sources, Calls(first) + Calls(second))
    decreases level, plan, 0
  {
    hide ReadsFor, LeafResources, Calls, Collected, Ranked, ReadResources, Inherited;
    SourcesAgree(queries, sources, rank, first, level);
    SourcesAgree(queries, sources, rank, second, level);
    ReadResourcesConcat(ReadsFor(queries, rank, first, level), ReadsFor(queries, rank, second, level));
    InheritedUnion(sources, Calls(first), Calls(second));
  }

  lemma InheritedUnion(sources: Sources, left: set<string>, right: set<string>)
    ensures Inherited(sources, left + right) == Inherited(sources, left) + Inherited(sources, right)
  {
  }

  lemma {:induction false} AllSourcesAgree(queries: Queries, sources: Sources, rank: Ranking, plans: seq<NamedPlan>, level: nat)
    requires Ranked(queries, rank) && Below(queries, rank, CallsOf(plans), level)
    requires Collected(queries, sources) && sources.Keys == queries.Keys
    ensures ReadResources(ReadsForAll(queries, rank, plans, level))
      == LeafResourcesOf(plans) + Inherited(sources, CallsOf(plans))
    decreases level, plans, 0
  {
    NothingInherited(sources);
    hide Inherited, Collected, ReadResources;
    if plans != [] {
      var first := plans[0].plan;
      SourcesAgree(queries, sources, rank, first, level);
      AllSourcesAgree(queries, sources, rank, plans[1..], level);
      ReadResourcesConcat(ReadsFor(queries, rank, first, level), ReadsForAll(queries, rank, plans[1..], level));
      InheritedUnion(sources, Calls(first), CallsOf(plans[1..]));
    }
  }

  /** `manifest.sources` and `manifest.reads` name the same resources. */
  lemma SourcesMatchReads(queries: Queries, sources: Sources, rank: Ranking, id: string)
    requires Ranked(queries, rank) && id in queries
    requires Collected(queries, sources) && sources.Keys == queries.Keys
    ensures sources[id] == ReadResources(ManifestReads(queries, rank, id))
  {
    SourcesAgree(queries, sources, rank, queries[id].plan, rank[id]);
    DroppedResources(ReadsFor(queries, rank, queries[id].plan, rank[id]));
  }
}
