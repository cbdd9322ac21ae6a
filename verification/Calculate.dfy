/** From observed facts and read dependencies to the impact of a command. */
module Calculate {
  import opened Contracts
  import opened Facts
  import opened Reads
  import opened WriteSets
  import opened Antichain
  import opened Assessments

  datatype Reason =
    | ScopeExcluded | ColumnsUnchanged | FilterExcluded | EndpointUnavailable
    | UnknownRow | MissingBinding | Matched

  datatype Options = Options(
    resources: Resources, manifest: Manifest, scope: Scalar, assessment: Option<Report>, coerce: Coerce, sizes: Sizes)

  datatype IndexedRead = IndexedRead(endpoint: string, read: Read)

  datatype TargetKey = TargetKey(endpoint: string, scope: TargetScope)

  /** What one row of one fact does to one read. `imprecise` says that the calculator could not be exact. */
  datatype Decision = Skip(reason: Reason) | Hit(input: Record, reason: Reason, imprecise: bool)

  /** One input contributed to one target, and whether it makes the endpoint's answer imprecise. */
  datatype Contribution = Contribution(key: TargetKey, input: Record, imprecise: bool)

  // ------------------------------------------------------------- pure rules

  function StatusOf(options: Options, endpoint: string): Assessment {
    if options.assessment.Some? && endpoint in options.assessment.value then options.assessment.value[endpoint] else Verified
  }

  function Broad(read: Read): Read {
    read.(columns := Every, bindings := [], filters := [])
  }

  /** The partial input a row stands for, and whether every binding was captured without contradiction. */
  function BindFrom(row: RowState, bindings: seq<Binding>, input: Record, complete: bool): (Record, bool) {
    if bindings == [] then (input, complete)
    else
      var binding := bindings[0];
      if row.Known? && binding.column in row.fields then
        var value := row.fields[binding.column];
        if binding.input in input && input[binding.input] != value then (map[], false)
        else BindFrom(row, bindings[1..], input[binding.input := value], complete)
      else BindFrom(row, bindings[1..], input, false)
  }

  predicate Touches(read: Read, column: string) {
    read.columns.Every? || column in read.columns.names
    || exists i :: 0 <= i < |read.filters| && read.filters[i].column == column
  }

  /** A listed update that changed neither the scope column nor any column of the read. */
  predicate Untouched(resource: Resource, fact: WriteFact, read: Read) {
    && fact.operation.Update? && fact.changed.Some?
    && !(resource.scopeColumn.Some? && resource.scopeColumn.value in fact.changed.value)
    && forall i :: 0 <= i < |fact.changed.value| ==> !Touches(read, fact.changed.value[i])
  }

  predicate FilterProvesOut(coerce: Coerce, row: RowState, filter: Filter) {
    && row.Known? && row.equality.Some? && filter.column in row.equality.value
    && !FilterMayEqual(coerce, row.equality.value[filter.column], filter.value)
  }

  predicate ProvedOut(coerce: Coerce, row: RowState, read: Read) {
    exists i :: 0 <= i < |read.filters| && FilterProvesOut(coerce, row, read.filters[i])
  }

  predicate FilterExact(row: RowState, filter: Filter) {
    && row.Known? && row.equality.Some? && filter.column in row.equality.value
    && row.equality.value[filter.column] == filter.value
  }

  predicate Imprecise(fact: WriteFact, row: RowState, read: Read) {
    || row.Unknown?
    || fact.operation.UnknownOperation?
    || (fact.operation.Update? && fact.changed.None? && !read.columns.Every?)
    || exists i :: 0 <= i < |read.filters| && !FilterExact(row, read.filters[i])
  }

  function Decide(options: Options, fact: WriteFact, row: RowState, endpoint: string, original: Read): Decision
    requires fact.resource in options.resources
  {
    var resource := options.resources[fact.resource];
    var status := StatusOf(options, endpoint);
    if status.Unavailable? then Skip(EndpointUnavailable)
    else
      var read := if status.Conservative? then Broad(original) else original;
      if !status.Conservative? && resource.scopeColumn.Some? && row.Known? && row.scope != options.scope then
        Skip(ScopeExcluded)
      else if Untouched(resource, fact, read) then Skip(ColumnsUnchanged)
      else if ProvedOut(options.coerce, row, read) then
        Skip(FilterExcluded)
      else
        var (input, complete) := BindFrom(row, read.bindings, map[], true);
        var reason := if row.Unknown? then UnknownRow else if complete then Matched else MissingBinding;
        Hit(input, reason, Imprecise(fact, row, read) || reason != Matched)
  }

  function KeyFor(options: Options, fact: WriteFact, endpoint: string): TargetKey
    requires fact.resource in options.resources
  {
    TargetKey(endpoint, if options.resources[fact.resource].scopeColumn.None? then Global else Caller)
  }

  // ------------------------------------------- the sequence of contributions

  function ReadsOf(endpoint: string, dependencies: seq<Read>, resource: string): seq<IndexedRead> {
    if dependencies == [] then []
    else
      var last := dependencies[|dependencies| - 1];
      ReadsOf(endpoint, dependencies[..|dependencies| - 1], resource)
      + (if last.resource == resource then [IndexedRead(endpoint, last)] else [])
  }

  /** `indexReads` at one resource: its reads in manifest order. */
  function IndexOf(manifest: Manifest, resource: string): seq<IndexedRead> {
    if manifest == [] then []
    else
      var last := manifest[|manifest| - 1];
      IndexOf(manifest[..|manifest| - 1], resource) + ReadsOf(last.endpoint, last.dependencies, resource)
  }

  function RowHits(options: Options, fact: WriteFact, row: RowState, indexed: seq<IndexedRead>): seq<Contribution>
    requires fact.resource in options.resources
  {
    if indexed == [] || row.Absent? then []
    else
      var last := indexed[|indexed| - 1];
      var decision := Decide(options, fact, row, last.endpoint, last.read);
      RowHits(options, fact, row, indexed[..|indexed| - 1])
      + match decision
        case Skip(_) => []
        case Hit(input, _, imprecise) => [Contribution(KeyFor(options, fact, last.endpoint), input, imprecise)]
  }

  function FactHits(options: Options, fact: WriteFact): seq<Contribution>
    requires fact.resource in options.resources
  {
    var indexed := IndexOf(options.manifest, fact.resource);
    RowHits(options, fact, fact.before, indexed) + RowHits(options, fact, fact.after, indexed)
  }

  function AllHits(options: Options, facts: seq<WriteFact>): seq<Contribution>
    requires Registered(options, facts)
  {
    if facts == [] then []
    else AllHits(options, facts[..|facts| - 1]) + FactHits(options, facts[|facts| - 1])
  }

  function InputsFor(hits: seq<Contribution>, key: TargetKey): seq<Record> {
    if hits == [] then []
    else
      var last := hits[|hits| - 1];
      InputsFor(hits[..|hits| - 1], key) + (if last.key == key then [last.input] else [])
  }

  /** Endpoints some contribution left imprecise, or whose selector ran into its limit. */
  ghost function ReducedBy(hits: seq<Contribution>): set<string> {
    if hits == [] then {}
    else
      var last := hits[|hits| - 1];
      var earlier := hits[..|hits| - 1];
      ReducedBy(earlier)
      + if last.imprecise || Overflows(AbsorbAll(InputsFor(earlier, last.key)), last.input) then {last.key.endpoint} else {}
  }

  // ----------------------------------------------------- the imperative form

  function At(index: map<string, seq<IndexedRead>>, resource: string): seq<IndexedRead> {
    if resource in index then index[resource] else []
  }

  ghost predicate Extends(
    index: map<string, seq<IndexedRead>>, start: map<string, seq<IndexedRead>>, endpoint: string, dependencies: seq<Read>)
  {
    forall resource :: At(index, resource) == At(start, resource) + ReadsOf(endpoint, dependencies, resource)
  }

  lemma ExtendsStep(
      index: map<string, seq<IndexedRead>>, start: map<string, seq<IndexedRead>>, endpoint: string,
      dependencies: seq<Read>, read: Read)
    requires Extends(index, start, endpoint, dependencies)
    ensures Extends(
      index[read.resource := At(index, read.resource) + [IndexedRead(endpoint, read)]], start, endpoint,
      dependencies + [read])
  {
    var grown := index[read.resource := At(index, read.resource) + [IndexedRead(endpoint, read)]];
    var all := dependencies + [read];
    hide ReadsOf;
    forall resource ensures At(grown, resource) == At(start, resource) + ReadsOf(endpoint, all, resource) {
      assert At(index, resource) == At(start, resource) + ReadsOf(endpoint, dependencies, resource);
      ReadsOfStep(endpoint, dependencies, read, resource);
      if resource == read.resource {
        assert At(index, resource) + [IndexedRead(endpoint, read)]
          == At(start, resource) + (ReadsOf(endpoint, dependencies, resource) + [IndexedRead(endpoint, read)]);
      }
    }
  }

  lemma ReadsOfStep(endpoint: string, dependencies: seq<Read>, read: Read, resource: string)
    ensures ReadsOf(endpoint, dependencies + [read], resource)
      == ReadsOf(endpoint, dependencies, resource) + if read.resource == resource then [IndexedRead(endpoint, read)] else []
  {
    assert (dependencies + [read])[..|dependencies|] == dependencies;
  }

  lemma ExtendsStart(start: map<string, seq<IndexedRead>>, endpoint: string, dependencies: seq<Read>)
    requires dependencies == []
    ensures Extends(start, start, endpoint, dependencies)
  {
    forall resource ensures At(start, resource) == At(start, resource) + ReadsOf(endpoint, dependencies, resource) {
    }
  }

  method IndexEndpoint(start: map<string, seq<IndexedRead>>, entry: EndpointReads)
    returns (index: map<string, seq<IndexedRead>>)
    ensures Extends(index, start, entry.endpoint, entry.dependencies)
  {
    hide Extends, At;
    index := start;
    ExtendsStart(start, entry.endpoint, entry.dependencies[..0]);
    for j := 0 to |entry.dependencies|
      invariant Extends(index, start, entry.endpoint, entry.dependencies[..j])
    {
      var read := entry.dependencies[j];
      ExtendsStep(index, start, entry.endpoint, entry.dependencies[..j], read);
      assert entry.dependencies[..j + 1] == entry.dependencies[..j] + [read];
      index := index[read.resource := At(index, read.resource) + [IndexedRead(entry.endpoint, read)]];
    }
    assert entry.dependencies[..|entry.dependencies|] == entry.dependencies;
  }

  ghost predicate Indexes(index: map<string, seq<IndexedRead>>, manifest: Manifest) {
    forall resource :: At(index, resource) == IndexOf(manifest, resource)
  }

  lemma IndexesStep(
      start: map<string, seq<IndexedRead>>, index: map<string, seq<IndexedRead>>, manifest: Manifest, entry: EndpointReads)
    requires Indexes(start, manifest) && Extends(index, start, entry.endpoint, entry.dependencies)
    ensures Indexes(index, manifest + [entry])
  {
    var all := manifest + [entry];
    assert all[..|all| - 1] == manifest;
  }

  /** `indexReads` once for all calculations. */
  method IndexReads(manifest: Manifest) returns (index: map<string, seq<IndexedRead>>)
    ensures Indexes(index, manifest)
  {
    index := map[];
    assert Indexes(index, manifest[..0]);
    hide Indexes, Extends;
    for i := 0 to |manifest|
      invariant Indexes(index, manifest[..i])
    {
      ghost var start := index;
      index := IndexEndpoint(index, manifest[i]);
      IndexesStep(start, index, manifest[..i], manifest[i]);
      assert manifest[..i + 1] == manifest[..i] + [manifest[i]];
    }
    assert manifest[..|manifest|] == manifest;
  }

  method BindRow(row: RowState, bindings: seq<Binding>) returns (input: Record, complete: bool)
    ensures (input, complete) == BindFrom(row, bindings, map[], true)
  {
    input, complete := map[], true;
    for i := 0 to |bindings|
      invariant BindFrom(row, bindings[i..], input, complete) == BindFrom(row, bindings, map[], true)
    {
      var binding := bindings[i];
      assert bindings[i..][0] == binding && bindings[i..][1..] == bindings[i + 1..];
      if row.Known? && binding.column in row.fields {
        var value := row.fields[binding.column];
        if binding.input in input && input[binding.input] != value {
          return map[], false;
        }
        input := input[binding.input := value];
      } else {
        complete := false;
      }
    }
  }

  function EntryAt(targets: map<TargetKey, TargetEntry>, key: TargetKey): Option<TargetEntry> {
    if key in targets then Some(targets[key]) else None
  }

  /** The targets abstract to the contributions seen so far, key by key. */
  ghost predicate Abstracts(sizes: Sizes, targets: map<TargetKey, TargetEntry>, hits: seq<Contribution>) {
    && (forall key :: key in targets ==> ValidTarget(sizes, key.endpoint, targets[key]))
    && (forall key :: CoverageOf(EntryAt(targets, key)) == AbsorbAll(InputsFor(hits, key)))
    && (forall key :: key in targets <==> InputsFor(hits, key) != [])
  }

  lemma AbstractsStep(
      sizes: Sizes, targets: map<TargetKey, TargetEntry>, hits: seq<Contribution>, hit: Contribution, entry: TargetEntry)
    requires Abstracts(sizes, targets, hits)
    requires ValidTarget(sizes, hit.key.endpoint, entry)
    requires CoverageOf(Some(entry)) == Absorb(CoverageOf(EntryAt(targets, hit.key)), hit.input)
    ensures Abstracts(sizes, targets[hit.key := entry], hits + [hit])
  {
    var grown := targets[hit.key := entry];
    hide ValidTarget, CoverageOf, Absorb, AbsorbAll, InputsFor;
    forall key
      ensures CoverageOf(EntryAt(grown, key)) == AbsorbAll(InputsFor(hits + [hit], key))
      ensures key in grown <==> InputsFor(hits + [hit], key) != []
    {
      InputsStep(hits, hit, key);
      if key == hit.key {
        AbsorbOneMore(InputsFor(hits, key), hit.input);
      }
    }
  }

  lemma InputsStep(hits: seq<Contribution>, hit: Contribution, key: TargetKey)
    ensures InputsFor(hits + [hit], key) == if key == hit.key then InputsFor(hits, key) + [hit.input] else InputsFor(hits, key)
  {
    assert (hits + [hit])[..|hits|] == hits;
    assert InputsFor(hits, key) + [] == InputsFor(hits, key);
  }

  lemma AbsorbOneMore(inputs: seq<Record>, next: Record)
    ensures AbsorbAll(inputs + [next]) == Absorb(AbsorbAll(inputs), next)
  {
    hide Absorb;
    assert (inputs + [next])[..|inputs|] == inputs;
  }

  lemma EntryIsValid(sizes: Sizes, targets: map<TargetKey, TargetEntry>, hits: seq<Contribution>, key: TargetKey)
    requires Abstracts(sizes, targets, hits)
    ensures var entry := EntryAt(targets, key);
      && CoverageOf(entry) == AbsorbAll(InputsFor(hits, key))
      && (entry.Some? ==> ValidTarget(sizes, key.endpoint, entry.value))
      && (entry.Some? && entry.value.selector.All? ==> forall input ::
            Absorb(CoverageOf(entry), input) == CoverageOf(entry) && !Overflows(CoverageOf(entry), input))
  {
  }

  lemma NoteStep(
      sizes: Sizes, targets: map<TargetKey, TargetEntry>, hits: seq<Contribution>, hit: Contribution,
      previous: Option<TargetEntry>, entry: TargetEntry, limited: bool)
    requires Abstracts(sizes, targets, hits) && previous == EntryAt(targets, hit.key)
    requires ValidTarget(sizes, hit.key.endpoint, entry)
    requires CoverageOf(Some(entry)) == Absorb(CoverageOf(previous), hit.input)
    requires limited <==> Overflows(CoverageOf(previous), hit.input)
    ensures Abstracts(sizes, targets[hit.key := entry], hits + [hit])
    ensures ReducedBy(hits + [hit]) == ReducedBy(hits) + if hit.imprecise || limited then {hit.key.endpoint} else {}
  {
    hide Abstracts, ReducedBy, ValidTarget, CoverageOf, Absorb, AbsorbAll, Overflows, InputsFor;
    EntryIsValid(sizes, targets, hits, hit.key);
    AbstractsStep(sizes, targets, hits, hit, entry);
    ReducedStep(hits, hit);
  }

  lemma ReducedStep(hits: seq<Contribution>, hit: Contribution)
    ensures ReducedBy(hits + [hit]) ==
      ReducedBy(hits)
      + if hit.imprecise || Overflows(AbsorbAll(InputsFor(hits, hit.key)), hit.input) then {hit.key.endpoint} else {}
  {
    assert (hits + [hit])[..|hits|] == hits;
  }

  lemma RowHitsNone(options: Options, fact: WriteFact, row: RowState, indexed: seq<IndexedRead>)
    requires fact.resource in options.resources
    ensures RowHits(options, fact, row, []) == [] && RowHits(options, fact, row, indexed[..0]) == []
    ensures row.Absent? ==> RowHits(options, fact, row, indexed) == []
  {
  }

  lemma RowHitsStep(options: Options, fact: WriteFact, row: RowState, indexed: seq<IndexedRead>, next: IndexedRead)
    requires fact.resource in options.resources && !row.Absent?
    ensures RowHits(options, fact, row, indexed + [next]) ==
      RowHits(options, fact, row, indexed)
      + match Decide(options, fact, row, next.endpoint, next.read)
        case Skip(_) => []
        case Hit(input, _, imprecise) => [Contribution(KeyFor(options, fact, next.endpoint), input, imprecise)]
  {
    assert (indexed + [next])[..|indexed|] == indexed;
  }

  ghost predicate Registered(options: Options, facts: seq<WriteFact>) {
    forall i :: 0 <= i < |facts| ==> facts[i].resource in options.resources
  }

  lemma AllHitsStep(options: Options, facts: seq<WriteFact>, next: WriteFact)
    requires Registered(options, facts) && next.resource in options.resources
    ensures Registered(options, facts + [next])
    ensures AllHits(options, facts + [next]) == AllHits(options, facts) + FactHits(options, next)
  {
    assert (facts + [next])[..|facts|] == facts;
  }

  class Calculator {
    const options: Options
    var targets: map<TargetKey, TargetEntry>
    var reduced: set<string>
    /** Every contribution so far, in the order the loops produced them. */
    ghost var hits: seq<Contribution>

    ghost predicate Valid()
      reads this
    {
      Abstracts(options.sizes, targets, hits) && reduced == ReducedBy(hits)
    }

    constructor (options: Options)
      ensures Valid() && hits == [] && this.options == options
    {
      this.options := options;
      targets, reduced, hits := map[], {}, [];
      new;
      assert forall key :: InputsFor(hits, key) == [];
    }

    /** One contribution reaches its target, unless that target is `all` already. */
    method Note(key: TargetKey, input: Record, imprecise: bool)
      requires Valid()
      modifies this`targets, this`reduced, this`hits
      ensures Valid() && hits == old(hits) + [Contribution(key, input, imprecise)]
    {
      hide Abstracts, ReducedBy, ValidTarget, CoverageOf, Absorb, AbsorbAll, Overflows, InputsFor;
      var previous := EntryAt(targets, key);
      EntryIsValid(options.sizes, targets, hits, key);
      var entry, limited := previous, false;
      if previous.None? || !previous.value.selector.All? {
        entry, limited := Contribute(options.sizes, key.endpoint, previous, input);
      }
      NoteStep(options.sizes, targets, hits, Contribution(key, input, imprecise), previous, entry.value, limited);
      targets := targets[key := entry.value];
      if imprecise || limited {
        reduced := reduced + {key.endpoint};
      }
      hits := hits + [Contribution(key, input, imprecise)];
    }

    method ProcessRow(fact: WriteFact, row: RowState, indexed: seq<IndexedRead>)
      requires Valid() && fact.resource in options.resources
      modifies this`targets, this`reduced, this`hits
      ensures Valid() && hits == old(hits) + RowHits(options, fact, row, indexed)
    {
      hide Valid, Decide, KeyFor, RowHits;
      RowHitsNone(options, fact, row, indexed);
      if row.Absent? {
        return;
      }
      for i := 0 to |indexed|
        invariant Valid() && hits == old(hits) + RowHits(options, fact, row, indexed[..i])
      {
        RowHitsStep(options, fact, row, indexed[..i], indexed[i]);
        assert indexed[..i + 1] == indexed[..i] + [indexed[i]];
        var decision := Consider(fact, row, indexed[i].endpoint, indexed[i].read);
        if decision.Hit? {
          Note(KeyFor(options, fact, indexed[i].endpoint), decision.input, decision.imprecise);
        }
      }
      assert indexed[..|indexed|] == indexed;
    }

    method Consider(fact: WriteFact, row: RowState, endpoint: string, original: Read) returns (decision: Decision)
      requires fact.resource in options.resources
      ensures decision == Decide(options, fact, row, endpoint, original)
    {
      var resource := options.resources[fact.resource];
      var status := StatusOf(options, endpoint);
      if status.Unavailable? {
        return Skip(EndpointUnavailable);
      }
      var read := if status.Conservative? then Broad(original) else original;
      if !status.Conservative? && resource.scopeColumn.Some? && row.Known? && row.scope != options.scope {
        return Skip(ScopeExcluded);
      }
      if Untouched(resource, fact, read) {
        return Skip(ColumnsUnchanged);
      }
      if ProvedOut(options.coerce, row, read) {
        return Skip(FilterExcluded);
      }
      var imprecise := Imprecise(fact, row, read);
      var input, complete := BindRow(row, read.bindings);
      var reason := if row.Unknown? then UnknownRow else if complete then Matched else MissingBinding;
      return Hit(input, reason, imprecise || reason != Matched);
    }

    /** The two outer loops. A fact of an unregistered resource is an error. */
    method Run(facts: seq<WriteFact>, index: map<string, seq<IndexedRead>>) returns (ok: bool)
      requires Valid() && hits == [] && Indexes(index, options.manifest)
      modifies this`targets, this`reduced, this`hits
      ensures Valid()
      ensures ok <==> Registered(options, facts)
      ensures ok ==> hits == AllHits(options, facts)
    {
      hide Valid, RowHits;
      for i := 0 to |facts|
        invariant Valid() && Registered(options, facts[..i])
        invariant hits == AllHits(options, facts[..i])
      {
        assert facts[..i + 1] == facts[..i] + [facts[i]];
        if facts[i].resource !in options.resources {
          return false;
        }
        var indexed := At(index, facts[i].resource);
        AllHitsStep(options, facts[..i], facts[i]);
        ProcessRow(facts[i], facts[i].before, indexed);
        ProcessRow(facts[i], facts[i].after, indexed);
      }
      assert facts[..|facts|] == facts;
      ok := true;
    }
  }

  // ----------------------------------------------------------- the impact set

  function TargetsFor(targets: map<TargetKey, TargetEntry>, endpoint: string): seq<Target> {
    (if TargetKey(endpoint, Caller) in targets
     then [Target(Caller, targets[TargetKey(endpoint, Caller)].selector)] else [])
    + (if TargetKey(endpoint, Global) in targets
       then [Target(Global, targets[TargetKey(endpoint, Global)].selector)] else [])
  }

  function Computed(reduced: set<string>, endpoint: string): Assessment {
    if endpoint in reduced then Conservative({PrecisionReduced}) else Verified
  }

  /** `applyAssessment` on one endpoint; an endpoint missing from the report was not validated. */
  function Applied(assessment: Option<Report>, endpoint: string, computed: Assessment): Assessment {
    if assessment.None? then computed
    else Merge(
      computed,
      if endpoint in assessment.value then assessment.value[endpoint] else Unavailable({ValidationFailed}))
  }

  ghost predicate SelectorIs(selector: Selector, coverage: Coverage) {
    match selector
    case All => coverage.Everything?
    case Inputs(values) =>
      && coverage == Listed(set value | value in values) && 1 <= |values| <= SELECTOR_LIMIT
      && forall m, n :: 0 <= m < n < |values| ==> values[m] != values[n]
  }

  /** What the contributions say about one endpoint, before the byte budget. */
  ghost predicate Reported(options: Options, hits: seq<Contribution>, endpoint: string, value: EndpointImpact) {
    && value.endpoint == endpoint
    && value.status == Applied(options.assessment, endpoint, Computed(ReducedBy(hits), endpoint))
    && |value.targets| <= 2
    && (|value.targets| == 2 ==> value.targets[0].scope.Caller? && value.targets[1].scope.Global?)
    && (value.status.Unavailable? ==> value.targets == [])
    && (!value.status.Unavailable? ==>
          forall scope :: InputsFor(hits, TargetKey(endpoint, scope)) != [] <==>
            exists j :: 0 <= j < |value.targets| && value.targets[j].scope == scope)
    && forall j :: 0 <= j < |value.targets| ==>
         SelectorIs(value.targets[j].selector, AbsorbAll(InputsFor(hits, TargetKey(endpoint, value.targets[j].scope))))
  }

  ghost predicate AllReported(options: Options, hits: seq<Contribution>, impact: Impact) {
    && |impact| == |options.manifest|
    && forall i {:trigger impact[i]} :: 0 <= i < |impact| ==> Reported(options, hits, options.manifest[i].endpoint, impact[i])
  }

  function ManifestEndpoints(manifest: Manifest): seq<string> {
    seq(|manifest|, i requires 0 <= i < |manifest| => manifest[i].endpoint)
  }

  /** The endpoint's entry of the impact, read off the calculator's tables. */
  function EntryFor(
    options: Options, targets: map<TargetKey, TargetEntry>, reduced: set<string>, endpoint: string): EndpointImpact
  {
    var status := Applied(options.assessment, endpoint, Computed(reduced, endpoint));
    EndpointImpact(endpoint, status, if status.Unavailable? then [] else TargetsFor(targets, endpoint))
  }

  lemma TargetsForScopes(targets: map<TargetKey, TargetEntry>, endpoint: string, scope: TargetScope)
    ensures TargetKey(endpoint, scope) in targets <==>
      exists j :: 0 <= j < |TargetsFor(targets, endpoint)| && TargetsFor(targets, endpoint)[j].scope == scope
    ensures forall j :: 0 <= j < |TargetsFor(targets, endpoint)| ==>
      var key := TargetKey(endpoint, TargetsFor(targets, endpoint)[j].scope);
      key in targets && TargetsFor(targets, endpoint)[j].selector == targets[key].selector
    ensures |TargetsFor(targets, endpoint)| <= 2
  {
    if TargetKey(endpoint, scope) in targets {
      var j := if scope.Global? && TargetKey(endpoint, Caller) in targets then 1 else 0;
      assert TargetsFor(targets, endpoint)[j].scope == scope;
    }
  }

  /** The selector of a valid target lists each record of its coverage once. */
  lemma TargetSelectorIs(sizes: Sizes, targets: map<TargetKey, TargetEntry>, hits: seq<Contribution>, key: TargetKey)
    requires Abstracts(sizes, targets, hits) && key in targets
    ensures SelectorIs(targets[key].selector, AbsorbAll(InputsFor(hits, key)))
  {
    hide AbsorbAll, InputsFor, TargetBytes, Bounded;
    var entry := targets[key];
    assert EntryAt(targets, key) == Some(entry);
    assert ValidTarget(sizes, key.endpoint, entry);
    if entry.selector.Inputs? {
      assert forall m :: 0 <= m < |entry.alternatives| ==> entry.selector.values[m] == entry.alternatives[m].value;
    }
  }

  lemma EntryIsReported(
      options: Options, targets: map<TargetKey, TargetEntry>, hits: seq<Contribution>, endpoint: string)
    requires Abstracts(options.sizes, targets, hits)
    ensures Reported(options, hits, endpoint, EntryFor(options, targets, ReducedBy(hits), endpoint))
  {
    hide Abstracts, TargetsFor, Merge, ReducedBy, SelectorIs, InputsFor, AbsorbAll;
    var value := EntryFor(options, targets, ReducedBy(hits), endpoint);
    TargetsForOrder(targets, endpoint);
    TargetsForScopes(targets, endpoint, Caller);
    TargetsForScopes(targets, endpoint, Global);
    TargetsReached(options.sizes, targets, hits, TargetKey(endpoint, Caller));
    TargetsReached(options.sizes, targets, hits, TargetKey(endpoint, Global));
    forall j | 0 <= j < |value.targets|
      ensures SelectorIs(value.targets[j].selector, AbsorbAll(InputsFor(hits, TargetKey(endpoint, value.targets[j].scope))))
    {
      TargetSelectorIs(options.sizes, targets, hits, TargetKey(endpoint, value.targets[j].scope));
    }
    if !value.status.Unavailable? {
      forall scope ensures InputsFor(hits, TargetKey(endpoint, scope)) != [] <==>
          exists j :: 0 <= j < |value.targets| && value.targets[j].scope == scope
      {
        assert scope == Caller || scope == Global;
      }
    }
  }

  lemma TargetsReached(sizes: Sizes, targets: map<TargetKey, TargetEntry>, hits: seq<Contribution>, key: TargetKey)
    requires Abstracts(sizes, targets, hits)
    ensures key in targets <==> InputsFor(hits, key) != []
  {
  }

  lemma TargetsForOrder(targets: map<TargetKey, TargetEntry>, endpoint: string)
    ensures var listed := TargetsFor(targets, endpoint);
      |listed| == 2 ==> listed[0].scope.Caller? && listed[1].scope.Global?
  {
  }

  lemma ReportedShape(options: Options, hits: seq<Contribution>, impact: Impact)
    requires AllReported(options, hits, impact)
    ensures WellShaped(impact) && Endpoints(impact) == ManifestEndpoints(options.manifest)
  {
    forall i | 0 <= i < |impact|
      ensures |impact[i].targets| <= 2 && impact[i].endpoint == options.manifest[i].endpoint
    {
      assert Reported(options, hits, options.manifest[i].endpoint, impact[i]);
    }
  }

  /** `calculate`: none when a fact names an unregistered resource. */
  method CalculateImpact(options: Options, facts: seq<WriteFact>) returns (impact: Option<Impact>)
    requires FitsBroad(options.sizes, ManifestEndpoints(options.manifest))
    ensures impact.None? <==> !Registered(options, facts)
    ensures impact.Some? ==> ImpactBytes(options.sizes, impact.value) <= IMPACT_BYTES
    ensures impact.Some? ==> exists exact ::
      AllReported(options, AllHits(options, facts), exact) && BoundsTo(options.sizes, exact, impact.value)
  {
    var index := IndexReads(options.manifest);
    var calculator := new Calculator(options);
    var ok := calculator.Run(facts, index);
    if !ok {
      return None;
    }
    var exact := Assemble(calculator);
    var bounded := BoundImpact(options.sizes, exact);
    impact := Some(bounded);
  }

  method Assemble(calculator: Calculator) returns (impact: Impact)
    requires calculator.Valid()
    ensures AllReported(calculator.options, calculator.hits, impact)
    ensures WellShaped(impact) && Endpoints(impact) == ManifestEndpoints(calculator.options.manifest)
  {
    var options := calculator.options;
    impact := [];
    hide Reported, EntryFor, ReducedBy;
    for i := 0 to |options.manifest|
      invariant |impact| == i
      invariant forall k :: 0 <= k < i ==> Reported(options, calculator.hits, options.manifest[k].endpoint, impact[k])
    {
      var endpoint := options.manifest[i].endpoint;
      EntryIsReported(options, calculator.targets, calculator.hits, endpoint);
      impact := impact + [EntryFor(options, calculator.targets, calculator.reduced, endpoint)];
    }
    ReportedShape(options, calculator.hits, impact);
  }
}
