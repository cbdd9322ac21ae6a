/**
 What the calculator answers, told from the facts and the manifest alone: which targets an endpoint has, what
 they list and when the answer is exact.
 */
module Exactness {
  import opened Contracts
  import opened Facts
  import opened Reads
  import opened WriteSets
  import opened Antichain
  import opened Assessments
  import opened Calculate
  import opened Soundness
  import opened Statuses

  // ------------------------------------------------------------ what counts

  /** One side of a fact as one read of an endpoint meets it. */
  datatype Cause = Cause(fact: WriteFact, row: RowState, read: Read)

  ghost predicate Concerns(options: Options, facts: seq<WriteFact>, endpoint: string, cause: Cause) {
    && cause.fact in facts && cause.read.resource == cause.fact.resource && !cause.row.Absent?
    && (cause.row == cause.fact.before || cause.row == cause.fact.after)
    && exists i :: 0 <= i < |options.manifest| && options.manifest[i].endpoint == endpoint
         && cause.read in options.manifest[i].dependencies
  }

  /** The report does not trust the endpoint's reads. */
  predicate Doubted(options: Options, endpoint: string) {
    options.assessment.Some? && endpoint in options.assessment.value && options.assessment.value[endpoint].Conservative?
  }

  predicate GivenUp(options: Options, endpoint: string) {
    options.assessment.Some? && endpoint in options.assessment.value && options.assessment.value[endpoint].Unavailable?
  }

  /** An update that lists its changed columns and lists none that matters. */
  ghost predicate NothingMattered(fact: WriteFact, matters: set<string>, everything: bool) {
    && fact.operation.Update? && fact.changed.Some?
    && forall column :: column in fact.changed.value ==> column !in matters && !everything
  }

  function ColumnsOf(resource: Resource, read: Read): set<string> {
    (if resource.scopeColumn.Some? then {resource.scopeColumn.value} else {})
    + (if read.columns.Every? then {} else set column | column in read.columns.names)
    + (set filter | filter in read.filters :: filter.column)
  }

  /** Certified values of the row that no row passing the filter can have. */
  ghost predicate ContradictsFilter(coerce: Coerce, row: RowState, read: Read) {
    && row.Known? && row.equality.Some?
    && exists filter :: filter in read.filters && filter.column in row.equality.value
         && !FilterMayEqual(coerce, row.equality.value[filter.column], filter.value)
  }

  /** Whether the cause has to be answered. Where the reads are doubted only an empty update does not. */
  ghost predicate Counts(options: Options, endpoint: string, cause: Cause)
    requires cause.fact.resource in options.resources
  {
    var resource := options.resources[cause.fact.resource];
    if Doubted(options, endpoint) then !(cause.fact.operation.Update? && cause.fact.changed == Some([]))
    else
      && (resource.scopeColumn.Some? && cause.row.Known? ==> cause.row.scope == options.scope)
      && !NothingMattered(cause.fact, ColumnsOf(resource, cause.read), cause.read.columns.Every?)
      && !ContradictsFilter(options.coerce, cause.row, cause.read)
  }

  // ------------------------------------------------------ the partial input

  ghost predicate Captures(row: RowState, bindings: seq<Binding>, name: string, value: Scalar) {
    row.Known? && exists b :: b in bindings && b.input == name && b.column in row.fields && row.fields[b.column] == value
  }

  ghost predicate Contradictory(row: RowState, bindings: seq<Binding>) {
    exists name, value, other :: Captures(row, bindings, name, value) && Captures(row, bindings, name, other) && value != other
  }

  /** What the row says about the input: every captured field, or nothing where two captures disagree. */
  ghost predicate IsInput(row: RowState, bindings: seq<Binding>, record: Record) {
    if Contradictory(row, bindings) then record == map[]
    else
      && (forall name :: name in record ==> Captures(row, bindings, name, record[name]))
      && forall name, value :: Captures(row, bindings, name, value) ==> name in record && record[name] == value
  }

  ghost predicate Complete(row: RowState, bindings: seq<Binding>) {
    !Contradictory(row, bindings) && forall b :: b in bindings ==> row.Known? && b.column in row.fields
  }

  /** Captured, or known before. */
  ghost predicate Given(input: Record, row: RowState, bindings: seq<Binding>, name: string, value: Scalar) {
    (name in input && input[name] == value) || Captures(row, bindings, name, value)
  }

  ghost predicate Disagree(input: Record, row: RowState, bindings: seq<Binding>) {
    exists name, value, other ::
      Given(input, row, bindings, name, value) && Given(input, row, bindings, name, other) && value != other
  }

  lemma CapturesFirst(row: RowState, bindings: seq<Binding>, name: string, value: Scalar)
    requires bindings != []
    ensures Captures(row, bindings, name, value) <==>
      || (row.Known? && bindings[0].input == name && bindings[0].column in row.fields && row.fields[bindings[0].column] == value)
      || Captures(row, bindings[1..], name, value)
  {
    assert bindings == [bindings[0]] + bindings[1..];
  }

  /** Binding from the left with what is known so far. */
  lemma {:induction false} BindMeans(row: RowState, bindings: seq<Binding>, input: Record, complete: bool)
    ensures var (record, full) := BindFrom(row, bindings, input, complete);
      && (full <==> complete && !Disagree(input, row, bindings) && forall b :: b in bindings ==> row.Known? && b.column in row.fields)
      && if Disagree(input, row, bindings) then record == map[]
         else (forall name, value :: Given(input, row, bindings, name, value) <==> name in record && record[name] == value)
    decreases |bindings|
  {
    if bindings == [] {
      NothingGiven(row, input);
    } else {
      var binding := bindings[0];
      if row.Known? && binding.column in row.fields {
        var value := row.fields[binding.column];
        assert Captures(row, bindings, binding.input, value);
        if binding.input in input && input[binding.input] != value {
          assert Given(input, row, bindings, binding.input, input[binding.input]);
          assert Given(input, row, bindings, binding.input, value);
        } else {
          GivenNext(row, bindings, input);
          BindMeans(row, bindings[1..], input[binding.input := value], complete);
          hide Given, Captures;
          AllButFirst(bindings);
        }
      } else {
        GivenSkipped(row, bindings, input);
        BindMeans(row, bindings[1..], input, false);
        assert binding in bindings;
      }
    }
  }

  lemma AllButFirst(bindings: seq<Binding>)
    requires bindings != []
    ensures forall b :: b in bindings <==> b == bindings[0] || b in bindings[1..]
  {
    assert bindings == [bindings[0]] + bindings[1..];
  }

  lemma NothingGiven(row: RowState, input: Record)
    ensures !Disagree(input, row, [])
    ensures forall name, value :: Given(input, row, [], name, value) <==> name in input && input[name] == value
  {
  }

  lemma GivenNext(row: RowState, bindings: seq<Binding>, input: Record)
    requires bindings != [] && row.Known? && bindings[0].column in row.fields
    requires var name := bindings[0].input; name in input ==> input[name] == row.fields[bindings[0].column]
    ensures var next := input[bindings[0].input := row.fields[bindings[0].column]];
      && (forall name, value :: Given(input, row, bindings, name, value) <==> Given(next, row, bindings[1..], name, value))
      && (Disagree(input, row, bindings) <==> Disagree(next, row, bindings[1..]))
  {
    var next := input[bindings[0].input := row.fields[bindings[0].column]];
    forall name, value ensures Given(input, row, bindings, name, value) <==> Given(next, row, bindings[1..], name, value) {
      CapturesFirst(row, bindings, name, value);
    }
    hide Given;
  }

  lemma GivenSkipped(row: RowState, bindings: seq<Binding>, input: Record)
    requires bindings != [] && !(row.Known? && bindings[0].column in row.fields)
    ensures forall name, value :: Given(input, row, bindings, name, value) <==> Given(input, row, bindings[1..], name, value)
    ensures Disagree(input, row, bindings) <==> Disagree(input, row, bindings[1..])
  {
    forall name, value ensures Given(input, row, bindings, name, value) <==> Given(input, row, bindings[1..], name, value) {
      CapturesFirst(row, bindings, name, value);
    }
    hide Given;
  }

  lemma BoundExactly(row: RowState, bindings: seq<Binding>, record: Record)
    ensures IsInput(row, bindings, record) <==> record == BindFrom(row, bindings, map[], true).0
    ensures Complete(row, bindings) <==> BindFrom(row, bindings, map[], true).1
  {
    BindMeans(row, bindings, map[], true);
    forall name, value ensures Given(map[], row, bindings, name, value) <==> Captures(row, bindings, name, value) {
    }
    hide Given, Captures;
    assert Disagree(map[], row, bindings) <==> Contradictory(row, bindings);
    var bound := BindFrom(row, bindings, map[], true).0;
    if !Contradictory(row, bindings) && IsInput(row, bindings, record) {
      assert forall name :: name in record ==> name in bound && bound[name] == record[name];
      assert forall name :: name in bound ==> Captures(row, bindings, name, bound[name]);
      assert record == bound;
    }
  }

  // ------------------------------------------------------------- the inputs

  function KindOf(options: Options, fact: WriteFact): TargetScope
    requires fact.resource in options.resources
  {
    if options.resources[fact.resource].scopeColumn.None? then Global else Caller
  }

  /** Some cause of an endpoint has to be answered at this kind of target, with this partial input. */
  ghost predicate Contributed(
    options: Options, facts: seq<WriteFact>, endpoint: string, scope: TargetScope, record: Record)
    requires Registered(options, facts)
  {
    exists cause: Cause ::
      && Concerns(options, facts, endpoint, cause) && Counts(options, endpoint, cause)
      && KindOf(options, cause.fact) == scope
      && IsInput(cause.row, if Doubted(options, endpoint) then [] else cause.read.bindings, record)
  }

  /** What keeps an answer from being exact: an unknown row or kind, changes not listed, a filter or field not captured. */
  ghost predicate Vague(cause: Cause) {
    || cause.row.Unknown? || cause.fact.operation.UnknownOperation?
    || (cause.fact.operation.Update? && cause.fact.changed.None? && !cause.read.columns.Every?)
    || (exists filter :: filter in cause.read.filters && !FilterExact(cause.row, filter))
    || !Complete(cause.row, cause.read.bindings)
  }

  lemma UntouchedMeans(resource: Resource, fact: WriteFact, read: Read)
    ensures Untouched(resource, fact, read) <==> NothingMattered(fact, ColumnsOf(resource, read), read.columns.Every?)
    ensures Untouched(resource, fact, Broad(read)) <==> fact.operation.Update? && fact.changed == Some([])
  {
    if fact.operation.Update? && fact.changed.Some? {
      var changed := fact.changed.value;
      forall column | column in changed
        ensures (column in ColumnsOf(resource, read) || read.columns.Every?) <==>
          Some(column) == resource.scopeColumn || Touches(read, column)
      {
        TouchesMeans(read, column);
      }
      assert changed != [] ==> Touches(Broad(read), changed[0]);
      hide Touches, ColumnsOf;
      if NothingMattered(fact, ColumnsOf(resource, read), read.columns.Every?) {
        forall i | 0 <= i < |changed| ensures !Touches(read, changed[i]) && Some(changed[i]) != resource.scopeColumn {
          assert changed[i] in changed;
        }
      }
      if Untouched(resource, fact, read) {
        forall column | column in changed ensures !Touches(read, column) && Some(column) != resource.scopeColumn {
          var i :| 0 <= i < |changed| && changed[i] == column;
        }
      }
    }
  }

  lemma TouchesMeans(read: Read, column: string)
    ensures Touches(read, column) <==>
      read.columns.Every? || column in read.columns.names || column in (set filter | filter in read.filters :: filter.column)
  {
    if exists filter :: filter in read.filters && filter.column == column {
      var filter :| filter in read.filters && filter.column == column;
      var i :| 0 <= i < |read.filters| && read.filters[i] == filter;
    }
  }

  lemma FiltersMean(coerce: Coerce, row: RowState, read: Read)
    ensures ProvedOut(coerce, row, read) <==> ContradictsFilter(coerce, row, read)
    ensures !ProvedOut(coerce, row, Broad(read))
    ensures (exists i :: 0 <= i < |read.filters| && !FilterExact(row, read.filters[i])) <==>
      (exists filter :: filter in read.filters && !FilterExact(row, filter))
  {
    if ContradictsFilter(coerce, row, read) {
      var filter :| filter in read.filters && filter.column in row.equality.value
        && !FilterMayEqual(coerce, row.equality.value[filter.column], filter.value);
      var i :| 0 <= i < |read.filters| && read.filters[i] == filter;
      assert FilterProvesOut(coerce, row, read.filters[i]);
    }
    if filter :| filter in read.filters && !FilterExact(row, filter) {
      var i :| 0 <= i < |read.filters| && read.filters[i] == filter;
    }
  }

  /** One decision of the calculator against what counts. */
  lemma DecidedExactly(options: Options, endpoint: string, cause: Cause, record: Record)
    requires cause.fact.resource in options.resources
    ensures var decision := Decide(options, cause.fact, cause.row, endpoint, cause.read);
      && (GivenUp(options, endpoint) ==> decision.Skip?)
      && (!GivenUp(options, endpoint) ==>
            && (decision.Hit? <==> Counts(options, endpoint, cause))
            && (decision.Hit? ==>
                  && (decision.input == record <==>
                        IsInput(cause.row, if Doubted(options, endpoint) then [] else cause.read.bindings, record))
                  && (!Doubted(options, endpoint) ==> (decision.imprecise <==> Vague(cause)))))
  {
    var read := cause.read;
    UntouchedMeans(options.resources[cause.fact.resource], cause.fact, read);
    FiltersMean(options.coerce, cause.row, read);
    BoundExactly(cause.row, read.bindings, record);
    BoundExactly(cause.row, [], record);
    hide Untouched, NothingMattered, ProvedOut, ContradictsFilter, IsInput, Complete, BindFrom, FilterExact, ColumnsOf;
  }

  lemma SourceIsCause(options: Options, facts: seq<WriteFact>, fact: WriteFact, row: RowState, entry: IndexedRead)
    requires fact in facts && !row.Absent? && (row == fact.before || row == fact.after)
    requires entry in IndexOf(options.manifest, fact.resource)
    ensures Concerns(options, facts, entry.endpoint, Cause(fact, row, entry.read))
  {
    IndexedResource(options.manifest, fact.resource, entry);
  }

  lemma CauseIsIndexed(options: Options, facts: seq<WriteFact>, endpoint: string, cause: Cause)
    requires Concerns(options, facts, endpoint, cause)
    ensures IndexedRead(endpoint, cause.read) in IndexOf(options.manifest, cause.fact.resource)
  {
    var i :| 0 <= i < |options.manifest| && options.manifest[i].endpoint == endpoint && cause.read in options.manifest[i].dependencies;
    var j :| 0 <= j < |options.manifest[i].dependencies| && options.manifest[i].dependencies[j] == cause.read;
    ManifestIsIndexed(options.manifest, cause.fact.resource, i, j);
  }

  lemma HitHasCause(options: Options, facts: seq<WriteFact>, hit: Contribution) returns (cause: Cause)
    requires Registered(options, facts) && hit in AllHits(options, facts)
    ensures var endpoint := hit.key.endpoint;
      && !GivenUp(options, endpoint) && Concerns(options, facts, endpoint, cause) && Counts(options, endpoint, cause)
      && KindOf(options, cause.fact) == hit.key.scope
      && IsInput(cause.row, if Doubted(options, endpoint) then [] else cause.read.bindings, hit.input)
      && (!Doubted(options, endpoint) ==> (hit.imprecise <==> Vague(cause)))
  {
    var fact, row, entry := HitSource(options, facts, hit);
    cause := Cause(fact, row, entry.read);
    SourceIsCause(options, facts, fact, row, entry);
    DecidedExactly(options, entry.endpoint, cause, hit.input);
    hide Decide, Concerns, Counts, IsInput, Vague;
  }

  lemma CauseHits(options: Options, facts: seq<WriteFact>, endpoint: string, cause: Cause) returns (hit: Contribution)
    requires Registered(options, facts) && !GivenUp(options, endpoint)
    requires Concerns(options, facts, endpoint, cause) && Counts(options, endpoint, cause)
    ensures hit in AllHits(options, facts) && hit.key == TargetKey(endpoint, KindOf(options, cause.fact))
    ensures IsInput(cause.row, if Doubted(options, endpoint) then [] else cause.read.bindings, hit.input)
    ensures !Doubted(options, endpoint) ==> (hit.imprecise <==> Vague(cause))
  {
    CauseIsIndexed(options, facts, endpoint, cause);
    var decision := Decide(options, cause.fact, cause.row, endpoint, cause.read);
    DecidedExactly(options, endpoint, cause, if decision.Hit? then decision.input else map[]);
    var k :| 0 <= k < |facts| && facts[k] == cause.fact;
    hide Decide, Counts, IsInput, Vague, RowHits;
    RowHitsHas(options, cause.fact, cause.row, IndexOf(options.manifest, cause.fact.resource), IndexedRead(endpoint, cause.read));
    hit := Contribution(KeyFor(options, cause.fact, endpoint), decision.input, decision.imprecise);
    AllHitsHas(options, facts, k, hit);
  }

  lemma OneInput(row: RowState, bindings: seq<Binding>, left: Record, right: Record)
    requires IsInput(row, bindings, left) && IsInput(row, bindings, right)
    ensures left == right
  {
    BoundExactly(row, bindings, left);
    BoundExactly(row, bindings, right);
  }

  /** The inputs the calculator collects for a target are exactly the contributed ones. */
  lemma InputsExactly(options: Options, facts: seq<WriteFact>, endpoint: string, scope: TargetScope, record: Record)
    requires Registered(options, facts) && !GivenUp(options, endpoint)
    ensures record in InputsFor(AllHits(options, facts), TargetKey(endpoint, scope)) <==>
      Contributed(options, facts, endpoint, scope, record)
  {
    var key, hits := TargetKey(endpoint, scope), AllHits(options, facts);
    hide AllHits, InputsFor, Counts, Concerns, IsInput, Doubted, GivenUp;
    if record in InputsFor(hits, key) {
      var hit := InputHasHit(hits, key, record);
      var cause := HitHasCause(options, facts, hit);
    }
    if Contributed(options, facts, endpoint, scope, record) {
      var cause: Cause :|
        Concerns(options, facts, endpoint, cause) && Counts(options, endpoint, cause) && KindOf(options, cause.fact) == scope
        && IsInput(cause.row, if Doubted(options, endpoint) then [] else cause.read.bindings, record);
      var hit := CauseHits(options, facts, endpoint, cause);
      OneInput(cause.row, if Doubted(options, endpoint) then [] else cause.read.bindings, record, hit.input);
      HitIsInput(hits, hit);
    }
  }

  // ------------------------------------------------------------- the entry

  /** Never more than the limit, so nothing is ever given up for it. */
  lemma {:induction false} FewNeverOverflow(inputs: seq<Record>, distinct: set<Record>)
    requires (forall record :: record in inputs ==> record in distinct) && |distinct| <= SELECTOR_LIMIT
    ensures !EverOverflows(inputs)
    decreases |inputs|
  {
    if inputs != [] {
      var earlier, last := inputs[..|inputs| - 1], inputs[|inputs| - 1];
      assert last in inputs;
      FewNeverOverflow(earlier, distinct);
      AbsorbAllIsMinimal(earlier);
      if AbsorbAll(earlier).Listed? {
        var grown := Thin(AbsorbAll(earlier).values, last) + {last};
        assert grown <= distinct;
        SubsetSize(grown, distinct);
      }
    }
  }

  /** The targets of an answered endpoint are those kinds at which some cause has to be answered. */
  lemma TargetsExactly(options: Options, facts: seq<WriteFact>, endpoint: string, value: EndpointImpact, scope: TargetScope)
    requires Registered(options, facts) && Reported(options, AllHits(options, facts), endpoint, value)
    requires !value.status.Unavailable?
    ensures (exists j :: 0 <= j < |value.targets| && value.targets[j].scope == scope) <==>
      exists record :: Contributed(options, facts, endpoint, scope, record)
  {
    AnsweredIsTrusted(options, AllHits(options, facts), endpoint, value);
    var inputs := InputsFor(AllHits(options, facts), TargetKey(endpoint, scope));
    hide Contributed;
    forall record ensures record in inputs <==> Contributed(options, facts, endpoint, scope, record) {
      InputsExactly(options, facts, endpoint, scope, record);
    }
    assert inputs != [] ==> inputs[0] in inputs;
    hide AllHits, InputsFor;
  }

  lemma AnsweredIsTrusted(options: Options, hits: seq<Contribution>, endpoint: string, value: EndpointImpact)
    ensures Reported(options, hits, endpoint, value) && !value.status.Unavailable? ==> !GivenUp(options, endpoint)
  {
  }

  /**
   What a target lists, as long as there are at most 100 distinct partial inputs: `all` exactly if one of them
   is empty, and otherwise those that no other one subsumes.
   */
  lemma SelectorExactly(
      options: Options, facts: seq<WriteFact>, endpoint: string, value: EndpointImpact, j: nat, inputs: set<Record>)
    requires Registered(options, facts) && Reported(options, AllHits(options, facts), endpoint, value)
    requires j < |value.targets| && |inputs| <= SELECTOR_LIMIT
    requires forall record :: record in inputs <==> Contributed(options, facts, endpoint, value.targets[j].scope, record)
    ensures value.targets[j].selector.All? <==> map[] in inputs
    ensures value.targets[j].selector.Inputs? ==> forall record ::
      record in value.targets[j].selector.values <==>
        record in inputs && forall other :: other in inputs && Subsumes(other, record) ==> other == record
  {
    var selector, key := value.targets[j].selector, TargetKey(endpoint, value.targets[j].scope);
    AnsweredIsTrusted(options, AllHits(options, facts), endpoint, value);
    assert SelectorIs(selector, AbsorbAll(InputsFor(AllHits(options, facts), key)));
    var list := InputsFor(AllHits(options, facts), key);
    hide AllHits, InputsFor, Reported, AbsorbAll, EverOverflows, Contributed;
    forall record ensures record in list <==> record in inputs {
      InputsExactly(options, facts, endpoint, value.targets[j].scope, record);
    }
    FewNeverOverflow(list, inputs);
    AbsorbAllIsMinimal(list);
    ListsMinimal(selector, list);
  }

  lemma ListsMinimal(selector: Selector, list: seq<Record>)
    requires SelectorIs(selector, AbsorbAll(list))
    requires AbsorbAll(list) == if map[] in list then Everything else Listed(Minimal(list))
    ensures selector.All? <==> map[] in list
    ensures selector.Inputs? ==> forall record ::
      record in selector.values <==> record in list && forall other :: other in list && Subsumes(other, record) ==> other == record
  {
    if selector.Inputs? {
      assert (set value | value in selector.values) == Minimal(list);
      forall record ensures record in selector.values <==> record in Minimal(list) {
        assert record in selector.values <==> record in (set value | value in selector.values);
      }
    }
  }

  // ------------------------------------------------------------- the status

  /** An endpoint is only reduced by a contribution that was not exact, or by the selector limit. */
  lemma {:induction false} ReducedBecause(hits: seq<Contribution>, endpoint: string)
    requires endpoint in ReducedBy(hits)
    ensures (exists hit :: hit in hits && hit.key.endpoint == endpoint && hit.imprecise)
      || exists scope :: EverOverflows(InputsFor(hits, TargetKey(endpoint, scope)))
  {
    var earlier, last := hits[..|hits| - 1], hits[|hits| - 1];
    assert hits == earlier + [last];
    var inputs := InputsFor(earlier, last.key);
    if endpoint in ReducedBy(earlier) {
      ReducedBecause(earlier, endpoint);
      if scope :| EverOverflows(InputsFor(earlier, TargetKey(endpoint, scope))) {
        OverflowStays(earlier, last, TargetKey(endpoint, scope));
      }
    } else if !last.imprecise {
      InputsStep(earlier, last, last.key);
      assert (inputs + [last.input])[..|inputs|] == inputs;
      assert last.key == TargetKey(endpoint, last.key.scope);
      assert EverOverflows(InputsFor(hits, TargetKey(endpoint, last.key.scope)));
    }
  }

  lemma OverflowStays(earlier: seq<Contribution>, last: Contribution, key: TargetKey)
    ensures EverOverflows(InputsFor(earlier, key)) ==> EverOverflows(InputsFor(earlier + [last], key))
  {
    InputsStep(earlier, last, key);
    var inputs := InputsFor(earlier, key);
    assert (inputs + [last.input])[..|inputs|] == inputs;
  }

  /** At most 100 distinct partial inputs at every kind of target. */
  ghost predicate Few(options: Options, facts: seq<WriteFact>, endpoint: string, inputs: set<Record>)
    requires Registered(options, facts)
  {
    && |inputs| <= SELECTOR_LIMIT
    && forall scope, record :: Contributed(options, facts, endpoint, scope, record) ==> record in inputs
  }

  /** Nothing the report says, no vague cause and no limit stands against the answer. */
  ghost predicate EverythingExact(options: Options, facts: seq<WriteFact>, endpoint: string)
    requires Registered(options, facts)
  {
    && (options.assessment.Some? ==> endpoint in options.assessment.value && options.assessment.value[endpoint].Verified?)
    && forall cause: Cause ::
         Concerns(options, facts, endpoint, cause) && Counts(options, endpoint, cause) ==> !Vague(cause)
  }

  /**
   An answer is called verified exactly if the report calls the endpoint verified and every cause that has to be
   answered is exact: a known row of a known kind of write, changes listed where they matter, and every filter and
   bound field captured.
   */
  lemma StatusExactly(options: Options, facts: seq<WriteFact>, endpoint: string, value: EndpointImpact, inputs: set<Record>)
    requires Registered(options, facts) && Reported(options, AllHits(options, facts), endpoint, value)
    requires Few(options, facts, endpoint, inputs)
    ensures value.status.Verified? <==> EverythingExact(options, facts, endpoint)
    ensures value.status.Unavailable? <==>
      options.assessment.Some? && (endpoint in options.assessment.value ==> options.assessment.value[endpoint].Unavailable?)
    ensures !Doubted(options, endpoint) && !value.status.Unavailable? ==>
      Codes(value.status) == if EverythingExact(options, facts, endpoint) then {} else {PrecisionReduced}
    ensures Doubted(options, endpoint) || value.status.Unavailable? ==>
      ReportCodes(options, endpoint) <= Codes(value.status) <= ReportCodes(options, endpoint) + {PrecisionReduced}
  {
    var hits := AllHits(options, facts);
    ReportDecides(options, hits, endpoint, value);
    var trusted := options.assessment.Some? ==> endpoint in options.assessment.value && options.assessment.value[endpoint].Verified?;
    hide AllHits, Reported, Applied, Computed, Counts, Concerns, Vague, ReducedBy, Few;
    if trusted && endpoint in ReducedBy(hits) {
      ReducedBecause(hits, endpoint);
      NoOverflow(options, facts, endpoint, inputs);
      var hit :| hit in hits && hit.key.endpoint == endpoint && hit.imprecise;
      var cause := HitHasCause(options, facts, hit);
    }
    if trusted && endpoint !in ReducedBy(hits) {
      forall cause: Cause | Concerns(options, facts, endpoint, cause) && Counts(options, endpoint, cause) ensures !Vague(cause) {
        var hit := CauseHits(options, facts, endpoint, cause);
        NotReduced(hits, hit.key);
      }
    }
  }

  lemma NoOverflow(options: Options, facts: seq<WriteFact>, endpoint: string, inputs: set<Record>)
    requires Registered(options, facts) && Few(options, facts, endpoint, inputs) && !GivenUp(options, endpoint)
    ensures forall scope :: !EverOverflows(InputsFor(AllHits(options, facts), TargetKey(endpoint, scope)))
  {
    hide EverOverflows, AllHits, Contributed;
    forall scope ensures !EverOverflows(InputsFor(AllHits(options, facts), TargetKey(endpoint, scope))) {
      var list := InputsFor(AllHits(options, facts), TargetKey(endpoint, scope));
      forall record | record in list ensures record in inputs {
        InputsExactly(options, facts, endpoint, scope, record);
      }
      FewNeverOverflow(list, inputs);
    }
  }

  lemma ReportDecides(options: Options, hits: seq<Contribution>, endpoint: string, value: EndpointImpact)
    requires Reported(options, hits, endpoint, value)
    ensures value.status.Verified? <==>
      && (options.assessment.Some? ==> endpoint in options.assessment.value && options.assessment.value[endpoint].Verified?)
      && endpoint !in ReducedBy(hits)
    ensures value.status.Unavailable? <==>
      options.assessment.Some? && (endpoint in options.assessment.value ==> options.assessment.value[endpoint].Unavailable?)
    ensures Codes(value.status) == ReportCodes(options, endpoint) + if endpoint in ReducedBy(hits) then {PrecisionReduced} else {}
  {
  }

  /** Why the report does not trust the endpoint; one it leaves out was not validated. */
  function ReportCodes(options: Options, endpoint: string): set<Code> {
    if options.assessment.None? then {}
    else if endpoint in options.assessment.value then Codes(options.assessment.value[endpoint])
    else {ValidationFailed}
  }

  // --------------------------------------------------------- doubted reads

  /**
   Where the report doubts an endpoint's reads, any fact with a row on a table one of them names is answered with
   `all`, whatever the row's scope, columns or certified values; only an update that lists no changed column is
   not. Bounding does not change that.
   */
  lemma DoubtedTakesAll(
      options: Options, facts: seq<WriteFact>, exact: Impact, impact: Impact, i: nat, j: nat, fact: WriteFact)
      returns (t: nat)
    requires Registered(options, facts) && AllReported(options, AllHits(options, facts), exact)
    requires BoundsTo(options.sizes, exact, impact)
    requires i < |options.manifest| && j < |options.manifest[i].dependencies| && Doubted(options, options.manifest[i].endpoint)
    requires fact in facts && options.manifest[i].dependencies[j].resource == fact.resource
    requires !fact.before.Absent? || !fact.after.Absent?
    requires !(fact.operation.Update? && fact.changed == Some([]))
    ensures i < |impact| && t < |impact[i].targets| && impact[i].targets[t].selector.All?
    ensures impact[i].targets[t].scope == if options.resources[fact.resource].scopeColumn.None? then Global else Caller
  {
    var endpoint, read := options.manifest[i].endpoint, options.manifest[i].dependencies[j];
    var cause := Cause(fact, if fact.before.Absent? then fact.after else fact.before, read);
    hide AllHits, ImpactBytes, GoesFirst, EarlierIsOver, Reported, SelectorIs;
    assert Concerns(options, facts, endpoint, cause) && Counts(options, endpoint, cause);
    NothingCaptured(cause.row);
    assert Reported(options, AllHits(options, facts), endpoint, exact[i]);
    assert EndpointWidened(exact[i], impact[i]);
    var scope := KindOf(options, fact);
    assert Contributed(options, facts, endpoint, scope, map[]);
    hide Contributed, BoundsTo, Counts, Concerns;
    DoubtedIsAnswered(options, AllHits(options, facts), endpoint, exact[i]);
    TargetsExactly(options, facts, endpoint, exact[i], scope);
    t :| 0 <= t < |exact[i].targets| && exact[i].targets[t].scope == scope;
    EmptyMeansAll(options, facts, endpoint, exact[i], t);
    assert TargetWidened(exact[i].targets[t], impact[i].targets[t]);
  }

  lemma NothingCaptured(row: RowState)
    ensures IsInput(row, [], map[])
  {
  }

  lemma DoubtedIsAnswered(options: Options, hits: seq<Contribution>, endpoint: string, value: EndpointImpact)
    ensures Reported(options, hits, endpoint, value) && Doubted(options, endpoint) ==> !value.status.Unavailable?
  {
  }

  lemma EmptyMeansAll(options: Options, facts: seq<WriteFact>, endpoint: string, value: EndpointImpact, t: nat)
    requires Registered(options, facts) && Reported(options, AllHits(options, facts), endpoint, value)
    requires t < |value.targets| && Contributed(options, facts, endpoint, value.targets[t].scope, map[])
    ensures value.targets[t].selector.All?
  {
    var key := TargetKey(endpoint, value.targets[t].scope);
    var list := InputsFor(AllHits(options, facts), key);
    assert SelectorIs(value.targets[t].selector, AbsorbAll(list));
    AnsweredIsTrusted(options, AllHits(options, facts), endpoint, value);
    hide AllHits, InputsFor, Reported, Contributed;
    InputsExactly(options, facts, endpoint, value.targets[t].scope, map[]);
    var n :| 0 <= n < |list| && list[n] == map[];
    AbsorbAllSound(list, n);
  }
}
