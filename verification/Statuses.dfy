/** What the statuses of an impact mean: `verified` lists exactly what was written, and worse never drops. */
module Statuses {
  import opened Contracts
  import opened Facts
  import opened Reads
  import opened WriteSets
  import opened Antichain
  import opened Assessments
  import opened Calculate
  import opened Soundness

  // --------------------------------------------------- verified means exact

  /** `value` is the full binding map of a known row: every binding captured, nothing else listed. */
  ghost predicate FullBinding(row: RowState, bindings: seq<Binding>, value: Record) {
    && row.Known?
    && (forall i :: 0 <= i < |bindings| ==>
          && bindings[i].column in row.fields
          && bindings[i].input in value
          && value[bindings[i].input] == row.fields[bindings[i].column])
    && forall name :: name in value ==> exists i :: 0 <= i < |bindings| && bindings[i].input == name
  }

  /** A known row the caller can see, written by a fact of known kind, matching every filter exactly. */
  ghost predicate ExactSource(options: Options, fact: WriteFact, row: RowState, read: Read, value: Record) {
    && fact.resource in options.resources && read.resource == fact.resource
    && (row == fact.before || row == fact.after)
    && !fact.operation.UnknownOperation?
    && FullBinding(row, read.bindings, value)
    && (options.resources[fact.resource].scopeColumn.Some? ==> row.scope == options.scope)
    && (forall i :: 0 <= i < |read.filters| ==> FilterExact(row, read.filters[i]))
    && !Untouched(options.resources[fact.resource], fact, read)
  }

  lemma {:induction false} CompleteIsFull(row: RowState, bindings: seq<Binding>, input: Record, complete: bool)
    requires BindFrom(row, bindings, input, complete).1
    ensures complete
    ensures var value := BindFrom(row, bindings, input, complete).0;
      && (bindings != [] ==> row.Known?)
      && (row.Known? ==> forall i :: 0 <= i < |bindings| ==>
            && bindings[i].column in row.fields && bindings[i].input in value
            && value[bindings[i].input] == row.fields[bindings[i].column])
      && Subsumes(input, value)
      && forall name :: name in value ==> name in input || exists i :: 0 <= i < |bindings| && bindings[i].input == name
  {
    if bindings != [] {
      var binding := bindings[0];
      if row.Known? && binding.column in row.fields {
        var next := input[binding.input := row.fields[binding.column]];
        CompleteIsFull(row, bindings[1..], next, complete);
        var value := BindFrom(row, bindings, input, complete).0;
        forall name | name in value && name !in input
          ensures exists i :: 0 <= i < |bindings| && bindings[i].input == name
        {
          if name == binding.input {
            assert bindings[0].input == name;
          } else {
            var i :| 0 <= i < |bindings| - 1 && bindings[1..][i].input == name;
            assert bindings[i + 1].input == name;
          }
        }
        forall i | 0 <= i < |bindings|
          ensures bindings[i].column in row.fields && bindings[i].input in value
          ensures value[bindings[i].input] == row.fields[bindings[i].column]
        {
          if i > 0 {
            assert bindings[1..][i - 1] == bindings[i];
          }
        }
      } else {
        CompleteIsFull(row, bindings[1..], input, false);
      }
    }
  }

  /** Where a contribution came from. */
  ghost predicate Source(
    options: Options, fact: WriteFact, row: RowState, entry: IndexedRead, hit: Contribution)
  {
    && fact.resource in options.resources
    && (row == fact.before || row == fact.after)
    && entry in IndexOf(options.manifest, fact.resource)
    && hit.key == KeyFor(options, fact, entry.endpoint)
    && var decision := Decide(options, fact, row, entry.endpoint, entry.read);
       decision.Hit? && decision.input == hit.input && decision.imprecise == hit.imprecise
  }

  lemma {:induction false} RowHitSource(
      options: Options, fact: WriteFact, row: RowState, indexed: seq<IndexedRead>, hit: Contribution)
      returns (entry: IndexedRead)
    requires fact.resource in options.resources
    requires row == fact.before || row == fact.after
    requires hit in RowHits(options, fact, row, indexed)
    requires forall e :: e in indexed ==> e in IndexOf(options.manifest, fact.resource)
    ensures Source(options, fact, row, entry, hit) && !row.Absent?
  {
    var earlier := indexed[..|indexed| - 1];
    assert indexed == earlier + [indexed[|indexed| - 1]];
    RowHitsStep(options, fact, row, earlier, indexed[|indexed| - 1]);
    if hit in RowHits(options, fact, row, earlier) {
      entry := RowHitSource(options, fact, row, earlier, hit);
    } else {
      entry := indexed[|indexed| - 1];
    }
  }

  lemma {:induction false} HitSource(options: Options, facts: seq<WriteFact>, hit: Contribution)
      returns (fact: WriteFact, row: RowState, entry: IndexedRead)
    requires Registered(options, facts) && hit in AllHits(options, facts)
    ensures fact in facts && Source(options, fact, row, entry, hit) && !row.Absent?
  {
    var last := facts[|facts| - 1];
    var earlier := facts[..|facts| - 1];
    assert facts == earlier + [last];
    AllHitsStep(options, earlier, last);
    if hit in AllHits(options, earlier) {
      fact, row, entry := HitSource(options, earlier, hit);
    } else {
      fact := last;
      var indexed := IndexOf(options.manifest, last.resource);
      row := if hit in RowHits(options, last, last.before, indexed) then last.before else last.after;
      entry := RowHitSource(options, last, row, indexed, hit);
    }
  }

  /** Every input listed for a key was contributed by some hit of that key. */
  lemma {:induction false} InputHasHit(hits: seq<Contribution>, key: TargetKey, input: Record) returns (hit: Contribution)
    requires input in InputsFor(hits, key)
    ensures hit in hits && hit.key == key && hit.input == input
  {
    var earlier := hits[..|hits| - 1];
    assert hits == earlier + [hits[|hits| - 1]];
    if input in InputsFor(earlier, key) {
      hit := InputHasHit(earlier, key, input);
    } else {
      hit := hits[|hits| - 1];
    }
  }

  /** An endpoint that was not reduced had only precise contributions and never met the selector limit. */
  lemma {:induction false} NotReduced(hits: seq<Contribution>, key: TargetKey)
    requires key.endpoint !in ReducedBy(hits)
    ensures forall hit :: hit in hits && hit.key.endpoint == key.endpoint ==> !hit.imprecise
    ensures !EverOverflows(InputsFor(hits, key))
  {
    if hits != [] {
      var earlier := hits[..|hits| - 1];
      var last := hits[|hits| - 1];
      assert hits == earlier + [last];
      ReducedStep(earlier, last);
      NotReduced(earlier, key);
      var inputs := InputsFor(earlier, key);
      if last.key == key {
        assert InputsFor(hits, key) == inputs + [last.input];
        assert (inputs + [last.input])[..|inputs|] == inputs;
      } else {
        assert InputsFor(hits, key) == inputs + [];
        assert inputs + [] == inputs;
      }
    }
  }

  lemma PreciseIsExact(options: Options, fact: WriteFact, row: RowState, entry: IndexedRead, hit: Contribution)
    requires Source(options, fact, row, entry, hit) && !hit.imprecise
    requires !StatusOf(options, entry.endpoint).Conservative?
    requires !row.Absent? && entry.read.resource == fact.resource
    ensures ExactSource(options, fact, row, entry.read, hit.input)
  {
    CompleteIsFull(row, entry.read.bindings, map[], true);
  }

  lemma {:induction false} ReadsOfResource(endpoint: string, dependencies: seq<Read>, resource: string, entry: IndexedRead)
    requires entry in ReadsOf(endpoint, dependencies, resource)
    ensures entry.read.resource == resource && entry.endpoint == endpoint && entry.read in dependencies
  {
    var earlier := dependencies[..|dependencies| - 1];
    assert dependencies == earlier + [dependencies[|dependencies| - 1]];
    if entry in ReadsOf(endpoint, earlier, resource) {
      ReadsOfResource(endpoint, earlier, resource, entry);
    }
  }

  lemma {:induction false} IndexedResource(manifest: Manifest, resource: string, entry: IndexedRead)
    requires entry in IndexOf(manifest, resource)
    ensures entry.read.resource == resource
    ensures exists i :: 0 <= i < |manifest| && manifest[i].endpoint == entry.endpoint && entry.read in manifest[i].dependencies
  {
    var earlier := manifest[..|manifest| - 1];
    var last := manifest[|manifest| - 1];
    if entry in IndexOf(earlier, resource) {
      IndexedResource(earlier, resource, entry);
      var i :| 0 <= i < |earlier| && earlier[i].endpoint == entry.endpoint && entry.read in earlier[i].dependencies;
      assert manifest[i] == earlier[i];
    } else {
      ReadsOfResource(last.endpoint, last.dependencies, resource, entry);
      assert manifest[|manifest| - 1] == last;
    }
  }

  lemma AppliedVerified(options: Options, reduced: set<string>, endpoint: string)
    ensures Applied(options.assessment, endpoint, Computed(reduced, endpoint)).Verified? ==>
      endpoint !in reduced && !StatusOf(options, endpoint).Conservative?
  {
  }

  ghost predicate Lists(selector: Selector, record: Record) {
    match selector
    case Inputs(values) => record in values
    case All => record == map[]
  }

  lemma ListedWasContributed(selector: Selector, inputs: seq<Record>, record: Record)
    requires SelectorIs(selector, AbsorbAll(inputs)) && !EverOverflows(inputs)
    requires Lists(selector, record)
    ensures record in inputs
  {
    AbsorbAllIsMinimal(inputs);
    if selector.Inputs? {
      assert record in (set value | value in selector.values);
      assert record in Minimal(inputs);
    }
  }

  /** A value of an endpoint still verified after bounding was contributed, and only precise hits were. */
  lemma VerifiedValue(options: Options, hits: seq<Contribution>, endpoint: string, exact: EndpointImpact,
                      value: EndpointImpact, j: nat, record: Record)
    requires Reported(options, hits, endpoint, exact) && EndpointWidened(exact, value)
    requires value.status.Verified? && j < |value.targets| && Lists(value.targets[j].selector, record)
    ensures !StatusOf(options, endpoint).Conservative?
    ensures record in InputsFor(hits, TargetKey(endpoint, value.targets[j].scope))
    ensures forall hit :: hit in hits && hit.key.endpoint == endpoint ==> !hit.imprecise
  {
    assert value == exact;
    var key := TargetKey(endpoint, exact.targets[j].scope);
    assert SelectorIs(exact.targets[j].selector, AbsorbAll(InputsFor(hits, key)));
    hide AbsorbAll, EverOverflows, InputsFor, ReducedBy, SelectorIs, Lists;
    AppliedVerified(options, ReducedBy(hits), endpoint);
    NotReduced(hits, key);
    ListedWasContributed(exact.targets[j].selector, InputsFor(hits, key), record);
  }

  /**
   `verified` is exact. Every value a verified endpoint lists is the full binding map of some known
   row that was written in scope and matches all filters of a read of that endpoint exactly; an `all`
   selector of a verified endpoint comes from such a row of a read without bindings.
   */
  lemma VerifiedIsExact(options: Options, facts: seq<WriteFact>, exact: Impact, impact: Impact, i: nat, j: nat, value: Record)
      returns (fact: WriteFact, row: RowState, entry: IndexedRead)
    requires Registered(options, facts)
    requires AllReported(options, AllHits(options, facts), exact) && ImpactWidened(exact, impact)
    requires i < |impact| && impact[i].status.Verified? && j < |impact[i].targets|
    requires Lists(impact[i].targets[j].selector, value)
    ensures fact in facts && ExactSource(options, fact, row, entry.read, value)
    ensures entry in IndexOf(options.manifest, fact.resource) && entry.endpoint == options.manifest[i].endpoint
  {
    var hits := AllHits(options, facts);
    var endpoint := options.manifest[i].endpoint;
    assert Reported(options, hits, endpoint, exact[i]) && EndpointWidened(exact[i], impact[i]);
    hide Reported, EndpointWidened, Registered;
    VerifiedValue(options, hits, endpoint, exact[i], impact[i], j, value);
    var hit := InputHasHit(hits, TargetKey(endpoint, impact[i].targets[j].scope), value);
    fact, row, entry := HitSource(options, facts, hit);
    IndexedResource(options.manifest, fact.resource, entry);
    PreciseIsExact(options, fact, row, entry, hit);
  }

  // ------------------------------------------------ worse never deselects

  /** How bad a report says an endpoint is; an endpoint it does not mention was not validated. */
  function ReportRank(assessment: Option<Report>, endpoint: string): nat {
    if assessment.None? then 0
    else if endpoint in assessment.value then Rank(assessment.value[endpoint])
    else 2
  }

  ghost predicate SameDecisions(a: Options, b: Options, endpoint: string) {
    && a == b.(assessment := a.assessment)
    && StatusOf(a, endpoint).Conservative? == StatusOf(b, endpoint).Conservative?
    && StatusOf(a, endpoint).Unavailable? == StatusOf(b, endpoint).Unavailable?
  }

  /** The contributions to one endpoint, in order. */
  ghost function OwnHits(hits: seq<Contribution>, endpoint: string): seq<Contribution> {
    if hits == [] then []
    else
      var last := hits[|hits| - 1];
      OwnHits(hits[..|hits| - 1], endpoint) + if last.key.endpoint == endpoint then [last] else []
  }

  lemma {:induction false} OwnConcat(left: seq<Contribution>, right: seq<Contribution>, endpoint: string)
    ensures OwnHits(left + right, endpoint) == OwnHits(left, endpoint) + OwnHits(right, endpoint)
  {
    if right == [] {
      assert left + right == left;
    } else {
      var all := left + right;
      assert all[..|all| - 1] == left + right[..|right| - 1];
      OwnConcat(left, right[..|right| - 1], endpoint);
    }
  }

  /** What an endpoint reports depends on its own contributions only. */
  lemma {:induction false} OwnDecides(hits: seq<Contribution>, endpoint: string)
    ensures forall scope :: InputsFor(hits, TargetKey(endpoint, scope)) == InputsFor(OwnHits(hits, endpoint), TargetKey(endpoint, scope))
    ensures endpoint in ReducedBy(hits) <==> endpoint in ReducedBy(OwnHits(hits, endpoint))
  {
    if hits != [] {
      var earlier := hits[..|hits| - 1];
      var last := hits[|hits| - 1];
      assert hits == earlier + [last];
      OwnDecides(earlier, endpoint);
      hide ReducedBy, OwnHits, AbsorbAll, Overflows, InputsFor;
      ReducedStep(earlier, last);
      OwnStep(earlier, last, endpoint);
      forall scope ensures InputsFor(hits, TargetKey(endpoint, scope)) == InputsFor(OwnHits(hits, endpoint), TargetKey(endpoint, scope)) {
        InputsStep(earlier, last, TargetKey(endpoint, scope));
        InputsStep(OwnHits(earlier, endpoint), last, TargetKey(endpoint, scope));
      }
      if last.key.endpoint == endpoint {
        assert last.key == TargetKey(endpoint, last.key.scope);
        ReducedStep(OwnHits(earlier, endpoint), last);
      }
    }
  }

  lemma OwnStep(hits: seq<Contribution>, last: Contribution, endpoint: string)
    ensures OwnHits(hits + [last], endpoint)
      == if last.key.endpoint == endpoint then OwnHits(hits, endpoint) + [last] else OwnHits(hits, endpoint)
  {
    assert (hits + [last])[..|hits|] == hits;
    assert OwnHits(hits, endpoint) + [] == OwnHits(hits, endpoint);
  }

  lemma SameDecision(a: Options, b: Options, fact: WriteFact, row: RowState, endpoint: string, read: Read)
    ensures SameDecisions(a, b, endpoint) && fact.resource in a.resources ==>
      Decide(a, fact, row, endpoint, read) == Decide(b, fact, row, endpoint, read)
  {
  }

  lemma {:induction false} SameRowOwn(
      a: Options, b: Options, fact: WriteFact, row: RowState, indexed: seq<IndexedRead>, endpoint: string)
    requires SameDecisions(a, b, endpoint) && fact.resource in a.resources
    ensures OwnHits(RowHits(a, fact, row, indexed), endpoint) == OwnHits(RowHits(b, fact, row, indexed), endpoint)
  {
    if indexed != [] && !row.Absent? {
      var earlier := indexed[..|indexed| - 1];
      var last := indexed[|indexed| - 1];
      assert indexed == earlier + [last];
      SameRowOwn(a, b, fact, row, earlier, endpoint);
      LastOwn(a, fact, row, earlier, last, endpoint);
      LastOwn(b, fact, row, earlier, last, endpoint);
      if last.endpoint == endpoint {
        SameDecision(a, b, fact, row, last.endpoint, last.read);
      }
      hide Decide, RowHits, OwnHits, SameDecisions;
    }
  }

  /** What the last read adds for one endpoint. */
  lemma LastOwn(
      options: Options, fact: WriteFact, row: RowState, earlier: seq<IndexedRead>, last: IndexedRead, endpoint: string)
    requires fact.resource in options.resources && !row.Absent?
    ensures OwnHits(RowHits(options, fact, row, earlier + [last]), endpoint) ==
      OwnHits(RowHits(options, fact, row, earlier), endpoint)
      + (var decision := Decide(options, fact, row, last.endpoint, last.read);
         if decision.Hit? && last.endpoint == endpoint
         then [Contribution(KeyFor(options, fact, endpoint), decision.input, decision.imprecise)] else [])
  {
    RowHitsStep(options, fact, row, earlier, last);
    hide Decide, RowHits, OwnHits;
    var decision := Decide(options, fact, row, last.endpoint, last.read);
    var before := RowHits(options, fact, row, earlier);
    assert before + [] == before && OwnHits(before, endpoint) + [] == OwnHits(before, endpoint);
    if decision.Hit? {
      OwnStep(before, Contribution(KeyFor(options, fact, last.endpoint), decision.input, decision.imprecise), endpoint);
    }
  }

  lemma {:induction false} SameOwn(a: Options, b: Options, facts: seq<WriteFact>, endpoint: string)
    requires SameDecisions(a, b, endpoint) && Registered(a, facts)
    ensures Registered(b, facts)
    ensures OwnHits(AllHits(a, facts), endpoint) == OwnHits(AllHits(b, facts), endpoint)
  {
    if facts != [] {
      var earlier := facts[..|facts| - 1];
      var last := facts[|facts| - 1];
      var indexed := IndexOf(a.manifest, last.resource);
      SameOwn(a, b, earlier, endpoint);
      SameRowOwn(a, b, last, last.before, indexed, endpoint);
      SameRowOwn(a, b, last, last.after, indexed, endpoint);
      OwnConcat(RowHits(a, last, last.before, indexed), RowHits(a, last, last.after, indexed), endpoint);
      OwnConcat(RowHits(b, last, last.before, indexed), RowHits(b, last, last.after, indexed), endpoint);
      OwnConcat(AllHits(a, earlier), FactHits(a, last), endpoint);
      OwnConcat(AllHits(b, earlier), FactHits(b, last), endpoint);
      hide RowHits, OwnHits, IndexOf;
    }
  }

  /** Reports that treat an endpoint alike give it the same inputs and the same precision. */
  lemma SameInputs(a: Options, b: Options, facts: seq<WriteFact>, endpoint: string)
    requires SameDecisions(a, b, endpoint) && Registered(a, facts)
    ensures Registered(b, facts)
    ensures forall scope ::
      InputsFor(AllHits(a, facts), TargetKey(endpoint, scope)) == InputsFor(AllHits(b, facts), TargetKey(endpoint, scope))
    ensures endpoint in ReducedBy(AllHits(a, facts)) <==> endpoint in ReducedBy(AllHits(b, facts))
  {
    SameOwn(a, b, facts, endpoint);
    hide InputsFor, ReducedBy, OwnHits, SameDecisions;
    OwnDecides(AllHits(a, facts), endpoint);
    OwnDecides(AllHits(b, facts), endpoint);
  }

  /** A target that anything reached under a better report becomes `all` under a conservative one. */
  lemma ConservativeIsEverything(a: Options, b: Options, facts: seq<WriteFact>, key: TargetKey)
    requires a == b.(assessment := a.assessment) && Registered(a, facts)
    requires !StatusOf(a, key.endpoint).Unavailable? && StatusOf(b, key.endpoint).Conservative?
    requires InputsFor(AllHits(a, facts), key) != []
    ensures Registered(b, facts)
    ensures InputsFor(AllHits(b, facts), key) != []
    ensures AbsorbAll(InputsFor(AllHits(b, facts), key)).Everything?
  {
    var hit := InputHasHit(AllHits(a, facts), key, InputsFor(AllHits(a, facts), key)[0]);
    var fact, row, entry := HitSource(a, facts, hit);
    var k :| 0 <= k < |facts| && facts[k] == fact;
    var broad := Decide(b, fact, row, entry.endpoint, entry.read);
    BroadHits(a, b, fact, row, entry.endpoint, entry.read);
    RowHitsHas(b, fact, row, IndexOf(b.manifest, fact.resource), entry);
    AllHitsHas(b, facts, k, Contribution(key, map[], broad.imprecise));
    EmptyInputIsEverything(AllHits(b, facts), Contribution(key, map[], broad.imprecise));
  }

  /** Broadening a read only takes exclusions away. */
  lemma BroadHits(a: Options, b: Options, fact: WriteFact, row: RowState, endpoint: string, read: Read)
    requires a == b.(assessment := a.assessment) && fact.resource in a.resources
    requires StatusOf(b, endpoint).Conservative? && Decide(a, fact, row, endpoint, read).Hit?
    ensures Decide(b, fact, row, endpoint, read).Hit? && Decide(b, fact, row, endpoint, read).input == map[]
  {
  }

  lemma EmptyInputIsEverything(hits: seq<Contribution>, hit: Contribution)
    requires hit in hits && hit.input == map[]
    ensures InputsFor(hits, hit.key) != [] && AbsorbAll(InputsFor(hits, hit.key)).Everything?
  {
    HitIsInput(hits, hit);
    var inputs := InputsFor(hits, hit.key);
    var n :| 0 <= n < |inputs| && inputs[n] == map[];
    AbsorbAllSound(inputs, n);
  }

  /**
   Before byte bounding, a pointwise worse report never deselects an input, `unavailable` being read
   as everything.
   */
  lemma WorseNeverDeselects(
      a: Options, b: Options, facts: seq<WriteFact>, i: nat, left: EndpointImpact, right: EndpointImpact,
      input: Input, sameScope: bool)
    requires a == b.(assessment := a.assessment) && Registered(a, facts) && i < |a.manifest|
    requires ReportRank(a.assessment, a.manifest[i].endpoint) <= ReportRank(b.assessment, a.manifest[i].endpoint)
    requires Registered(b, facts)
    requires Reported(a, AllHits(a, facts), a.manifest[i].endpoint, left)
    requires Reported(b, AllHits(b, facts), a.manifest[i].endpoint, right)
    requires Selects(a.coerce, left, input, sameScope)
    ensures Selects(a.coerce, right, input, sameScope)
  {
    if !right.status.Unavailable? {
      RanksDecide(a, b, a.manifest[i].endpoint, ReducedBy(AllHits(a, facts)), ReducedBy(AllHits(b, facts)));
      var j :| 0 <= j < |left.targets| && (left.targets[j].scope.Global? || sameScope)
        && MatchesInputSelector(a.coerce, input, left.targets[j].selector);
      TargetCarries(a, b, facts, a.manifest[i].endpoint, left, right, j, input);
    }
  }

  lemma RanksDecide(a: Options, b: Options, endpoint: string, reducedA: set<string>, reducedB: set<string>)
    requires a == b.(assessment := a.assessment)
    requires ReportRank(a.assessment, endpoint) <= ReportRank(b.assessment, endpoint)
    requires !Applied(b.assessment, endpoint, Computed(reducedB, endpoint)).Unavailable?
    ensures !Applied(a.assessment, endpoint, Computed(reducedA, endpoint)).Unavailable?
    ensures SameDecisions(a, b, endpoint) || (StatusOf(a, endpoint).Verified? && StatusOf(b, endpoint).Conservative?)
  {
  }

  lemma TargetCarries(
      a: Options, b: Options, facts: seq<WriteFact>, endpoint: string, left: EndpointImpact, right: EndpointImpact,
      j: nat, input: Input)
    requires a == b.(assessment := a.assessment) && Registered(a, facts) && Registered(b, facts)
    requires Reported(a, AllHits(a, facts), endpoint, left) && Reported(b, AllHits(b, facts), endpoint, right)
    requires !left.status.Unavailable? && !right.status.Unavailable?
    requires SameDecisions(a, b, endpoint) || (StatusOf(a, endpoint).Verified? && StatusOf(b, endpoint).Conservative?)
    requires j < |left.targets| && MatchesInputSelector(a.coerce, input, left.targets[j].selector)
    ensures exists k :: 0 <= k < |right.targets| && right.targets[k].scope == left.targets[j].scope
                        && MatchesInputSelector(a.coerce, input, right.targets[k].selector)
  {
    var key := TargetKey(endpoint, left.targets[j].scope);
    var before := InputsFor(AllHits(a, facts), key);
    var after := InputsFor(AllHits(b, facts), key);
    assert SelectorIs(left.targets[j].selector, AbsorbAll(before)) && before != [];
    if SameDecisions(a, b, endpoint) {
      SameInputs(a, b, facts, endpoint);
    } else {
      ConservativeIsEverything(a, b, facts, key);
    }
    var k :| 0 <= k < |right.targets| && right.targets[k].scope == key.scope;
    assert SelectorIs(right.targets[k].selector, AbsorbAll(after));
    SameCoverageMatches(a.coerce, left.targets[j].selector, right.targets[k].selector, AbsorbAll(after), input);
  }

  lemma SameCoverageMatches(coerce: Coerce, left: Selector, right: Selector, coverage: Coverage, input: Input)
    requires SelectorIs(right, coverage) && (coverage.Everything? || SelectorIs(left, coverage))
    requires MatchesInputSelector(coerce, input, left)
    ensures MatchesInputSelector(coerce, input, right)
  {
    if coverage.Listed? {
      var m :| 0 <= m < |left.values| && MatchesRecord(coerce, input, left.values[m]);
      assert coverage.values == (set value | value in left.values);
      assert coverage.values == (set value | value in right.values);
      assert left.values[m] in coverage.values;
      var n :| 0 <= n < |right.values| && right.values[n] == left.values[m];
      assert MatchesRecord(coerce, input, right.values[n]);
    }
  }
}
