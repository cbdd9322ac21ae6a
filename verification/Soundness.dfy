/**
 The impact calculator against the concrete meaning of its inputs: a write that can move a cached
 result selects that result, and an endpoint called verified lists exactly what was written.
 */
module Soundness {
  import opened Contracts
  import opened Facts
  import opened Reads
  import opened Antichain
  import opened Assessments
  import opened Calculate

  // ------------------------------------------------ no affected input is lost

  /** Whether the endpoint's entry tells a consumer to drop the result cached for this input. */
  ghost predicate Selects(coerce: Coerce, value: EndpointImpact, input: Input, sameScope: bool) {
    value.status.Unavailable?
    || exists j :: 0 <= j < |value.targets| && (value.targets[j].scope.Global? || sameScope)
                   && MatchesInputSelector(coerce, input, value.targets[j].selector)
  }

  /** Captured fields of a matching row bind to values the input itself matches. */
  lemma {:induction false} BoundInputMatches(
      db: Database, state: RowState, row: Row, bindings: seq<Binding>, input: Input, bound: Record, complete: bool)
    requires Lawful(db)
    requires state.Known? ==> Agrees(state.fields, row)
    requires forall i :: 0 <= i < |bindings| ==> BindingHolds(db, bindings[i], input, row)
    requires MatchesRecord(db.coerce, input, bound)
    ensures MatchesRecord(db.coerce, input, BindFrom(state, bindings, bound, complete).0)
  {
    if bindings != [] {
      var binding := bindings[0];
      assert BindingHolds(db, binding, input, row);
      assert forall i :: 0 <= i < |bindings| - 1 ==> bindings[1..][i] == bindings[i + 1];
      if state.Known? && binding.column in state.fields {
        var value := state.fields[binding.column];
        assert Col(row, binding.column) == value;
        assert db.equal(input[binding.input].scalar, value);
        if !(binding.input in bound && bound[binding.input] != value) {
          BoundInputMatches(db, state, row, bindings[1..], input, bound[binding.input := value], complete);
        }
      } else {
        BoundInputMatches(db, state, row, bindings[1..], input, bound, false);
      }
    }
  }

  lemma NotProvedOut(db: Database, state: RowState, row: Row, read: Read)
    requires Lawful(db)
    requires state.Known? && state.equality.Some? ==> Agrees(state.equality.value, row)
    requires forall i :: 0 <= i < |read.filters| ==> FilterHolds(db, read.filters[i], row)
    ensures !ProvedOut(db.coerce, state, read)
  {
    forall i | 0 <= i < |read.filters| ensures !FilterProvesOut(db.coerce, state, read.filters[i]) {
      var filter := read.filters[i];
      assert FilterHolds(db, filter, row);
      if state.Known? && state.equality.Some? && filter.column in state.equality.value {
        assert Col(row, filter.column) == state.equality.value[filter.column];
        FilterIsWeaker(db.coerce, Col(row, filter.column), filter.value);
      }
    }
  }

  /** A changed column the read is sensitive to stops the changed-columns exclusion. */
  lemma NotUntouched(resource: Resource, fact: WriteFact, read: Read, w: RowWrite)
    requires Covers(resource, fact, w) && ReadChanged(resource, read, w)
    ensures !Untouched(resource, fact, read) && !Untouched(resource, fact, Broad(read))
  {
    if fact.operation.Update? && fact.changed.Some? {
      var column :| Differs(w.before.value, w.after.value, column) && Sensitive(resource, read, column);
      assert column in fact.changed.value;
      var i :| 0 <= i < |fact.changed.value| && fact.changed.value[i] == column;
      assert Touches(Broad(read), fact.changed.value[i]);
    }
  }

  /** The side of a covered write that reaches the read is a hit whose input the caller's input matches. */
  lemma DecideHits(
      options: Options, db: Database, fact: WriteFact, w: RowWrite, state: RowState, row: Option<Row>,
      endpoint: string, read: Read, input: Input)
    requires Lawful(db) && db.coerce == options.coerce
    requires fact.resource in options.resources && read.resource == fact.resource
    requires Covers(options.resources[fact.resource], fact, w)
    requires ReadChanged(options.resources[fact.resource], read, w)
    requires InState(options.resources[fact.resource], state, row)
    requires Reaches(db, options.resources[fact.resource], read, input, options.scope, row)
    requires !StatusOf(options, endpoint).Unavailable?
    ensures !state.Absent? && Decide(options, fact, state, endpoint, read).Hit?
    ensures MatchesRecord(options.coerce, input, Decide(options, fact, state, endpoint, read).input)
  {
    var resource := options.resources[fact.resource];
    NotUntouched(resource, fact, read, w);
    NotProvedOut(db, state, row.value, read);
    NotProvedOut(db, state, row.value, Broad(read));
    BoundInputMatches(db, state, row.value, read.bindings, input, map[], true);
    BoundInputMatches(db, state, row.value, [], input, map[], true);
  }

  lemma {:induction false} ReadIsIndexed(
      endpoint: string, dependencies: seq<Read>, resource: string, j: nat)
    requires j < |dependencies| && dependencies[j].resource == resource
    ensures IndexedRead(endpoint, dependencies[j]) in ReadsOf(endpoint, dependencies, resource)
  {
    if j < |dependencies| - 1 {
      ReadIsIndexed(endpoint, dependencies[..|dependencies| - 1], resource, j);
    }
  }

  lemma {:induction false} ManifestIsIndexed(manifest: Manifest, resource: string, i: nat, j: nat)
    requires i < |manifest| && j < |manifest[i].dependencies| && manifest[i].dependencies[j].resource == resource
    ensures IndexedRead(manifest[i].endpoint, manifest[i].dependencies[j]) in IndexOf(manifest, resource)
  {
    if i < |manifest| - 1 {
      ManifestIsIndexed(manifest[..|manifest| - 1], resource, i, j);
    } else {
      ReadIsIndexed(manifest[i].endpoint, manifest[i].dependencies, resource, j);
    }
  }

  lemma {:induction false} RowHitsHas(
      options: Options, fact: WriteFact, row: RowState, indexed: seq<IndexedRead>, entry: IndexedRead)
    requires fact.resource in options.resources && !row.Absent? && entry in indexed
    requires Decide(options, fact, row, entry.endpoint, entry.read).Hit?
    ensures var hit := Decide(options, fact, row, entry.endpoint, entry.read);
      Contribution(KeyFor(options, fact, entry.endpoint), hit.input, hit.imprecise) in RowHits(options, fact, row, indexed)
  {
    var earlier := indexed[..|indexed| - 1];
    assert indexed == earlier + [indexed[|indexed| - 1]];
    RowHitsStep(options, fact, row, earlier, indexed[|indexed| - 1]);
    if entry != indexed[|indexed| - 1] {
      RowHitsHas(options, fact, row, earlier, entry);
    }
  }

  lemma {:induction false} AllHitsHas(options: Options, facts: seq<WriteFact>, i: nat, hit: Contribution)
    requires Registered(options, facts) && i < |facts|
    requires hit in FactHits(options, facts[i])
    ensures hit in AllHits(options, facts)
  {
    if i < |facts| - 1 {
      AllHitsHas(options, facts[..|facts| - 1], i, hit);
    }
  }

  lemma {:induction false} HitIsInput(hits: seq<Contribution>, hit: Contribution)
    requires hit in hits
    ensures hit.input in InputsFor(hits, hit.key)
  {
    var earlier := hits[..|hits| - 1];
    assert hits == earlier + [hits[|hits| - 1]];
    if hit != hits[|hits| - 1] {
      HitIsInput(earlier, hit);
    }
  }

  /** Once contributed, an input is matched by the selector of its target, whatever else was contributed. */
  lemma ContributionSelects(coerce: Coerce, hits: seq<Contribution>, hit: Contribution, selector: Selector, input: Input)
    requires hit in hits && MatchesRecord(coerce, input, hit.input)
    requires SelectorIs(selector, AbsorbAll(InputsFor(hits, hit.key)))
    ensures MatchesInputSelector(coerce, input, selector)
  {
    HitIsInput(hits, hit);
    var inputs := InputsFor(hits, hit.key);
    var k :| 0 <= k < |inputs| && inputs[k] == hit.input;
    AbsorbAllSound(inputs, k);
    if selector.Inputs? {
      var value :| value in AbsorbAll(inputs).values && Subsumes(value, hit.input);
      BroaderMatches(coerce, input, value, hit.input);
      var i :| 0 <= i < |selector.values| && selector.values[i] == value;
      assert MatchesRecord(coerce, input, selector.values[i]);
    }
  }

  lemma ReportedSelects(
      options: Options, hits: seq<Contribution>, endpoint: string, value: EndpointImpact, hit: Contribution, input: Input)
    requires Reported(options, hits, endpoint, value)
    requires hit in hits && hit.key.endpoint == endpoint && MatchesRecord(options.coerce, input, hit.input)
    ensures Selects(options.coerce, value, input, hit.key.scope.Caller?)
  {
    HitIsInput(hits, hit);
    if !value.status.Unavailable? {
      assert hit.key == TargetKey(endpoint, hit.key.scope);
      var j :| 0 <= j < |value.targets| && value.targets[j].scope == hit.key.scope;
      ContributionSelects(options.coerce, hits, hit, value.targets[j].selector, input);
    }
  }

  /** Byte bounding never deselects. */
  lemma WidenedSelects(coerce: Coerce, before: EndpointImpact, after: EndpointImpact, input: Input, sameScope: bool)
    requires EndpointWidened(before, after) && Selects(coerce, before, input, sameScope)
    requires before.status.Unavailable? ==> before.targets == []
    ensures Selects(coerce, after, input, sameScope)
  {
    if !before.status.Unavailable? {
      var j :| 0 <= j < |before.targets| && (before.targets[j].scope.Global? || sameScope)
        && MatchesInputSelector(coerce, input, before.targets[j].selector);
      assert TargetWidened(before.targets[j], after.targets[j]);
      assert MatchesInputSelector(coerce, input, after.targets[j].selector);
    }
  }

  /** The impact some run of `calculate` may return for these facts: reported exactly, then bounded. */
  ghost predicate ImpactFor(options: Options, facts: seq<WriteFact>, impact: Impact) {
    && Registered(options, facts)
    && exists exact :: AllReported(options, AllHits(options, facts), exact) && ImpactWidened(exact, impact)
  }

  /**
   Soundness of the calculator. If a fact covers a write that reaches a read of an endpoint for some
   cached input, the endpoint's entry selects that input. Results cached under another scope are
   selected for writes to unscoped resources.
   */
  lemma CalculatorSound(
      options: Options, db: Database, facts: seq<WriteFact>, impact: Impact, i: nat, j: nat, k: nat, w: RowWrite,
      input: Input, queryScope: Scalar)
    requires Lawful(db) && db.coerce == options.coerce
    requires ImpactFor(options, facts, impact)
    requires k < |facts| && Covers(options.resources[facts[k].resource], facts[k], w)
    requires i < |options.manifest| && j < |options.manifest[i].dependencies|
    requires Affects(db, options.resources, options.manifest[i].dependencies[j], input, queryScope, w)
    requires queryScope == options.scope || options.resources[w.resource].scopeColumn.None?
    ensures i < |impact| && Selects(options.coerce, impact[i], input, queryScope == options.scope)
  {
    var endpoint := options.manifest[i].endpoint;
    var read := options.manifest[i].dependencies[j];
    var fact := facts[k];
    var hits := AllHits(options, facts);
    var exact :| AllReported(options, hits, exact) && ImpactWidened(exact, impact);
    assert Reported(options, hits, endpoint, exact[i]);
    if !StatusOf(options, endpoint).Unavailable? {
      var resource := options.resources[fact.resource];
      var before := Reaches(db, resource, read, input, queryScope, w.before);
      var state := if before then fact.before else fact.after;
      var row := if before then w.before else w.after;
      assert Reaches(db, resource, read, input, options.scope, row);
      DecideHits(options, db, fact, w, state, row, endpoint, read, input);
      var decision := Decide(options, fact, state, endpoint, read);
      var hit := Contribution(KeyFor(options, fact, endpoint), decision.input, decision.imprecise);
      ManifestIsIndexed(options.manifest, fact.resource, i, j);
      RowHitsHas(options, fact, state, IndexOf(options.manifest, fact.resource), IndexedRead(endpoint, read));
      AllHitsHas(options, facts, k, hit);
      ReportedSelects(options, hits, endpoint, exact[i], hit, input);
      assert Selects(options.coerce, exact[i], input, queryScope == options.scope);
    }
    WidenedSelects(options.coerce, exact[i], impact[i], input, queryScope == options.scope);
  }
}
