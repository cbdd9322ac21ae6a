/**
 Worse reports and the byte budget. Bounding widens endpoints the assessment says nothing about, so a
 worse report can take an input away from another endpoint; this says exactly when.
 */
module Narrowing {
  import opened Contracts
  import opened Facts
  import opened Reads
  import opened WriteSets
  import opened Antichain
  import opened Assessments
  import opened Calculate
  import opened Soundness
  import opened Statuses

  // ------------------------------------------------------ entries that take all

  /** A consumer of this scope drops every result of the endpoint, whatever its input. */
  predicate TakesAll(value: EndpointImpact, sameScope: bool) {
    || value.status.Unavailable?
    || exists j :: 0 <= j < |value.targets| && (value.targets[j].scope.Global? || sameScope) && value.targets[j].selector.All?
  }

  /** Every listed record constrains something, as the calculator's do. */
  ghost predicate Constrained(value: EndpointImpact) {
    forall j :: 0 <= j < |value.targets| && value.targets[j].selector.Inputs? ==>
      && 1 <= |value.targets[j].selector.values| <= SELECTOR_LIMIT
      && forall k :: 0 <= k < |value.targets[j].selector.values| ==> value.targets[j].selector.values[k] != map[]
  }

  function Named(targets: seq<Target>): set<string> {
    set j, k, name |
      0 <= j < |targets| && targets[j].selector.Inputs? && 0 <= k < |targets[j].selector.values|
      && name in targets[j].selector.values[k] :: name
  }

  /** No scalar in any field the entry constrains: an input nothing listed can match. */
  function Blind(value: EndpointImpact): Input {
    map name | name in Named(value.targets) :: Opaque(0)
  }

  lemma TakesAllSelects(coerce: Coerce, value: EndpointImpact, input: Input, sameScope: bool)
    requires TakesAll(value, sameScope)
    ensures Selects(coerce, value, input, sameScope)
  {
    if !value.status.Unavailable? {
      var j :| 0 <= j < |value.targets| && (value.targets[j].scope.Global? || sameScope) && value.targets[j].selector.All?;
      assert MatchesInputSelector(coerce, input, value.targets[j].selector);
    }
  }

  lemma BlindMisses(coerce: Coerce, value: EndpointImpact, sameScope: bool)
    requires Constrained(value) && !TakesAll(value, sameScope)
    ensures !Selects(coerce, value, Blind(value), sameScope)
  {
    var input := Blind(value);
    forall j | 0 <= j < |value.targets| && (value.targets[j].scope.Global? || sameScope)
      ensures !MatchesInputSelector(coerce, input, value.targets[j].selector)
    {
      var values := value.targets[j].selector.values;
      forall k | 0 <= k < |values| ensures !MatchesRecord(coerce, input, values[k]) {
        RecordHasName(values[k]);
        var name :| name in values[k];
        assert name in Named(value.targets) && !ValueMayEqual(coerce, input[name], values[k][name]);
      }
    }
  }

  lemma RecordHasName(record: Record)
    ensures record != map[] ==> exists name :: name in record
  {
    if forall name :: name !in record {
      assert record == map[];
    }
  }

  lemma ReportedIsConstrained(options: Options, hits: seq<Contribution>, endpoint: string, value: EndpointImpact)
    requires Reported(options, hits, endpoint, value)
    ensures Constrained(value)
  {
    forall j | 0 <= j < |value.targets| && value.targets[j].selector.Inputs?
      ensures 1 <= |value.targets[j].selector.values| <= SELECTOR_LIMIT
      ensures forall k :: 0 <= k < |value.targets[j].selector.values| ==> value.targets[j].selector.values[k] != map[]
    {
      TargetReached(options, hits, endpoint, value, j);
      ListedIsConstrained(value.targets[j].selector, InputsFor(hits, TargetKey(endpoint, value.targets[j].scope)));
    }
  }

  lemma ListedIsConstrained(selector: Selector, inputs: seq<Record>)
    requires inputs != [] && selector.Inputs? && SelectorIs(selector, AbsorbAll(inputs))
    ensures 1 <= |selector.values| <= SELECTOR_LIMIT
    ensures forall k :: 0 <= k < |selector.values| ==> selector.values[k] != map[]
  {
    AbsorbAllSound(inputs, 0);
    forall k | 0 <= k < |selector.values| ensures selector.values[k] != map[] {
      assert selector.values[k] in AbsorbAll(inputs).values;
    }
  }

  lemma WidenedConstrained(before: EndpointImpact, after: EndpointImpact)
    requires EndpointWidened(before, after) && Constrained(before)
    ensures Constrained(after)
  {
    forall j | 0 <= j < |after.targets| && after.targets[j].selector.Inputs? ensures after.targets[j] == before.targets[j] {
      assert TargetWidened(before.targets[j], after.targets[j]);
    }
  }

  lemma WidenedTakesAll(before: EndpointImpact, after: EndpointImpact, sameScope: bool)
    requires EndpointWidened(before, after) && TakesAll(before, sameScope)
    requires before.status.Unavailable? ==> before.targets == []
    ensures TakesAll(after, sameScope)
  {
    if !before.status.Unavailable? {
      var j :| 0 <= j < |before.targets| && (before.targets[j].scope.Global? || sameScope) && before.targets[j].selector.All?;
      assert TargetWidened(before.targets[j], after.targets[j]);
    }
  }

  // --------------------------------------------------------- any two reports

  /** The same facts under a report that is worse at every endpoint. */
  ghost predicate Worsened(a: Options, b: Options) {
    && a == b.(assessment := a.assessment)
    && forall j :: 0 <= j < |a.manifest| ==>
         ReportRank(a.assessment, a.manifest[j].endpoint) <= ReportRank(b.assessment, a.manifest[j].endpoint)
  }

  /** One outcome of the calculation: reported exactly, then bounded. */
  ghost predicate Yields(options: Options, facts: seq<WriteFact>, exact: Impact, impact: Impact) {
    Registered(options, facts) && AllReported(options, AllHits(options, facts), exact) && BoundsTo(options.sizes, exact, impact)
  }

  lemma EntryFacts(options: Options, facts: seq<WriteFact>, exact: Impact, impact: Impact, i: nat)
    requires Yields(options, facts, exact, impact) && i < |options.manifest|
    ensures |exact| == |impact| == |options.manifest|
    ensures Reported(options, AllHits(options, facts), options.manifest[i].endpoint, exact[i])
    ensures EndpointWidened(exact[i], impact[i]) && Constrained(exact[i]) && Constrained(impact[i])
    ensures exact[i].status.Unavailable? ==> exact[i].targets == []
  {
    hide AllHits;
    var hits := AllHits(options, facts);
    assert Reported(options, hits, options.manifest[i].endpoint, exact[i]);
    hide Reported;
    ReportedIsConstrained(options, hits, options.manifest[i].endpoint, exact[i]);
    WidenedConstrained(exact[i], impact[i]);
  }

  /** Not widened where this consumer can see it, a bounded entry selects what the exact one does. */
  lemma UnwidenedSelects(coerce: Coerce, exact: EndpointImpact, bounded: EndpointImpact, input: Input, sameScope: bool)
    requires EndpointWidened(exact, bounded) && !TakesAll(bounded, sameScope) && Selects(coerce, bounded, input, sameScope)
    ensures Selects(coerce, exact, input, sameScope)
  {
    var j :| 0 <= j < |bounded.targets| && (bounded.targets[j].scope.Global? || sameScope)
      && MatchesInputSelector(coerce, input, bounded.targets[j].selector);
    assert TargetWidened(exact.targets[j], bounded.targets[j]);
    assert MatchesInputSelector(coerce, input, exact.targets[j].selector);
  }

  /**
   For any two pointwise ordered reports: the worse one keeps every input of an endpoint if and only if
   it takes everything whenever the better one does. Only a widened entry can lose anything.
   */
  lemma WorseKeepsExactly(
      a: Options, b: Options, facts: seq<WriteFact>, exactA: Impact, exactB: Impact, impactA: Impact, impactB: Impact,
      i: nat, sameScope: bool)
    requires Worsened(a, b) && i < |a.manifest|
    requires Yields(a, facts, exactA, impactA) && Yields(b, facts, exactB, impactB)
    ensures |impactA| == |impactB| == |a.manifest|
    ensures (forall input :: Selects(a.coerce, impactA[i], input, sameScope) ==> Selects(a.coerce, impactB[i], input, sameScope))
      <==> (TakesAll(impactA[i], sameScope) ==> TakesAll(impactB[i], sameScope))
  {
    EntryFacts(a, facts, exactA, impactA, i);
    EntryFacts(b, facts, exactB, impactB, i);
    hide Selects, Yields, Reported, EndpointWidened, Constrained, TakesAll, AllHits, Registered;
    if TakesAll(impactA[i], sameScope) && !TakesAll(impactB[i], sameScope) {
      TakesAllSelects(a.coerce, impactA[i], Blind(impactB[i]), sameScope);
      BlindMisses(a.coerce, impactB[i], sameScope);
    } else {
      forall input | Selects(a.coerce, impactA[i], input, sameScope) ensures Selects(a.coerce, impactB[i], input, sameScope) {
        if TakesAll(impactB[i], sameScope) {
          TakesAllSelects(a.coerce, impactB[i], input, sameScope);
        } else {
          UnwidenedSelects(a.coerce, exactA[i], impactA[i], input, sameScope);
          ExactKeeps(a, b, facts, i, exactA, impactA, exactB, impactB, input, sameScope);
          WidenedSelects(a.coerce, exactB[i], impactB[i], input, sameScope);
        }
      }
    }
  }

  lemma ExactKeeps(
      a: Options, b: Options, facts: seq<WriteFact>, i: nat, exactA: Impact, impactA: Impact, exactB: Impact, impactB: Impact,
      input: Input, sameScope: bool)
    requires Worsened(a, b) && i < |a.manifest|
    requires Yields(a, facts, exactA, impactA) && Yields(b, facts, exactB, impactB)
    requires |exactA| == |exactB| == |a.manifest| && Selects(a.coerce, exactA[i], input, sameScope)
    ensures Selects(a.coerce, exactB[i], input, sameScope)
  {
    EntryFacts(a, facts, exactA, impactA, i);
    EntryFacts(b, facts, exactB, impactB, i);
    hide Selects, Reported, AllHits, Constrained, AllReported, BoundsTo;
    WorseNeverDeselects(a, b, facts, i, exactA[i], exactB[i], input, sameScope);
  }

  /** The guard of the loop decides one way: an impact that fits loses nothing to any worse report. */
  lemma FittingNeverLoses(
      a: Options, b: Options, facts: seq<WriteFact>, exactA: Impact, exactB: Impact, impactA: Impact, impactB: Impact,
      i: nat, input: Input, sameScope: bool)
    requires Worsened(a, b) && i < |a.manifest|
    requires Yields(a, facts, exactA, impactA) && Yields(b, facts, exactB, impactB)
    requires ImpactBytes(a.sizes, exactA) <= IMPACT_BYTES
    requires |impactA| == |impactB| == |a.manifest| && Selects(a.coerce, impactA[i], input, sameScope)
    ensures Selects(a.coerce, impactB[i], input, sameScope)
  {
    FittingStays(a.sizes, exactA);
    EntryFacts(b, facts, exactB, impactB, i);
    assert BoundsTo(a.sizes, exactA, impactA);
    hide Selects, Reported, AllHits, Constrained, Yields, EndpointWidened, ImpactBytes, BoundsTo, Worsened;
    ExactKeeps(a, b, facts, i, exactA, impactA, exactB, impactB, input, sameScope);
    WidenedSelects(a.coerce, exactB[i], impactB[i], input, sameScope);
  }

  // -------------------------------------------------------- all worse reports

  /** Statuses other than `verified` say why, as every merge of the source's own codes does. */
  ghost predicate Coded(assessment: Option<Report>) {
    assessment.Some? ==>
      forall endpoint :: endpoint in assessment.value && !assessment.value[endpoint].Verified? ==>
        Codes(assessment.value[endpoint]) != {}
  }

  /** No worse report ever loses an input, cached under the command's scope or another. */
  ghost predicate NeverLoses(a: Options, facts: seq<WriteFact>, impactA: Impact, i: nat, sameScope: bool)
    requires i < |impactA|
  {
    forall b, exactB, impactB, input ::
      (Worsened(a, b) && Coded(b.assessment) && Yields(b, facts, exactB, impactB) && i < |impactB|
       && Selects(a.coerce, impactA[i], input, sameScope)) ==>
        Selects(a.coerce, impactB[i], input, sameScope)
  }

  /** Verified and reached by nothing. */
  predicate Idle(value: EndpointImpact) {
    value.status.Verified? && value.targets == []
  }

  const LEAST := Unavailable({CatalogDrift})

  /** The impact in which everything that competes with endpoint `i` for bytes has become as small as it can. */
  function Starved(exact: Impact, i: nat): (starved: Impact)
    ensures |starved| == |exact|
  {
    seq(|exact|, j requires 0 <= j < |exact| =>
      if j == i || Idle(exact[j]) then exact[j] else EndpointImpact(exact[j].endpoint, LEAST, []))
  }

  /** Other scopes see no caller target. If the endpoint's own goes first, it may make room for the shared one. */
  predicate CallerGoesFirst(sizes: Sizes, value: EndpointImpact) {
    && |value.targets| == 2 && value.targets[0].selector.Inputs? && value.targets[1].selector.Inputs?
    && ScopedBytes(sizes, value.targets[0]) >= ScopedBytes(sizes, value.targets[1])
  }

  function WithoutCaller(exact: Impact, i: nat): Impact
    requires i < |exact| && exact[i].targets != []
  {
    Widen(Starved(exact, i), i, 0)
  }

  /** There is room for the endpoint's list where everything else is as small as it can be. */
  predicate HasRoom(sizes: Sizes, exact: Impact, i: nat, sameScope: bool)
    requires i < |exact|
  {
    || ImpactBytes(sizes, Starved(exact, i)) <= IMPACT_BYTES
    || (!sameScope && CallerGoesFirst(sizes, exact[i]) && ImpactBytes(sizes, WithoutCaller(exact, i)) <= IMPACT_BYTES)
  }

  predicate DistinctEndpoints(manifest: Manifest) {
    forall j, k :: 0 <= j < k < |manifest| ==> manifest[j].endpoint != manifest[k].endpoint
  }

  // ------------------------------------------------------------- entry sizes

  lemma CodesFloor(codes: set<Code>)
    ensures CodesBytes(codes) >= 2 && (codes != {} ==> CodesBytes(codes) >= 17)
    ensures CodesBytes({CatalogDrift}) == 17
  {
    if codes != {} {
      var code :| code in codes;
      assert CodeShare(codes, code) >= 16;
    }
  }

  lemma {:induction false} TargetsFloor(sizes: Sizes, targets: seq<Target>)
    ensures TargetsBytes(sizes, targets) >= if targets == [] then 2 else 46
  {
    if targets != [] {
      TargetsFloor(sizes, targets[..|targets| - 1]);
    }
  }

  lemma {:induction false} RecordBytesConcat(sizes: Sizes, left: seq<Record>, right: seq<Record>)
    ensures RecordBytes(sizes, left + right) == RecordBytes(sizes, left) + RecordBytes(sizes, right)
  {
    if right == [] {
      assert left + right == left;
    } else {
      assert (left + right)[..|left + right| - 1] == left + right[..|right| - 1];
      RecordBytesConcat(sizes, left, right[..|right| - 1]);
    }
  }

  lemma RecordBytesWithout(sizes: Sizes, records: seq<Record>, k: nat)
    requires k < |records|
    ensures RecordBytes(sizes, records) == RecordBytes(sizes, records[..k] + records[k + 1..]) + sizes.record(records[k])
  {
    var front, one, back := records[..k], [records[k]], records[k + 1..];
    assert one[..0] == [];
    assert RecordBytes(sizes, one) == sizes.record(records[k]);
    hide RecordBytes;
    assert records == front + (one + back);
    RecordBytesConcat(sizes, front, one + back);
    RecordBytesConcat(sizes, one, back);
    RecordBytesConcat(sizes, front, back);
  }

  ghost predicate NoRepeats(records: seq<Record>) {
    forall m, n :: 0 <= m < n < |records| ==> records[m] != records[n]
  }

  ghost predicate SameRecords(left: seq<Record>, right: seq<Record>) {
    forall record :: record in left <==> record in right
  }

  lemma HasRecord(records: seq<Record>)
    ensures records != [] ==> exists record :: record in records
  {
    if records != [] {
      assert records[0] in records;
    }
  }

  /** Listing the same distinct records in another order costs the same. */
  lemma {:induction false} RecordBytesSame(sizes: Sizes, left: seq<Record>, right: seq<Record>)
    requires NoRepeats(left) && NoRepeats(right)
    requires SameRecords(left, right)
    ensures RecordBytes(sizes, left) == RecordBytes(sizes, right) && |left| == |right|
    decreases |left|
  {
    if left == [] {
      HasRecord(right);
    } else {
      var last := |left| - 1;
      assert left[last] in left;
      var k :| 0 <= k < |right| && right[k] == left[last];
      var rest := right[..k] + right[k + 1..];
      SameRest(left, right, k);
      RecordBytesSame(sizes, left[..last], rest);
      RecordBytesWithout(sizes, right, k);
    }
  }

  lemma SameRest(left: seq<Record>, right: seq<Record>, k: nat)
    requires NoRepeats(left) && NoRepeats(right) && left != []
    requires SameRecords(left, right)
    requires k < |right| && right[k] == left[|left| - 1]
    ensures NoRepeats(left[..|left| - 1]) && NoRepeats(right[..k] + right[k + 1..])
    ensures SameRecords(left[..|left| - 1], right[..k] + right[k + 1..])
  {
    var rest := right[..k] + right[k + 1..];
    forall m, n | 0 <= m < n < |rest| ensures rest[m] != rest[n] {
      assert rest[m] == right[if m < k then m else m + 1] && rest[n] == right[if n < k then n else n + 1];
    }
    forall record ensures record in left[..|left| - 1] <==> record in rest {
      SameInRest(left, right, k, record);
    }
  }

  lemma SameInRest(left: seq<Record>, right: seq<Record>, k: nat, record: Record)
    requires NoRepeats(left) && NoRepeats(right) && left != []
    requires k < |right| && right[k] == left[|left| - 1]
    requires record in left <==> record in right
    ensures record in left[..|left| - 1] <==> record in right[..k] + right[k + 1..]
  {
    var last := |left| - 1;
    if record in left[..last] {
      var m :| 0 <= m < last && left[m] == record;
      var n :| 0 <= n < |right| && right[n] == record;
      assert n != k;
      if n < k {
        assert right[..k][n] == record;
      } else {
        assert right[k + 1..][n - k - 1] == record;
      }
    }
    if record in right[..k] + right[k + 1..] {
      if record in right[..k] {
        var n :| 0 <= n < k && right[..k][n] == record;
        assert right[n] == record;
      } else {
        var n :| 0 <= n < |right| - k - 1 && right[k + 1..][n] == record;
        assert right[k + 1 + n] == record && right[k] != right[k + 1 + n];
      }
      var m :| 0 <= m < |left| && left[m] == record;
      assert m < last;
      assert left[..last][m] == record;
    }
  }

  lemma ValuesOf(selector: Selector, coverage: Coverage, record: Record)
    requires selector.Inputs? && SelectorIs(selector, coverage)
    ensures record in selector.values <==> record in coverage.values
    ensures NoRepeats(selector.values)
  {
    assert coverage.values == set value | value in selector.values;
  }

  lemma SelectorBytesSame(sizes: Sizes, left: Selector, right: Selector, coverage: Coverage)
    requires SelectorIs(left, coverage) && SelectorIs(right, coverage)
    ensures SelectorBytes(sizes, left) == SelectorBytes(sizes, right) && left.Inputs? == right.Inputs?
  {
    if left.Inputs? {
      forall record ensures record in left.values <==> record in right.values {
        ValuesOf(left, coverage, record);
        ValuesOf(right, coverage, record);
      }
      ValuesOf(left, coverage, map[]);
      ValuesOf(right, coverage, map[]);
      RecordBytesSame(sizes, left.values, right.values);
    }
  }

  // ------------------------------------------- what a report says of one endpoint

  lemma TargetReached(options: Options, hits: seq<Contribution>, endpoint: string, value: EndpointImpact, j: nat)
    ensures Reported(options, hits, endpoint, value) && j < |value.targets| ==>
      InputsFor(hits, TargetKey(endpoint, value.targets[j].scope)) != []
  {
  }

  /** An entry that lists inputs belongs to an endpoint its report calls verified. */
  lemma ListingIsVerified(options: Options, facts: seq<WriteFact>, endpoint: string, value: EndpointImpact, j: nat)
    requires Registered(options, facts) && Reported(options, AllHits(options, facts), endpoint, value)
    requires j < |value.targets| && value.targets[j].selector.Inputs?
    ensures ReportRank(options.assessment, endpoint) == 0
  {
    var hits := AllHits(options, facts);
    TargetReached(options, hits, endpoint, value, j);
    assert SelectorIs(value.targets[j].selector, AbsorbAll(InputsFor(hits, TargetKey(endpoint, value.targets[j].scope))));
    if StatusOf(options, endpoint).Conservative? {
      ConservativeIsEverything(options, options, facts, TargetKey(endpoint, value.targets[j].scope));
    }
  }

  lemma {:induction false} ReducedHasHit(hits: seq<Contribution>, endpoint: string)
    requires endpoint in ReducedBy(hits)
    ensures exists hit :: hit in hits && hit.key.endpoint == endpoint
  {
    var earlier := hits[..|hits| - 1];
    var last := hits[|hits| - 1];
    assert hits == earlier + [last];
    if endpoint in ReducedBy(earlier) {
      ReducedHasHit(earlier, endpoint);
    }
  }

  /** A verified endpoint with no targets was reached by nothing. */
  lemma IdleMeans(options: Options, facts: seq<WriteFact>, endpoint: string, value: EndpointImpact)
    requires Registered(options, facts) && Reported(options, AllHits(options, facts), endpoint, value)
    ensures Idle(value) ==> ReportRank(options.assessment, endpoint) == 0
    ensures (ReportRank(options.assessment, endpoint) == 0
             && forall scope :: InputsFor(AllHits(options, facts), TargetKey(endpoint, scope)) == []) ==> Idle(value)
    ensures Idle(value) ==> forall scope :: InputsFor(AllHits(options, facts), TargetKey(endpoint, scope)) == []
  {
    var hits := AllHits(options, facts);
    if value.targets != [] {
      TargetReached(options, hits, endpoint, value, 0);
    }
    if endpoint in ReducedBy(hits) {
      ReducedHasHit(hits, endpoint);
      var hit :| hit in hits && hit.key.endpoint == endpoint;
      HitIsInput(hits, hit);
      assert hit.key == TargetKey(endpoint, hit.key.scope);
    }
  }

  /** An unavailable endpoint receives nothing. */
  lemma UnavailableHasNoHits(options: Options, facts: seq<WriteFact>, endpoint: string)
    requires Registered(options, facts) && StatusOf(options, endpoint).Unavailable?
    ensures endpoint !in ReducedBy(AllHits(options, facts))
    ensures forall scope :: InputsFor(AllHits(options, facts), TargetKey(endpoint, scope)) == []
  {
    var hits := AllHits(options, facts);
    if endpoint in ReducedBy(hits) {
      ReducedHasHit(hits, endpoint);
      var hit :| hit in hits && hit.key.endpoint == endpoint;
      NoHit(options, facts, hit);
    }
    forall scope ensures InputsFor(hits, TargetKey(endpoint, scope)) == [] {
      if InputsFor(hits, TargetKey(endpoint, scope)) != [] {
        var hit := InputHasHit(hits, TargetKey(endpoint, scope), InputsFor(hits, TargetKey(endpoint, scope))[0]);
        NoHit(options, facts, hit);
      }
    }
  }

  lemma NoHit(options: Options, facts: seq<WriteFact>, hit: Contribution)
    requires Registered(options, facts) && StatusOf(options, hit.key.endpoint).Unavailable?
    ensures hit !in AllHits(options, facts)
  {
    if hit in AllHits(options, facts) {
      var fact, row, entry := HitSource(options, facts, hit);
    }
  }

  /** The same entry as far as scopes, kinds and encoded sizes go. */
  ghost predicate SameCosts(sizes: Sizes, left: EndpointImpact, right: EndpointImpact) {
    && left.endpoint == right.endpoint && left.status == right.status && |left.targets| == |right.targets|
    && forall j :: 0 <= j < |left.targets| ==> SameTarget(sizes, left.targets[j], right.targets[j])
  }

  ghost predicate SameTarget(sizes: Sizes, left: Target, right: Target) {
    left.scope == right.scope && left.selector.Inputs? == right.selector.Inputs? && ScopedBytes(sizes, left) == ScopedBytes(sizes, right)
  }

  lemma SameCostsSameBytes(sizes: Sizes, left: EndpointImpact, right: EndpointImpact)
    requires SameCosts(sizes, left, right)
    ensures EndpointBytes(sizes, left) == EndpointBytes(sizes, right)
  {
    hide ScopedBytes;
    BytesByTarget(sizes, left.targets, right.targets);
  }

  /** Reports that both call an endpoint verified give it the same entry, up to the order of values. */
  lemma SameEntry(a: Options, b: Options, facts: seq<WriteFact>, endpoint: string, left: EndpointImpact, right: EndpointImpact)
    requires a == b.(assessment := a.assessment) && Registered(a, facts) && Registered(b, facts)
    requires ReportRank(a.assessment, endpoint) == 0 && ReportRank(b.assessment, endpoint) == 0
    requires Reported(a, AllHits(a, facts), endpoint, left)
    requires Reported(b, AllHits(b, facts), endpoint, right)
    ensures SameCosts(a.sizes, left, right)
  {
    hide AllHits, Reported, SameCosts, ReportRank, Registered;
    KeptEntry(a, b, facts, endpoint, left);
    SameReports(b, AllHits(b, facts), endpoint, left, right);
  }

  lemma SameReports(options: Options, hits: seq<Contribution>, endpoint: string, left: EndpointImpact, right: EndpointImpact)
    requires Reported(options, hits, endpoint, left) && Reported(options, hits, endpoint, right)
    ensures SameCosts(options.sizes, left, right)
  {
    hide InputsFor, ReducedBy, Applied, AbsorbAll, SelectorIs, SameTarget;
    if !left.status.Unavailable? {
      SameTargets(options.sizes, hits, endpoint, left.targets, right.targets);
    }
  }

  lemma SameStatus(a: Options, b: Options, endpoint: string, reducedA: set<string>, reducedB: set<string>)
    requires ReportRank(a.assessment, endpoint) == 0 && ReportRank(b.assessment, endpoint) == 0
    requires endpoint in reducedA <==> endpoint in reducedB
    ensures Applied(a.assessment, endpoint, Computed(reducedA, endpoint)) == Applied(b.assessment, endpoint, Computed(reducedB, endpoint))
    ensures !Applied(a.assessment, endpoint, Computed(reducedA, endpoint)).Unavailable?
  {
    assert {PrecisionReduced} + {} == {PrecisionReduced};
    assert Merge(Conservative({PrecisionReduced}), Verified) == Conservative({PrecisionReduced});
  }

  ghost predicate TargetsFit(hits: seq<Contribution>, endpoint: string, targets: seq<Target>) {
    && |targets| <= 2
    && (|targets| == 2 ==> targets[0].scope.Caller? && targets[1].scope.Global?)
    && (forall scope :: InputsFor(hits, TargetKey(endpoint, scope)) != [] <==> HasScope(targets, scope))
    && forall j :: 0 <= j < |targets| ==>
         SelectorIs(targets[j].selector, AbsorbAll(InputsFor(hits, TargetKey(endpoint, targets[j].scope))))
  }

  lemma SameTargets(sizes: Sizes, hits: seq<Contribution>, endpoint: string, left: seq<Target>, right: seq<Target>)
    requires TargetsFit(hits, endpoint, left) && TargetsFit(hits, endpoint, right)
    ensures |left| == |right| && forall j :: 0 <= j < |left| ==> SameTarget(sizes, left[j], right[j])
  {
    hide InputsFor, AbsorbAll, SelectorIs;
    SameScopes(hits, endpoint, left, right);
    forall j | 0 <= j < |left| ensures SameTarget(sizes, left[j], right[j]) {
      SelectorBytesSame(
        sizes, left[j].selector, right[j].selector, AbsorbAll(InputsFor(hits, TargetKey(endpoint, left[j].scope))));
    }
  }

  predicate HasScope(targets: seq<Target>, scope: TargetScope) {
    exists j :: 0 <= j < |targets| && targets[j].scope == scope
  }

  lemma SameScopes(hits: seq<Contribution>, endpoint: string, left: seq<Target>, right: seq<Target>)
    requires TargetsFit(hits, endpoint, left) && TargetsFit(hits, endpoint, right)
    ensures |left| == |right| && forall j :: 0 <= j < |left| ==> left[j].scope == right[j].scope
  {
    hide InputsFor, AbsorbAll, SelectorIs;
    assert HasScope(left, Caller) == HasScope(right, Caller) && HasScope(left, Global) == HasScope(right, Global);
    ScopesOf(left);
    ScopesOf(right);
  }

  lemma ScopesOf(targets: seq<Target>)
    requires |targets| <= 2 && (|targets| == 2 ==> targets[0].scope.Caller? && targets[1].scope.Global?)
    ensures |targets| == (if HasScope(targets, Caller) then 1 else 0) + (if HasScope(targets, Global) then 1 else 0)
    ensures |targets| == 1 ==> HasScope(targets, targets[0].scope)
  {
    if |targets| == 2 {
      assert HasScope(targets, targets[0].scope) && HasScope(targets, targets[1].scope);
    } else if |targets| == 1 {
      assert HasScope(targets, targets[0].scope);
    }
  }

  lemma {:induction false} BytesByTarget(sizes: Sizes, left: seq<Target>, right: seq<Target>)
    requires |left| == |right| && forall j :: 0 <= j < |left| ==> ScopedBytes(sizes, left[j]) == ScopedBytes(sizes, right[j])
    ensures TargetsBytes(sizes, left) == TargetsBytes(sizes, right)
  {
    if left != [] {
      BytesByTarget(sizes, left[..|left| - 1], right[..|right| - 1]);
    }
  }

  // ------------------------------------------------------ the cheapest rivals

  lemma AppliedCoded(b: Options, endpoint: string, reduced: set<string>)
    requires Coded(b.assessment)
    ensures var status := Applied(b.assessment, endpoint, Computed(reduced, endpoint)); !status.Verified? ==> Codes(status) != {}
  {
  }

  /** An endpoint idle under a worse report was idle before. */
  lemma IdleBefore(a: Options, b: Options, facts: seq<WriteFact>, endpoint: string, left: EndpointImpact, right: EndpointImpact)
    requires a == b.(assessment := a.assessment) && Registered(a, facts) && Registered(b, facts)
    requires ReportRank(a.assessment, endpoint) <= ReportRank(b.assessment, endpoint)
    requires Reported(a, AllHits(a, facts), endpoint, left) && Reported(b, AllHits(b, facts), endpoint, right)
    ensures Idle(right) ==> Idle(left)
  {
    hide AllHits, InputsFor, Reported, Registered, Idle;
    IdleMeans(a, facts, endpoint, left);
    IdleMeans(b, facts, endpoint, right);
    if Idle(right) {
      SameInputs(a, b, facts, endpoint);
    }
  }

  lemma ReportedCoded(b: Options, hits: seq<Contribution>, endpoint: string, value: EndpointImpact)
    requires Coded(b.assessment) && Reported(b, hits, endpoint, value)
    ensures value.endpoint == endpoint && (!value.status.Verified? ==> Codes(value.status) != {})
  {
    AppliedCoded(b, endpoint, ReducedBy(hits));
  }

  /** No worse report can make a rival's entry smaller than it is among the starved. */
  lemma RivalFloor(
      a: Options, b: Options, facts: seq<WriteFact>, exactA: Impact, impactA: Impact, exactB: Impact, impactB: Impact, i: nat, j: nat)
    requires Worsened(a, b) && Coded(b.assessment) && j < |a.manifest| && j != i
    requires Yields(a, facts, exactA, impactA) && Yields(b, facts, exactB, impactB)
    requires |exactA| == |exactB| == |impactB| == |a.manifest|
    ensures EndpointBytes(a.sizes, Starved(exactA, i)[j]) <= EndpointBytes(a.sizes, impactB[j])
  {
    EntryFacts(a, facts, exactA, impactA, j);
    EntryFacts(b, facts, exactB, impactB, j);
    hide Reported, AllHits, EndpointBytes, EndpointWidened, Constrained, Idle, BoundsTo, AllReported, Coded;
    var endpoint := a.manifest[j].endpoint;
    ReportedName(a, AllHits(a, facts), endpoint, exactA[j]);
    ReportedCoded(b, AllHits(b, facts), endpoint, exactB[j]);
    IdleBefore(a, b, facts, endpoint, exactA[j], exactB[j]);
    EntryFloor(a.sizes, exactA[j], exactB[j], impactB[j]);
  }

  lemma EntryFloor(sizes: Sizes, exactA: EndpointImpact, exactB: EndpointImpact, bounded: EndpointImpact)
    requires exactA.endpoint == exactB.endpoint && EndpointWidened(exactB, bounded)
    requires !exactB.status.Verified? ==> Codes(exactB.status) != {}
    requires Idle(exactB) ==> Idle(exactA)
    ensures EndpointBytes(sizes, if Idle(exactA) then exactA else EndpointImpact(exactA.endpoint, LEAST, []))
      <= EndpointBytes(sizes, bounded)
  {
    CodesFloor(Codes(bounded.status));
    TargetsFloor(sizes, bounded.targets);
  }

  lemma {:induction false} EntriesMonotone(sizes: Sizes, small: Impact, large: Impact)
    requires |small| == |large|
    requires forall j :: 0 <= j < |small| ==> EndpointBytes(sizes, small[j]) <= EndpointBytes(sizes, large[j])
    ensures EntriesBytes(sizes, small) <= EntriesBytes(sizes, large)
  {
    if small != [] {
      hide EndpointBytes;
      EntriesMonotone(sizes, small[..|small| - 1], large[..|large| - 1]);
    }
  }

  /** An entry that stays a list under a worse report costs its bytes, and everything else its least. */
  lemma ListingCosts(
      a: Options, b: Options, facts: seq<WriteFact>, exactA: Impact, impactA: Impact, exactB: Impact, impactB: Impact, i: nat,
      entry: EndpointImpact)
    requires Worsened(a, b) && Coded(b.assessment) && i < |a.manifest|
    requires Yields(a, facts, exactA, impactA) && Yields(b, facts, exactB, impactB)
    requires |exactA| == |exactB| == |impactB| == |a.manifest|
    requires EndpointBytes(a.sizes, entry) == EndpointBytes(a.sizes, impactB[i])
    ensures ImpactBytes(a.sizes, Starved(exactA, i)[i := entry]) <= IMPACT_BYTES
  {
    var starved := Starved(exactA, i)[i := entry];
    assert ImpactBytes(a.sizes, impactB) <= IMPACT_BYTES;
    hide EndpointBytes, Yields, Worsened, Coded, EntriesBytes;
    forall j | 0 <= j < |starved| ensures EndpointBytes(a.sizes, starved[j]) <= EndpointBytes(a.sizes, impactB[j]) {
      if j != i {
        RivalFloor(a, b, facts, exactA, impactA, exactB, impactB, i, j);
      }
    }
    EntriesMonotone(a.sizes, starved, impactB);
  }

  // --------------------------------------------------- exactly when it is lost

  /** What takes everything before bounding still does under a worse report. */
  lemma ExactTakesAll(
      a: Options, b: Options, facts: seq<WriteFact>, exactA: Impact, impactA: Impact, exactB: Impact, impactB: Impact, i: nat,
      sameScope: bool)
    requires Worsened(a, b) && i < |a.manifest|
    requires Yields(a, facts, exactA, impactA) && Yields(b, facts, exactB, impactB)
    requires |exactA| == |exactB| == |impactB| == |a.manifest| && TakesAll(exactA[i], sameScope)
    ensures TakesAll(impactB[i], sameScope)
  {
    EntryFacts(b, facts, exactB, impactB, i);
    hide Selects, Yields, Reported, Constrained, TakesAll, AllHits, Worsened;
    if !TakesAll(exactB[i], sameScope) {
      TakesAllSelects(a.coerce, exactA[i], Blind(exactB[i]), sameScope);
      ExactKeeps(a, b, facts, i, exactA, impactA, exactB, impactB, Blind(exactB[i]), sameScope);
      BlindMisses(a.coerce, exactB[i], sameScope);
    } else {
      WidenedTakesAll(exactB[i], impactB[i], sameScope);
    }
  }

  /** A widened list stays widened under a worse report, unless there is room for it. */
  lemma WidenedStays(
      a: Options, b: Options, facts: seq<WriteFact>, exactA: Impact, impactA: Impact, exactB: Impact, impactB: Impact, i: nat,
      sameScope: bool)
    requires Worsened(a, b) && Coded(b.assessment) && i < |a.manifest|
    requires Yields(a, facts, exactA, impactA) && Yields(b, facts, exactB, impactB)
    requires |exactA| == |exactB| == |impactA| == |impactB| == |a.manifest|
    requires !TakesAll(exactA[i], sameScope) && TakesAll(impactA[i], sameScope)
    requires !HasRoom(a.sizes, exactA, i, sameScope)
    ensures TakesAll(impactB[i], sameScope)
  {
    if !TakesAll(impactB[i], sameScope) {
      hide *;
      ListingAgain(a, b, facts, exactA, impactA, exactB, impactB, i, sameScope);
      RoomWasLeft(a, b, facts, exactA, impactA, exactB, impactB, i, sameScope);
    }
  }

  /** An entry whose list is widened under one report and not under a worse one costs the same before bounding. */
  lemma ListingAgain(
      a: Options, b: Options, facts: seq<WriteFact>, exactA: Impact, impactA: Impact, exactB: Impact, impactB: Impact, i: nat,
      sameScope: bool)
    requires Worsened(a, b) && i < |a.manifest|
    requires Yields(a, facts, exactA, impactA) && Yields(b, facts, exactB, impactB)
    requires |exactA| == |exactB| == |impactA| == |impactB| == |a.manifest|
    requires !TakesAll(exactA[i], sameScope) && TakesAll(impactA[i], sameScope) && !TakesAll(impactB[i], sameScope)
    ensures SameCosts(a.sizes, exactA[i], exactB[i])
    ensures TwoScopes(exactB[i].targets) && (sameScope || HasScope(exactB[i].targets, Global))
  {
    EntryFacts(a, facts, exactA, impactA, i);
    EntryFacts(b, facts, exactB, impactB, i);
    var endpoint := a.manifest[i].endpoint;
    hide AllHits, InputsFor, ReducedBy, AbsorbAll, SelectorIs, Yields, Reported, EndpointWidened, Constrained, TakesAll;
    if TakesAll(exactB[i], sameScope) {
      WidenedTakesAll(exactB[i], impactB[i], sameScope);
    } else {
      var j := WidenedHasTarget(exactA[i], impactA[i], sameScope);
      ListingIsVerified(a, facts, endpoint, exactA[i], j);
      var k := ListingKept(a, b, facts, endpoint, exactA[i], exactB[i], j, sameScope);
      ListingIsVerified(b, facts, endpoint, exactB[i], k);
      SameEntry(a, b, facts, endpoint, exactA[i], exactB[i]);
      ReportedScopes(b, AllHits(b, facts), endpoint, exactB[i]);
    }
  }

  predicate TwoScopes(targets: seq<Target>) {
    |targets| <= 2 && (|targets| == 2 ==> targets[0].scope.Caller? && targets[1].scope.Global?)
  }

  lemma ReportedScopes(options: Options, hits: seq<Contribution>, endpoint: string, value: EndpointImpact)
    ensures Reported(options, hits, endpoint, value) ==> TwoScopes(value.targets)
  {
  }

  lemma RoomWasLeft(
      a: Options, b: Options, facts: seq<WriteFact>, exactA: Impact, impactA: Impact, exactB: Impact, impactB: Impact, i: nat,
      sameScope: bool)
    requires Worsened(a, b) && Coded(b.assessment) && i < |a.manifest|
    requires Yields(a, facts, exactA, impactA) && Yields(b, facts, exactB, impactB)
    requires |exactA| == |exactB| == |impactA| == |impactB| == |a.manifest|
    requires SameCosts(a.sizes, exactA[i], exactB[i]) && !TakesAll(impactB[i], sameScope)
    requires TwoScopes(exactB[i].targets) && (sameScope || HasScope(exactB[i].targets, Global))
    ensures HasRoom(a.sizes, exactA, i, sameScope)
  {
    assert Stage(b.sizes, exactB, impactB) && EndpointWidened(exactB[i], impactB[i]);
    assert a.sizes == b.sizes;
    hide *;
    var entry := CheapestEntry(b.sizes, exactA, exactB, impactB, i, sameScope);
    ListingCosts(a, b, facts, exactA, impactA, exactB, impactB, i, entry);
    EntryHasRoom(a.sizes, exactA, i, entry, sameScope);
  }

  /** The endpoint's own entry with its list, where a consumer can see it, still there. */
  ghost predicate Listing(sizes: Sizes, exact: Impact, i: nat, entry: EndpointImpact, sameScope: bool)
    requires i < |exact|
  {
    entry == exact[i] || (!sameScope && CallerGoesFirst(sizes, exact[i]) && entry == WithoutCaller(exact, i)[i])
  }

  lemma EntryHasRoom(sizes: Sizes, exact: Impact, i: nat, entry: EndpointImpact, sameScope: bool)
    requires i < |exact| && Listing(sizes, exact, i, entry, sameScope)
    requires ImpactBytes(sizes, Starved(exact, i)[i := entry]) <= IMPACT_BYTES
    ensures HasRoom(sizes, exact, i, sameScope)
  {
    hide ImpactBytes, ScopedBytes, Idle;
    var starved := Starved(exact, i);
    if entry == exact[i] {
      assert starved[i := entry] == starved;
    } else {
      assert starved[i := entry] == WithoutCaller(exact, i);
    }
  }

  lemma CheapestEntry(sizes: Sizes, exactA: Impact, exactB: Impact, impactB: Impact, i: nat, sameScope: bool)
      returns (entry: EndpointImpact)
    requires i < |exactA| && i < |exactB| && Stage(sizes, exactB, impactB) && EndpointWidened(exactB[i], impactB[i])
    requires SameCosts(sizes, exactA[i], exactB[i]) && !TakesAll(impactB[i], sameScope)
    requires TwoScopes(exactB[i].targets) && (sameScope || HasScope(exactB[i].targets, Global))
    ensures Listing(sizes, exactA, i, entry, sameScope)
    ensures EndpointBytes(sizes, entry) == EndpointBytes(sizes, impactB[i])
  {
    if impactB[i] == exactB[i] {
      hide *;
      SameCostsSameBytes(sizes, exactA[i], exactB[i]);
      entry := exactA[i];
      ItselfIsListing(sizes, exactA, i, sameScope);
    } else {
      hide EndpointBytes, ScopedBytes, SameCosts, WithoutCaller;
      OnlyCallerWidened(exactB[i], impactB[i], sameScope);
      assert GoesFirst(sizes, exactB[i].targets[0], i, 0, impactB[i].targets[1], i, 1);
      CallerWent(sizes, exactA, exactB[i], impactB[i], i);
      entry := WithoutCaller(exactA, i)[i];
    }
  }

  lemma ItselfIsListing(sizes: Sizes, exact: Impact, i: nat, sameScope: bool)
    ensures i < |exact| ==> Listing(sizes, exact, i, exact[i], sameScope)
  {
  }

  /** What another scope does not see is the caller target, the first of two. */
  lemma OnlyCallerWidened(exact: EndpointImpact, bounded: EndpointImpact, sameScope: bool)
    requires EndpointWidened(exact, bounded) && !TakesAll(bounded, sameScope) && bounded != exact
    requires TwoScopes(exact.targets) && (sameScope || HasScope(exact.targets, Global))
    ensures !sameScope && |exact.targets| == 2 && exact.targets[0].selector.Inputs? && exact.targets[1].selector.Inputs?
    ensures |bounded.targets| == 2 && bounded.targets[0].selector.All? && bounded.targets[1] == exact.targets[1]
  {
    assert bounded.targets != exact.targets;
    assert forall j :: 0 <= j < |exact.targets| ==> TargetWidened(exact.targets[j], bounded.targets[j]);
  }

  /** So the caller target was no smaller, and the entry costs what it would without it. */
  lemma CallerWent(sizes: Sizes, exact: Impact, right: EndpointImpact, bounded: EndpointImpact, i: nat)
    requires i < |exact| && SameCosts(sizes, exact[i], right) && EndpointWidened(right, bounded)
    requires |right.targets| == 2 && right.targets[0].selector.Inputs? && right.targets[1].selector.Inputs?
    requires bounded.targets[0].selector.All? && bounded.targets[1] == right.targets[1]
    requires GoesFirst(sizes, right.targets[0], i, 0, bounded.targets[1], i, 1)
    ensures CallerGoesFirst(sizes, exact[i])
    ensures EndpointBytes(sizes, WithoutCaller(exact, i)[i]) == EndpointBytes(sizes, bounded)
  {
    var without := WithoutCaller(exact, i)[i];
    assert SameTarget(sizes, exact[i].targets[0], right.targets[0]) && SameTarget(sizes, exact[i].targets[1], right.targets[1]);
    assert TargetWidened(right.targets[0], bounded.targets[0]);
    assert SameCosts(sizes, without, bounded);
    SameCostsSameBytes(sizes, without, bounded);
  }

  /** The report that leaves endpoint `i` and the idle ones alone and gives up on all others. */
  function StarvingReport(manifest: Manifest, exact: Impact, i: nat): (report: Report)
    requires |exact| == |manifest| && DistinctEndpoints(manifest)
    ensures forall j :: 0 <= j < |manifest| ==>
      manifest[j].endpoint in report
      && report[manifest[j].endpoint] == if j == i || Idle(exact[j]) then Verified else LEAST
    ensures forall endpoint :: endpoint in report ==> report[endpoint] == Verified || report[endpoint] == LEAST
  {
    map j | 0 <= j < |manifest| :: manifest[j].endpoint := if j == i || Idle(exact[j]) then Verified else LEAST
  }

  /** The starved impact is what that report leads to. */
  lemma StarvedIsReported(a: Options, facts: seq<WriteFact>, exact: Impact, i: nat)
    requires Registered(a, facts) && AllReported(a, AllHits(a, facts), exact)
    requires i < |a.manifest| && DistinctEndpoints(a.manifest) && ReportRank(a.assessment, a.manifest[i].endpoint) == 0
    ensures var b := a.(assessment := Some(StarvingReport(a.manifest, exact, i)));
      && Worsened(a, b) && Coded(b.assessment) && Registered(b, facts)
      && AllReported(b, AllHits(b, facts), Starved(exact, i))
  {
    hide AllHits, Reported, Idle;
    var b := a.(assessment := Some(StarvingReport(a.manifest, exact, i)));
    var starved := Starved(exact, i);
    forall j | 0 <= j < |starved|
      ensures ReportRank(a.assessment, a.manifest[j].endpoint) <= ReportRank(b.assessment, a.manifest[j].endpoint)
      ensures Reported(b, AllHits(b, facts), a.manifest[j].endpoint, starved[j])
    {
      assert Reported(a, AllHits(a, facts), a.manifest[j].endpoint, exact[j]);
      StarvedEntry(a, b, facts, exact, i, j);
    }
  }

  lemma StarvedEntry(a: Options, b: Options, facts: seq<WriteFact>, exact: Impact, i: nat, j: nat)
    requires |exact| == |a.manifest| && DistinctEndpoints(a.manifest) && i < |exact| && j < |exact|
    requires b == a.(assessment := Some(StarvingReport(a.manifest, exact, i)))
    requires Registered(a, facts) && Registered(b, facts)
    requires ReportRank(a.assessment, a.manifest[i].endpoint) == 0
    requires Reported(a, AllHits(a, facts), a.manifest[j].endpoint, exact[j])
    ensures ReportRank(a.assessment, a.manifest[j].endpoint) <= ReportRank(b.assessment, a.manifest[j].endpoint)
    ensures Reported(b, AllHits(b, facts), a.manifest[j].endpoint, Starved(exact, i)[j])
  {
    hide AllHits, Reported, Idle;
    var endpoint := a.manifest[j].endpoint;
    if j == i || Idle(exact[j]) {
      IdleMeans(a, facts, endpoint, exact[j]);
      KeptEntry(a, b, facts, endpoint, exact[j]);
    } else {
      GivenUpEntry(b, facts, endpoint);
      ReportedName(a, AllHits(a, facts), endpoint, exact[j]);
    }
  }

  lemma ReportedName(options: Options, hits: seq<Contribution>, endpoint: string, value: EndpointImpact)
    ensures Reported(options, hits, endpoint, value) ==> value.endpoint == endpoint
  {
  }

  lemma KeptEntry(a: Options, b: Options, facts: seq<WriteFact>, endpoint: string, value: EndpointImpact)
    requires a == b.(assessment := a.assessment) && Registered(a, facts) && Registered(b, facts)
    requires ReportRank(a.assessment, endpoint) == 0 && ReportRank(b.assessment, endpoint) == 0
    requires Reported(a, AllHits(a, facts), endpoint, value)
    ensures Reported(b, AllHits(b, facts), endpoint, value)
  {
    hide AllHits, InputsFor, ReducedBy, Applied, AbsorbAll, SelectorIs, Registered;
    SameInputs(a, b, facts, endpoint);
    SameStatus(a, b, endpoint, ReducedBy(AllHits(a, facts)), ReducedBy(AllHits(b, facts)));
  }

  lemma GivenUpEntry(b: Options, facts: seq<WriteFact>, endpoint: string)
    requires Registered(b, facts) && b.assessment.Some? && endpoint in b.assessment.value && b.assessment.value[endpoint] == LEAST
    ensures Reported(b, AllHits(b, facts), endpoint, EndpointImpact(endpoint, LEAST, []))
  {
    UnavailableHasNoHits(b, facts, endpoint);
    assert {} + {CatalogDrift} == {CatalogDrift};
    assert Merge(Verified, LEAST) == LEAST;
  }

  /** Where it does not fit, the starved impact is bounded by its only targets, the first of them first. */
  lemma StarvedIsBounded(sizes: Sizes, exact: Impact, i: nat)
    requires i < |exact| && CallerGoesFirst(sizes, exact[i]) && ImpactBytes(sizes, Starved(exact, i)) > IMPACT_BYTES
    requires ImpactBytes(sizes, WithoutCaller(exact, i)) <= IMPACT_BYTES
    ensures BoundsTo(sizes, Starved(exact, i), WithoutCaller(exact, i))
  {
    StarvedStage(sizes, exact, i);
    hide ImpactBytes, Stage, Starved, CallerGoesFirst;
    var starved, without := Starved(exact, i), WithoutCaller(exact, i);
    forall earlier | Stage(sizes, starved, earlier) && Stage(sizes, earlier, without) && earlier != without
      ensures earlier == starved
    {
      StagesWiden(sizes, starved, earlier);
      StagesWiden(sizes, earlier, without);
      BetweenSteps(starved, earlier, i, 0);
    }
  }

  lemma StagesWiden(sizes: Sizes, before: Impact, after: Impact)
    ensures Stage(sizes, before, after) ==> ImpactWidened(before, after)
  {
  }

  lemma StarvedStage(sizes: Sizes, exact: Impact, i: nat)
    requires i < |exact| && CallerGoesFirst(sizes, exact[i])
    ensures Stage(sizes, Starved(exact, i), WithoutCaller(exact, i))
    ensures Starved(exact, i)[i] == exact[i] && exact[i].targets[0].selector.Inputs?
  {
    var starved, without := Starved(exact, i), WithoutCaller(exact, i);
    assert forall j :: 0 <= j < |exact| && j != i ==> starved[j].targets == [];
    hide ScopedBytes, Starved, Idle;
    assert ImpactWidened(starved, without);
  }

  /** The starving report loses an input of the widened endpoint. */
  lemma StarvingLoses(a: Options, facts: seq<WriteFact>, exactA: Impact, impactA: Impact, i: nat, sameScope: bool)
    requires Yields(a, facts, exactA, impactA) && i < |a.manifest| && DistinctEndpoints(a.manifest)
    requires |exactA| == |impactA| == |a.manifest|
    requires !TakesAll(exactA[i], sameScope) && TakesAll(impactA[i], sameScope) && HasRoom(a.sizes, exactA, i, sameScope)
    ensures !NeverLoses(a, facts, impactA, i, sameScope)
  {
    EntryFacts(a, facts, exactA, impactA, i);
    hide AllHits, InputsFor, ReducedBy, AbsorbAll, Reported, Constrained, Selects, ImpactBytes, BoundsTo, EndpointWidened;
    var j := WidenedHasTarget(exactA[i], impactA[i], sameScope);
    ListingIsVerified(a, facts, a.manifest[i].endpoint, exactA[i], j);
    StarvedIsReported(a, facts, exactA, i);
    hide Worsened, Coded, AllReported;
    var b := a.(assessment := Some(StarvingReport(a.manifest, exactA, i)));
    var starved := Starved(exactA, i);
    var impactB := if ImpactBytes(a.sizes, starved) <= IMPACT_BYTES then starved else WithoutCaller(exactA, i);
    if impactB == starved {
      FittingStays(a.sizes, starved);
    } else {
      StarvedIsBounded(a.sizes, exactA, i);
    }
    assert Yields(b, facts, starved, impactB);
    StarvedMisses(a, b, facts, exactA, impactA, impactB, i, sameScope);
  }

  lemma StarvedMisses(
      a: Options, b: Options, facts: seq<WriteFact>, exactA: Impact, impactA: Impact, impactB: Impact, i: nat, sameScope: bool)
    requires Worsened(a, b) && Coded(b.assessment) && Yields(b, facts, Starved(exactA, i), impactB)
    requires i < |a.manifest| && |exactA| == |impactA| == |impactB| == |a.manifest|
    requires !TakesAll(exactA[i], sameScope) && TakesAll(impactA[i], sameScope)
    requires
      impactB == Starved(exactA, i)
      || (!sameScope && TwoScopes(exactA[i].targets) && CallerGoesFirst(a.sizes, exactA[i]) && impactB == WithoutCaller(exactA, i))
    ensures !NeverLoses(a, facts, impactA, i, sameScope)
  {
    EntryFacts(b, facts, Starved(exactA, i), impactB, i);
    assert !TakesAll(impactB[i], sameScope);
    hide Yields, Worsened, Coded, TakesAll, Selects, Constrained, AllHits, Reported, EndpointWidened, Starved;
    var input := Blind(impactB[i]);
    TakesAllSelects(a.coerce, impactA[i], input, sameScope);
    BlindMisses(a.coerce, impactB[i], sameScope);
  }

  /**
   Exactly when the byte budget lets a worse report take an input away: the endpoint's list was widened to make
   room, and there would have been room for it had everything else been as small as a report can make it. For
   results cached under another scope than the command's, everything else includes the endpoint's own caller target.
   */
  lemma NeverLosesExactly(a: Options, facts: seq<WriteFact>, exactA: Impact, impactA: Impact, i: nat, sameScope: bool)
    requires Yields(a, facts, exactA, impactA) && i < |a.manifest| && DistinctEndpoints(a.manifest)
    ensures |exactA| == |impactA| == |a.manifest|
    ensures NeverLoses(a, facts, impactA, i, sameScope) <==>
      !(TakesAll(impactA[i], sameScope) && !TakesAll(exactA[i], sameScope) && HasRoom(a.sizes, exactA, i, sameScope))
  {
    EntryFacts(a, facts, exactA, impactA, i);
    hide Yields, Worsened, Coded, TakesAll, Selects, Reported, Constrained, EndpointWidened, AllHits, HasRoom, Registered;
    if TakesAll(impactA[i], sameScope) && !TakesAll(exactA[i], sameScope) && HasRoom(a.sizes, exactA, i, sameScope) {
      StarvingLoses(a, facts, exactA, impactA, i, sameScope);
    } else {
      forall b, exactB, impactB, input |
        Worsened(a, b) && Coded(b.assessment) && Yields(b, facts, exactB, impactB) && i < |impactB|
        && Selects(a.coerce, impactA[i], input, sameScope)
        ensures Selects(a.coerce, impactB[i], input, sameScope)
      {
        KeepsOne(a, b, facts, exactA, impactA, exactB, impactB, i, input, sameScope);
      }
    }
  }

  lemma KeepsOne(
      a: Options, b: Options, facts: seq<WriteFact>, exactA: Impact, impactA: Impact, exactB: Impact, impactB: Impact, i: nat,
      input: Input, sameScope: bool)
    requires Worsened(a, b) && Coded(b.assessment) && i < |a.manifest|
    requires Yields(a, facts, exactA, impactA) && Yields(b, facts, exactB, impactB)
    requires |exactA| == |impactA| == |a.manifest| && i < |impactB| && Selects(a.coerce, impactA[i], input, sameScope)
    requires !(TakesAll(impactA[i], sameScope) && !TakesAll(exactA[i], sameScope) && HasRoom(a.sizes, exactA, i, sameScope))
    ensures Selects(a.coerce, impactB[i], input, sameScope)
  {
    assert b.manifest == a.manifest;
    EntryFacts(b, facts, exactB, impactB, i);
    hide Yields, Worsened, Coded, TakesAll, Selects, Reported, Constrained, EndpointWidened, AllHits, HasRoom, Registered;
    WorseKeepsExactly(a, b, facts, exactA, exactB, impactA, impactB, i, sameScope);
    if TakesAll(impactA[i], sameScope) {
      if TakesAll(exactA[i], sameScope) {
        ExactTakesAll(a, b, facts, exactA, impactA, exactB, impactB, i, sameScope);
      } else {
        WidenedStays(a, b, facts, exactA, impactA, exactB, impactB, i, sameScope);
      }
    }
  }

  lemma WidenedHasTarget(exact: EndpointImpact, bounded: EndpointImpact, sameScope: bool) returns (j: nat)
    requires EndpointWidened(exact, bounded) && !TakesAll(exact, sameScope) && TakesAll(bounded, sameScope)
    ensures j < |exact.targets| && exact.targets[j].selector.Inputs? && (exact.targets[j].scope.Global? || sameScope)
  {
    if bounded.status.Unavailable? {
      assert false;
    } else {
      j :| 0 <= j < |bounded.targets| && (bounded.targets[j].scope.Global? || sameScope) && bounded.targets[j].selector.All?;
      assert TargetWidened(exact.targets[j], bounded.targets[j]);
    }
  }

  /** An endpoint that was reached is reached under a worse report, unless that takes everything. */
  lemma ListingKept(
      a: Options, b: Options, facts: seq<WriteFact>, endpoint: string, left: EndpointImpact, right: EndpointImpact, j: nat,
      sameScope: bool)
      returns (k: nat)
    requires a == b.(assessment := a.assessment) && Registered(a, facts) && Registered(b, facts)
    requires Reported(a, AllHits(a, facts), endpoint, left) && Reported(b, AllHits(b, facts), endpoint, right)
    requires ReportRank(a.assessment, endpoint) == 0 && j < |left.targets| && (left.targets[j].scope.Global? || sameScope)
    requires !TakesAll(right, sameScope)
    ensures k < |right.targets| && right.targets[k].selector.Inputs? && right.targets[k].scope == left.targets[j].scope
  {
    hide AllHits, InputsFor, AbsorbAll, Reported, Registered, TakesAll;
    GivenUpTakesAll(b, AllHits(b, facts), endpoint, right, sameScope);
    TargetReached(a, AllHits(a, facts), endpoint, left, j);
    var key := TargetKey(endpoint, left.targets[j].scope);
    if StatusOf(b, endpoint).Conservative? {
      ConservativeIsEverything(a, b, facts, key);
    } else {
      SameInputs(a, b, facts, endpoint);
    }
    k := ReachedTarget(b, AllHits(b, facts), endpoint, right, key.scope, sameScope);
  }

  lemma GivenUpTakesAll(options: Options, hits: seq<Contribution>, endpoint: string, value: EndpointImpact, sameScope: bool)
    ensures Reported(options, hits, endpoint, value) && StatusOf(options, endpoint).Unavailable? ==> TakesAll(value, sameScope)
  {
  }

  lemma ReachedTarget(
      options: Options, hits: seq<Contribution>, endpoint: string, value: EndpointImpact, scope: TargetScope, sameScope: bool)
      returns (k: nat)
    requires Reported(options, hits, endpoint, value) && InputsFor(hits, TargetKey(endpoint, scope)) != []
    requires !TakesAll(value, sameScope) && (scope.Global? || sameScope)
    ensures k < |value.targets| && value.targets[k].selector.Inputs? && value.targets[k].scope == scope
  {
    hide InputsFor, AbsorbAll, SelectorIs, Applied;
    k :| 0 <= k < |value.targets| && value.targets[k].scope == scope;
  }
}
