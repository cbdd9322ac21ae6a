/** Endpoint assessments, and the byte budget that widens the largest selectors of an impact. */
module Assessments {
  import opened Contracts
  import opened WriteSets
  import opened Antichain

  datatype Code =
    | ValidationFailed | CatalogDrift | ResourceDrift | ObserverUnverified
    | PrecisionReduced | ObservationFailed | CalculationFailed

  datatype Assessment = Verified | Conservative(codes: set<Code>) | Unavailable(codes: set<Code>)

  type Report = map<string, Assessment>

  datatype Target = Target(scope: TargetScope, selector: Selector)

  datatype EndpointImpact = EndpointImpact(endpoint: string, status: Assessment, targets: seq<Target>)

  /** One entry per registered endpoint, in endpoint order. */
  type Impact = seq<EndpointImpact>

  function Codes(assessment: Assessment): set<Code> {
    if assessment.Verified? then {} else assessment.codes
  }

  function Rank(assessment: Assessment): nat {
    match assessment
    case Verified => 0
    case Conservative(_) => 1
    case Unavailable(_) => 2
  }

  /** `mergeAssessment`: the worse status, with the codes of both. */
  function Merge(left: Assessment, right: Assessment): (merged: Assessment)
    ensures Rank(merged) == if Rank(left) >= Rank(right) then Rank(left) else Rank(right)
    ensures Codes(merged) == Codes(left) + Codes(right)
  {
    if left.Unavailable? || right.Unavailable? then Unavailable(Codes(left) + Codes(right))
    else if left.Conservative? || right.Conservative? then Conservative(Codes(left) + Codes(right))
    else Verified
  }

  /** Reports only ever get worse, and merging in any order ends in the same report. */
  lemma MergeIsJoin(a: Assessment, b: Assessment, c: Assessment)
    ensures Merge(a, b) == Merge(b, a)
    ensures Merge(Merge(a, b), c) == Merge(a, Merge(b, c))
    ensures Merge(a, a) == a
  {
    assert Codes(a) + Codes(b) == Codes(b) + Codes(a);
    assert Codes(a) + Codes(b) + Codes(c) == Codes(a) + (Codes(b) + Codes(c));
    assert Codes(a) + Codes(a) == Codes(a);
  }

  // ------------------------------------------------------------ encoded sizes

  function CodeBytes(code: Code): nat {
    match code
    case ValidationFailed => 19
    case CatalogDrift => 15
    case ResourceDrift => 16
    case ObserverUnverified => 21
    case PrecisionReduced => 19
    case ObservationFailed => 20
    case CalculationFailed => 20
  }

  function CodeShare(codes: set<Code>, code: Code): nat {
    if code in codes then CodeBytes(code) + 1 else 0
  }

  function CodesBytes(codes: set<Code>): nat {
    1 + (if codes == {} then 1 else 0)
    + CodeShare(codes, ValidationFailed) + CodeShare(codes, CatalogDrift) + CodeShare(codes, ResourceDrift)
    + CodeShare(codes, ObserverUnverified) + CodeShare(codes, PrecisionReduced)
    + CodeShare(codes, ObservationFailed) + CodeShare(codes, CalculationFailed)
  }

  const MOST_CODE_BYTES := 1 + 20 + 16 + 17 + 22 + 20 + 21 + 21

  lemma CodesBytesBound(codes: set<Code>)
    ensures CodesBytes(codes) <= MOST_CODE_BYTES
  {
  }

  function ScopedBytes(sizes: Sizes, target: Target): nat {
    30 + SelectorBytes(sizes, target.selector)
  }

  function TargetsBytes(sizes: Sizes, targets: seq<Target>): nat {
    if targets == [] then 2
    else TargetsBytes(sizes, targets[..|targets| - 1]) + ScopedBytes(sizes, targets[|targets| - 1])
         + (if |targets| > 1 then 1 else 0)
  }

  function EndpointBytes(sizes: Sizes, value: EndpointImpact): nat {
    sizes.text(value.endpoint) + 1
    + match value.status
      case Verified => 32 + TargetsBytes(sizes, value.targets)
      case Conservative(codes) => 45 + CodesBytes(codes) + TargetsBytes(sizes, value.targets)
      case Unavailable(codes) => 33 + CodesBytes(codes)
  }

  function EntriesBytes(sizes: Sizes, impact: Impact): nat {
    if impact == [] then 0
    else EntriesBytes(sizes, impact[..|impact| - 1]) + EndpointBytes(sizes, impact[|impact| - 1])
         + (if |impact| > 1 then 1 else 0)
  }

  function ImpactBytes(sizes: Sizes, impact: Impact): nat {
    16 + EntriesBytes(sizes, impact)
  }

  /** What one endpoint costs when fully widened with every code: the budget a manifest is validated against. */
  function BroadEndpointBytes(sizes: Sizes, endpoint: string): nat {
    sizes.text(endpoint) + 1 + 45 + MOST_CODE_BYTES + 91
  }

  function BroadBytes(sizes: Sizes, endpoints: seq<string>): nat {
    if endpoints == [] then 0
    else BroadBytes(sizes, endpoints[..|endpoints| - 1]) + BroadEndpointBytes(sizes, endpoints[|endpoints| - 1])
         + (if |endpoints| > 1 then 1 else 0)
  }

  function Endpoints(impact: Impact): seq<string> {
    seq(|impact|, i requires 0 <= i < |impact| => impact[i].endpoint)
  }

  /** `validateImpactManifest`: even full widening must fit the output budget. */
  predicate FitsBroad(sizes: Sizes, endpoints: seq<string>) {
    16 + BroadBytes(sizes, endpoints) <= IMPACT_BYTES
  }

  // ---------------------------------------------------------------- bounding

  /** One target per scope. */
  ghost predicate WellShaped(impact: Impact) {
    forall i :: 0 <= i < |impact| ==> |impact[i].targets| <= 2
  }

  function InputTargets(targets: seq<Target>): nat {
    if targets == [] then 0
    else InputTargets(targets[..|targets| - 1]) + (if targets[|targets| - 1].selector.Inputs? then 1 else 0)
  }

  function Detail(impact: Impact): nat {
    if impact == [] then 0 else Detail(impact[..|impact| - 1]) + InputTargets(impact[|impact| - 1].targets)
  }

  lemma {:induction false} NoDetailIsBroad(sizes: Sizes, impact: Impact)
    requires WellShaped(impact)
    requires forall i, j :: 0 <= i < |impact| && 0 <= j < |impact[i].targets| ==> impact[i].targets[j].selector.All?
    ensures EntriesBytes(sizes, impact) <= BroadBytes(sizes, Endpoints(impact))
  {
    if impact != [] {
      var last := impact[|impact| - 1];
      NoDetailIsBroad(sizes, impact[..|impact| - 1]);
      assert Endpoints(impact)[..|impact| - 1] == Endpoints(impact[..|impact| - 1]);
      BroadTargets(sizes, last.targets);
      CodesBytesBound(Codes(last.status));
    }
  }

  lemma BroadTargets(sizes: Sizes, targets: seq<Target>)
    requires |targets| <= 2 && forall j :: 0 <= j < |targets| ==> targets[j].selector.All?
    ensures TargetsBytes(sizes, targets) <= 91
  {
    if |targets| == 2 {
      BroadTargets(sizes, targets[..1]);
      assert targets[..1][..0] == [];
      assert targets[..1] == [targets[0]];
      assert TargetsBytes(sizes, targets[..1]) == 46;
    } else if |targets| == 1 {
      assert targets[..0] == [];
    }
  }

  function Widen(impact: Impact, i: nat, j: nat): Impact
    requires i < |impact| && j < |impact[i].targets|
  {
    var value := impact[i];
    impact[i := EndpointImpact(
                  value.endpoint,
                  Conservative(Codes(value.status) + {PrecisionReduced}),
                  value.targets[j := value.targets[j].(selector := All)])]
  }

  lemma {:induction false} WidenDropsTarget(targets: seq<Target>, j: nat)
    requires j < |targets| && targets[j].selector.Inputs?
    ensures InputTargets(targets[j := targets[j].(selector := All)]) == InputTargets(targets) - 1
  {
    var widened := targets[j := targets[j].(selector := All)];
    var last := |targets| - 1;
    if j == last {
      assert widened[..last] == targets[..last];
    } else {
      assert widened[..last] == targets[..last][j := targets[j].(selector := All)];
      WidenDropsTarget(targets[..last], j);
    }
  }

  lemma {:induction false} WidenDrops(impact: Impact, i: nat, j: nat)
    requires i < |impact| && j < |impact[i].targets| && impact[i].targets[j].selector.Inputs?
    ensures Detail(Widen(impact, i, j)) == Detail(impact) - 1
  {
    var last := |impact| - 1;
    if i == last {
      assert Widen(impact, i, j)[..last] == impact[..last];
      WidenDropsTarget(impact[i].targets, j);
    } else {
      assert Widen(impact, i, j)[..last] == Widen(impact[..last], i, j);
      WidenDrops(impact[..last], i, j);
    }
  }

  ghost predicate TargetWidened(before: Target, after: Target) {
    after == before || (before.selector.Inputs? && after == before.(selector := All))
  }

  /** An endpoint is left alone, or some of its selectors became `all` and it now says so. */
  ghost predicate EndpointWidened(before: EndpointImpact, after: EndpointImpact) {
    && after.endpoint == before.endpoint
    && |after.targets| == |before.targets|
    && (forall j :: 0 <= j < |before.targets| ==> TargetWidened(before.targets[j], after.targets[j]))
    && (after.targets == before.targets ==> after == before)
    && (after.targets != before.targets ==> after.status == Conservative(Codes(before.status) + {PrecisionReduced}))
  }

  ghost predicate ImpactWidened(before: Impact, after: Impact) {
    |after| == |before| && forall i :: 0 <= i < |before| ==> EndpointWidened(before[i], after[i])
  }

  lemma WidenStep(before: Impact, middle: Impact, i: nat, j: nat)
    requires ImpactWidened(before, middle) && WellShaped(middle)
    requires i < |middle| && j < |middle[i].targets| && middle[i].targets[j].selector.Inputs?
    ensures ImpactWidened(before, Widen(middle, i, j)) && WellShaped(Widen(middle, i, j))
    ensures Endpoints(Widen(middle, i, j)) == Endpoints(middle)
  {
    var after := Widen(middle, i, j);
    assert TargetWidened(before[i].targets[j], middle[i].targets[j]);
    assert after[i].targets[j] != before[i].targets[j];
    assert Codes(before[i].status) + {PrecisionReduced} + {PrecisionReduced} == Codes(before[i].status) + {PrecisionReduced};
  }

  /** The order of widening: larger targets first, and of equal ones the earlier. */
  predicate GoesFirst(sizes: Sizes, left: Target, i: nat, j: nat, right: Target, k: nat, l: nat) {
    || ScopedBytes(sizes, left) > ScopedBytes(sizes, right)
    || (ScopedBytes(sizes, left) == ScopedBytes(sizes, right) && (i < k || (i == k && j <= l)))
  }

  method LargestIn(sizes: Sizes, targets: seq<Target>, i: nat) returns (found: Option<nat>)
    ensures found.None? <==> forall j :: 0 <= j < |targets| ==> targets[j].selector.All?
    ensures found.Some? ==>
      && found.value < |targets| && targets[found.value].selector.Inputs?
      && forall j :: 0 <= j < |targets| && targets[j].selector.Inputs? ==>
           GoesFirst(sizes, targets[found.value], i, found.value, targets[j], i, j)
  {
    found := None;
    for j := 0 to |targets|
      invariant found.None? <==> forall k :: 0 <= k < j ==> targets[k].selector.All?
      invariant found.Some? ==>
        && found.value < j && targets[found.value].selector.Inputs?
        && forall k :: 0 <= k < j && targets[k].selector.Inputs? ==>
             GoesFirst(sizes, targets[found.value], i, found.value, targets[k], i, k)
    {
      hide ScopedBytes;
      if targets[j].selector.Inputs?
         && (found.None? || ScopedBytes(sizes, targets[j]) > ScopedBytes(sizes, targets[found.value])) {
        found := Some(j);
      }
    }
  }

  /** The largest target that still lists inputs, the earliest of equals; none when all are `all`. */
  method FindLargest(sizes: Sizes, impact: Impact) returns (found: Option<(nat, nat)>)
    ensures found.None? <==>
      forall i, j :: 0 <= i < |impact| && 0 <= j < |impact[i].targets| ==> impact[i].targets[j].selector.All?
    ensures found.Some? ==>
      && found.value.0 < |impact| && found.value.1 < |impact[found.value.0].targets|
      && impact[found.value.0].targets[found.value.1].selector.Inputs?
      && IsFirst(sizes, impact, impact[found.value.0].targets[found.value.1], found.value.0, found.value.1)
  {
    found := None;
    for i := 0 to |impact|
      invariant found.None? <==>
        forall k, j :: 0 <= k < i && 0 <= j < |impact[k].targets| ==> impact[k].targets[j].selector.All?
      invariant found.Some? ==>
        && found.value.0 < i && found.value.1 < |impact[found.value.0].targets|
        && impact[found.value.0].targets[found.value.1].selector.Inputs?
        && IsFirst(sizes, impact[..i], impact[found.value.0].targets[found.value.1], found.value.0, found.value.1)
    {
      hide ScopedBytes;
      var local := LargestIn(sizes, impact[i].targets, i);
      if local.Some?
         && (found.None?
             || ScopedBytes(sizes, impact[i].targets[local.value])
                > ScopedBytes(sizes, impact[found.value.0].targets[found.value.1])) {
        found := Some((i, local.value));
      }
    }
    assert impact[..|impact|] == impact;
  }

  /** No target that still lists inputs goes before this one. */
  ghost predicate IsFirst(sizes: Sizes, impact: Impact, target: Target, i: nat, j: nat) {
    forall k, l :: 0 <= k < |impact| && 0 <= l < |impact[k].targets| && impact[k].targets[l].selector.Inputs? ==>
      GoesFirst(sizes, target, i, j, impact[k].targets[l], k, l)
  }

  /** Widening on the way from `before`: what was widened goes before what is still listed. */
  ghost predicate Stage(sizes: Sizes, before: Impact, after: Impact) {
    && ImpactWidened(before, after)
    && forall i, j, k, l ::
      && 0 <= i < |before| && 0 <= j < |before[i].targets| && after[i].targets[j] != before[i].targets[j]
      && 0 <= k < |before| && 0 <= l < |before[k].targets| && after[k].targets[l].selector.Inputs? ==>
        GoesFirst(sizes, before[i].targets[j], i, j, after[k].targets[l], k, l)
  }

  /** What the byte budget makes of an impact: the first stage that fits. */
  ghost predicate BoundsTo(sizes: Sizes, impact: Impact, bounded: Impact) {
    && ImpactBytes(sizes, bounded) <= IMPACT_BYTES
    && Stage(sizes, impact, bounded) && EarlierIsOver(sizes, impact, bounded)
  }

  ghost predicate EarlierIsOver(sizes: Sizes, impact: Impact, bounded: Impact) {
    forall earlier :: Stage(sizes, impact, earlier) && Stage(sizes, earlier, bounded) && earlier != bounded ==>
      ImpactBytes(sizes, earlier) > IMPACT_BYTES
  }

  /**
   `boundImpact`: always ends, always within the budget. MANIFEST_TARGET_BUDGET is unreachable for a
   manifest that passed validation.
   */
  method BoundImpact(sizes: Sizes, impact: Impact) returns (bounded: Impact)
    requires WellShaped(impact) && FitsBroad(sizes, Endpoints(impact))
    ensures BoundsTo(sizes, impact, bounded)
  {
    bounded := impact;
    StageItself(sizes, impact);
    while ImpactBytes(sizes, bounded) > IMPACT_BYTES
      invariant WellShaped(bounded) && Endpoints(bounded) == Endpoints(impact)
      invariant Stage(sizes, impact, bounded) && EarlierIsOver(sizes, impact, bounded)
      decreases Detail(bounded)
    {
      hide Stage, EarlierIsOver, ImpactBytes, IsFirst, GoesFirst;
      var found := FindLargest(sizes, bounded);
      if found.None? {
        NoDetailIsBroad(sizes, bounded);
        assert false;
      } else {
        WidenDrops(bounded, found.value.0, found.value.1);
        NextStage(sizes, impact, bounded, found.value.0, found.value.1);
        bounded := Widen(bounded, found.value.0, found.value.1);
      }
    }
  }

  lemma StageItself(sizes: Sizes, impact: Impact)
    ensures Stage(sizes, impact, impact) && EarlierIsOver(sizes, impact, impact)
  {
    hide GoesFirst, ImpactBytes;
    forall earlier | ImpactWidened(impact, earlier) && ImpactWidened(earlier, impact) ensures earlier == impact {
      NothingBetween(impact, earlier);
    }
  }

  lemma NothingBetween(impact: Impact, earlier: Impact)
    requires ImpactWidened(impact, earlier) && ImpactWidened(earlier, impact)
    ensures earlier == impact
  {
    forall i | 0 <= i < |impact| ensures earlier[i] == impact[i] {
      assert EndpointWidened(impact[i], earlier[i]) && EndpointWidened(earlier[i], impact[i]);
      forall j | 0 <= j < |impact[i].targets| ensures earlier[i].targets[j] == impact[i].targets[j] {
        assert TargetWidened(impact[i].targets[j], earlier[i].targets[j]);
        assert TargetWidened(earlier[i].targets[j], impact[i].targets[j]);
      }
      assert earlier[i].targets == impact[i].targets;
    }
  }

  lemma NextStage(sizes: Sizes, before: Impact, middle: Impact, i: nat, j: nat)
    requires Stage(sizes, before, middle) && EarlierIsOver(sizes, before, middle) && WellShaped(middle)
    requires ImpactBytes(sizes, middle) > IMPACT_BYTES
    requires i < |middle| && j < |middle[i].targets| && middle[i].targets[j].selector.Inputs?
    requires IsFirst(sizes, middle, middle[i].targets[j], i, j)
    ensures var after := Widen(middle, i, j);
      && Stage(sizes, before, after) && EarlierIsOver(sizes, before, after)
      && WellShaped(after) && Endpoints(after) == Endpoints(middle)
  {
    hide GoesFirst, ImpactBytes;
    var after := Widen(middle, i, j);
    WidenStep(before, middle, i, j);
    assert before[i].targets[j] == middle[i].targets[j];
    forall earlier | Stage(sizes, before, earlier) && Stage(sizes, earlier, after) && earlier != after
      ensures ImpactBytes(sizes, earlier) > IMPACT_BYTES
    {
      StagesAreOrdered(sizes, before, earlier, middle);
      if !Stage(sizes, earlier, middle) {
        BetweenSteps(middle, earlier, i, j);
      }
    }
  }

  lemma BetweenSteps(middle: Impact, earlier: Impact, i: nat, j: nat)
    requires i < |middle| && j < |middle[i].targets| && middle[i].targets[j].selector.Inputs?
    requires ImpactWidened(middle, earlier) && ImpactWidened(earlier, Widen(middle, i, j))
    ensures earlier == middle || earlier == Widen(middle, i, j)
  {
    var after := Widen(middle, i, j);
    forall k, l | 0 <= k < |middle| && 0 <= l < |middle[k].targets| && (k != i || l != j)
      ensures earlier[k].targets[l] == middle[k].targets[l]
    {
      assert TargetWidened(middle[k].targets[l], earlier[k].targets[l]) && TargetWidened(earlier[k].targets[l], after[k].targets[l]);
    }
    assert TargetWidened(middle[i].targets[j], earlier[i].targets[j]);
    var same := if earlier[i].targets[j] == middle[i].targets[j] then middle else after;
    forall k | 0 <= k < |middle| ensures earlier[k] == same[k] {
      assert earlier[k].targets == same[k].targets;
      assert EndpointWidened(middle[k], earlier[k]) && EndpointWidened(earlier[k], after[k]);
    }
  }

  predicate Changed(before: Impact, after: Impact, i: nat, j: nat) {
    && i < |before| && i < |after| && j < |before[i].targets| && j < |after[i].targets|
    && after[i].targets[j] != before[i].targets[j]
  }

  /** Of two ways to widen, the one that widens less comes first. */
  lemma StageWithin(sizes: Sizes, before: Impact, less: Impact, more: Impact)
    requires Stage(sizes, before, less) && Stage(sizes, before, more)
    requires forall i: nat, j: nat :: Changed(before, less, i, j) ==> Changed(before, more, i, j)
    ensures Stage(sizes, less, more)
  {
    hide GoesFirst;
    forall i | 0 <= i < |before| ensures EndpointWidened(less[i], more[i]) {
      forall j | 0 <= j < |before[i].targets| && less[i].targets[j] != before[i].targets[j]
        ensures more[i].targets[j] != before[i].targets[j]
      {
        assert Changed(before, less, i, j);
      }
      WidenedWithin(before[i], less[i], more[i]);
    }
  }

  lemma WidenedWithin(before: EndpointImpact, less: EndpointImpact, more: EndpointImpact)
    requires EndpointWidened(before, less) && EndpointWidened(before, more)
    requires forall j :: 0 <= j < |before.targets| && less.targets[j] != before.targets[j] ==> more.targets[j] != before.targets[j]
    ensures EndpointWidened(less, more)
  {
    assert Codes(before.status) + {PrecisionReduced} + {PrecisionReduced} == Codes(before.status) + {PrecisionReduced};
    forall j | 0 <= j < |before.targets| ensures TargetWidened(less.targets[j], more.targets[j]) {
      assert TargetWidened(before.targets[j], less.targets[j]) && TargetWidened(before.targets[j], more.targets[j]);
    }
    if more.targets == less.targets && more.targets == before.targets {
      assert less == more;
    }
  }

  /** The order is total, so the stages of an impact are too. */
  lemma StagesAreOrdered(sizes: Sizes, before: Impact, left: Impact, right: Impact)
    requires Stage(sizes, before, left) && Stage(sizes, before, right)
    ensures Stage(sizes, left, right) || Stage(sizes, right, left)
  {
    if i: nat, j: nat :| Changed(before, left, i, j) && !Changed(before, right, i, j) {
      assert EndpointWidened(before[i], right[i]) && TargetWidened(before[i].targets[j], left[i].targets[j]);
      forall k: nat, l: nat | Changed(before, right, k, l) ensures Changed(before, left, k, l) {
        assert EndpointWidened(before[k], left[k]);
        assert TargetWidened(before[k].targets[l], left[k].targets[l]) && TargetWidened(before[k].targets[l], right[k].targets[l]);
      }
      StageWithin(sizes, before, right, left);
    } else {
      StageWithin(sizes, before, left, right);
    }
  }

  /** An impact that fits is what it is bounded to, and nothing else. */
  lemma FittingStays(sizes: Sizes, impact: Impact)
    ensures ImpactBytes(sizes, impact) <= IMPACT_BYTES ==>
      forall bounded :: BoundsTo(sizes, impact, bounded) <==> bounded == impact
  {
    StageItself(sizes, impact);
    hide Stage, ImpactBytes;
  }

  /** The budget leaves no choice: an impact has one bounded form. */
  lemma BoundsToIsUnique(sizes: Sizes, impact: Impact, left: Impact, right: Impact)
    requires BoundsTo(sizes, impact, left) && BoundsTo(sizes, impact, right)
    ensures left == right
  {
    StagesAreOrdered(sizes, impact, left, right);
    hide Stage, ImpactBytes;
  }
}
