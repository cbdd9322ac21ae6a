/**
 The alternatives of one impact target. `Absorb` is the simple form: a set of records kept minimal
 under subsumption. `Contribute` is the incremental form the calculator runs, with field-count
 bounds that skip comparisons and a byte count kept up to date by differences.
 */
module Antichain {
  import opened Contracts
  import opened WriteSets

  // -------------------------------------------------------------- simple form

  datatype Coverage = Everything | Listed(values: set<Record>)

  ghost predicate Covered(values: set<Record>, input: Record) {
    exists value :: value in values && Subsumes(value, input)
  }

  /** The constraints shared by every record of a non-empty set. */
  ghost function Shared(values: set<Record>): Record
    requires values != {}
  {
    var some :| some in values;
    map name | name in some && SharedBy(values, name, some[name]) :: some[name]
  }

  ghost predicate SharedBy(values: set<Record>, name: string, scalar: Scalar) {
    forall value :: value in values ==> name in value && value[name] == scalar
  }

  ghost function Collapse(values: set<Record>): Coverage
    requires values != {}
  {
    var shared := Shared(values);
    if shared == map[] then Everything else Listed({shared})
  }

  ghost function Thin(values: set<Record>, input: Record): set<Record> {
    set value | value in values && !Subsumes(input, value)
  }

  ghost function Absorb(coverage: Coverage, input: Record): Coverage {
    match coverage
    case Everything => Everything
    case Listed(values) =>
      if input == map[] then Everything
      else if Covered(values, input) then coverage
      else
        var grown := Thin(values, input) + {input};
        if |grown| > SELECTOR_LIMIT then Collapse(grown) else Listed(grown)
  }

  /** Whether this contribution is the one that exceeds the selector limit. */
  ghost predicate Overflows(coverage: Coverage, input: Record) {
    && coverage.Listed? && input != map[] && !Covered(coverage.values, input)
    && |Thin(coverage.values, input) + {input}| > SELECTOR_LIMIT
  }

  ghost function AbsorbAll(inputs: seq<Record>): Coverage {
    if inputs == [] then Listed({})
    else Absorb(AbsorbAll(inputs[..|inputs| - 1]), inputs[|inputs| - 1])
  }

  ghost predicate EverOverflows(inputs: seq<Record>) {
    inputs != [] && (EverOverflows(inputs[..|inputs| - 1])
                     || Overflows(AbsorbAll(inputs[..|inputs| - 1]), inputs[|inputs| - 1]))
  }

  ghost predicate IsAntichain(values: set<Record>) {
    && |values| <= SELECTOR_LIMIT
    && map[] !in values
    && forall a, b :: a in values && b in values && Subsumes(a, b) ==> a == b
  }

  lemma SharedSubsumes(values: set<Record>)
    requires values != {}
    ensures forall value :: value in values ==> Subsumes(Shared(values), value)
  {
  }

  /** `Shared` is the greatest record below all of them, so any way of computing one agrees with it. */
  lemma SharedIsGreatest(values: set<Record>, record: Record)
    requires values != {}
    requires forall value :: value in values ==> Subsumes(record, value)
    ensures Subsumes(record, Shared(values))
  {
    forall name | name in record
      ensures name in Shared(values) && Shared(values)[name] == record[name]
    {
      assert SharedBy(values, name, record[name]);
    }
  }

  /**
   Past the limit only what every alternative has in common is kept: everything is selected if they share nothing, and
   otherwise the one record of their shared constraints.
   */
  lemma OverflowKeepsShared(coverage: Coverage, input: Record)
    requires Overflows(coverage, input)
    ensures var grown := Thin(coverage.values, input) + {input}; var after := Absorb(coverage, input);
      && (after.Everything? <==> forall name, scalar :: !SharedBy(grown, name, scalar))
      && (after.Listed? ==> exists record ::
            && after.values == {record} && record != map[]
            && forall name, scalar :: (name in record && record[name] == scalar) <==> SharedBy(grown, name, scalar))
  {
    var grown := Thin(coverage.values, input) + {input};
    var shared := Shared(grown);
    forall name, scalar ensures (name in shared && shared[name] == scalar) <==> SharedBy(grown, name, scalar) {
      if SharedBy(grown, name, scalar) {
        assert input in grown;
      }
    }
    if shared != map[] {
      var name :| name in shared;
      assert SharedBy(grown, name, shared[name]);
    }
  }

  lemma AbsorbKeepsAntichain(coverage: Coverage, input: Record)
    requires coverage.Listed? ==> IsAntichain(coverage.values)
    ensures Absorb(coverage, input).Listed? ==> IsAntichain(Absorb(coverage, input).values)
  {
    if coverage.Listed? && input != map[] && !Covered(coverage.values, input) {
      var grown := Thin(coverage.values, input) + {input};
      forall a, b | a in grown && b in grown && Subsumes(a, b)
        ensures a == b
      {
      }
    }
  }

  /** What was covered stays covered, and the new input is covered from now on. */
  lemma AbsorbCovers(coverage: Coverage, input: Record, covered: Record)
    requires covered == input || coverage.Everything? || Covered(coverage.values, covered)
    ensures Absorb(coverage, input).Everything? || Covered(Absorb(coverage, input).values, covered)
  {
    if coverage.Listed? && input != map[] && !Covered(coverage.values, input) {
      var grown := Thin(coverage.values, input) + {input};
      assert Covered(grown, covered) by {
        if covered == input {
          assert input in grown && Subsumes(input, covered);
        } else {
          var value :| value in coverage.values && Subsumes(value, covered);
          if Subsumes(input, value) {
            SubsumesTransitive(input, value, covered);
            assert input in grown;
          } else {
            assert value in grown;
          }
        }
      }
      if |grown| > SELECTOR_LIMIT && Shared(grown) != map[] {
        var value :| value in grown && Subsumes(value, covered);
        SharedSubsumes(grown);
        SubsumesTransitive(Shared(grown), value, covered);
        assert Shared(grown) in Collapse(grown).values;
      }
    }
  }

  /** Every run keeps an antichain of at most 100 non-empty records, and covers every contribution. */
  lemma {:induction false} AbsorbAllSound(inputs: seq<Record>, i: nat)
    requires i < |inputs|
    ensures AbsorbAll(inputs).Listed? ==> IsAntichain(AbsorbAll(inputs).values)
    ensures AbsorbAll(inputs).Everything? || Covered(AbsorbAll(inputs).values, inputs[i])
  {
    var last := |inputs| - 1;
    var previous := AbsorbAll(inputs[..last]);
    if last > 0 {
      AbsorbAllSound(inputs[..last], if i < last then i else 0);
    }
    AbsorbKeepsAntichain(previous, inputs[last]);
    AbsorbCovers(previous, inputs[last], inputs[i]);
  }

  /** The contributions no other contribution strictly subsumes. */
  ghost function Minimal(inputs: seq<Record>): set<Record> {
    set input | input in inputs && forall other :: other in inputs && Subsumes(other, input) ==> other == input
  }

  lemma SubsumesAntisymmetric(a: Record, b: Record)
    requires Subsumes(a, b) && Subsumes(b, a)
    ensures a == b
  {
    SubsumesSize(a, b);
    SubsumesSize(b, a);
  }

  /**
   While the selector limit is never hit, the alternatives are exactly the minimal contributions:
   the outcome does not depend on the order of the writes.
   */
  lemma {:induction false} AbsorbAllIsMinimal(inputs: seq<Record>)
    requires !EverOverflows(inputs)
    ensures AbsorbAll(inputs) == if map[] in inputs then Everything else Listed(Minimal(inputs))
  {
    if inputs == [] {
      assert Minimal(inputs) == {};
    } else {
      var earlier := inputs[..|inputs| - 1];
      var input := inputs[|inputs| - 1];
      assert inputs == earlier + [input];
      AbsorbAllIsMinimal(earlier);
      if map[] !in earlier && input != map[] {
        MinimalStep(earlier, input);
      }
    }
  }

  lemma MinimalStep(earlier: seq<Record>, input: Record)
    ensures Covered(Minimal(earlier), input) ==> Minimal(earlier + [input]) == Minimal(earlier)
    ensures !Covered(Minimal(earlier), input) ==>
      Minimal(earlier + [input]) == Thin(Minimal(earlier), input) + {input}
  {
    var all := earlier + [input];
    assert forall r :: r in all <==> r in earlier || r == input;
    if Covered(Minimal(earlier), input) {
      var low :| low in Minimal(earlier) && Subsumes(low, input);
      forall r | r in Minimal(earlier) ensures r in Minimal(all) {
        if Subsumes(input, r) {
          SubsumesTransitive(low, input, r);
        }
      }
      forall r | r in Minimal(all) ensures r in Minimal(earlier) {
        if r == input {
          assert low in all;
        }
      }
    } else {
      forall r | r in earlier && Subsumes(r, input) ensures false {
        BelowIsMinimal(earlier, r);
        var low :| low in Minimal(earlier) && Subsumes(low, r);
        SubsumesTransitive(low, r, input);
      }
      forall r | r in Thin(Minimal(earlier), input) ensures r in Minimal(all) {
      }
    }
  }

  /** Below every contribution there is a minimal one. */
  lemma BelowIsMinimal(inputs: seq<Record>, input: Record)
    requires input in inputs
    ensures Covered(Minimal(inputs), input)
    decreases |input|
  {
    if input in Minimal(inputs) {
      assert Subsumes(input, input);
    } else {
      var other :| other in inputs && Subsumes(other, input) && other != input;
      SubsumesSize(other, input);
      BelowIsMinimal(inputs, other);
      var low :| low in Minimal(inputs) && Subsumes(low, other);
      SubsumesTransitive(low, other, input);
    }
  }

  /** Two orders of the same contributions end in the same selector, if neither hits the limit. */
  lemma OrderDoesNotMatter(left: seq<Record>, right: seq<Record>)
    requires forall input :: input in left <==> input in right
    requires !EverOverflows(left) && !EverOverflows(right)
    ensures AbsorbAll(left) == AbsorbAll(right)
  {
    AbsorbAllIsMinimal(left);
    AbsorbAllIsMinimal(right);
    assert Minimal(left) == Minimal(right);
  }

  // --------------------------------------------------------- incremental form

  datatype TargetScope = Caller | Global

  datatype Alternative = Alternative(value: Record, fields: nat, bytes: nat)

  /** `minFields` and `maxFields` start at plus and minus infinity: None. */
  datatype TargetEntry = TargetEntry(
    selector: Selector, alternatives: seq<Alternative>, bytes: int, minFields: Option<nat>, maxFields: Option<nat>)

  function Values(alternatives: seq<Alternative>): (values: seq<Record>)
    ensures |values| == |alternatives|
    ensures forall i :: 0 <= i < |values| ==> values[i] == alternatives[i].value
  {
    seq(|alternatives|, i requires 0 <= i < |alternatives| => alternatives[i].value)
  }

  function RecordBytes(sizes: Sizes, values: seq<Record>): nat {
    if values == [] then 0 else RecordBytes(sizes, values[..|values| - 1]) + sizes.record(values[|values| - 1])
  }

  function Commas(count: nat): nat {
    if count == 0 then 0 else count - 1
  }

  function SelectorBytes(sizes: Sizes, selector: Selector): nat {
    match selector
    case All => 14
    case Inputs(values) => 29 + RecordBytes(sizes, values) + Commas(|values|)
  }

  /** Encoded size of `{ endpoint, scope, selector }`. */
  function TargetBytes(sizes: Sizes, endpoint: string, selector: Selector): nat {
    42 + sizes.text(endpoint) + SelectorBytes(sizes, selector)
  }

  ghost function CoverageOf(entry: Option<TargetEntry>): Coverage {
    match entry
    case None => Listed({})
    case Some(TargetEntry(All, _, _, _, _)) => Everything
    case Some(TargetEntry(Inputs(values), _, _, _, _)) => Listed(set value | value in values)
  }

  ghost predicate ValidAlternatives(sizes: Sizes, alternatives: seq<Alternative>) {
    && (forall i :: 0 <= i < |alternatives| ==>
          && alternatives[i].fields == |alternatives[i].value|
          && alternatives[i].bytes == sizes.record(alternatives[i].value))
    && (forall i, j :: 0 <= i < j < |alternatives| ==> alternatives[i].value != alternatives[j].value)
  }

  ghost predicate Bounded(alternatives: seq<Alternative>, least: nat, most: nat) {
    forall i :: 0 <= i < |alternatives| ==> least <= alternatives[i].fields <= most
  }

  ghost predicate ValidTarget(sizes: Sizes, endpoint: string, entry: TargetEntry) {
    && entry.bytes == TargetBytes(sizes, endpoint, entry.selector)
    && (entry.selector.Inputs? ==>
          && entry.selector.values == Values(entry.alternatives)
          && 1 <= |entry.alternatives| <= SELECTOR_LIMIT
          && ValidAlternatives(sizes, entry.alternatives)
          && entry.minFields.Some? && entry.maxFields.Some?
          && Bounded(entry.alternatives, entry.minFields.value, entry.maxFields.value))
  }

  ghost predicate CoveredBy(alternatives: seq<Alternative>, input: Record) {
    exists i :: 0 <= i < |alternatives| && Subsumes(alternatives[i].value, input)
  }

  ghost function ValueSet(alternatives: seq<Alternative>): set<Record> {
    set value | value in Values(alternatives)
  }

  lemma ValueSetPush(alternatives: seq<Alternative>, last: Alternative)
    ensures ValueSet(alternatives + [last]) == ValueSet(alternatives) + {last.value}
  {
    assert Values(alternatives + [last]) == Values(alternatives) + [last.value];
  }

  method Has(alternatives: seq<Alternative>, input: Record) returns (found: bool)
    ensures found <==> exists i :: 0 <= i < |alternatives| && alternatives[i].value == input
  {
    for i := 0 to |alternatives|
      invariant forall k :: 0 <= k < i ==> alternatives[k].value != input
    {
      if alternatives[i].value == input {
        return true;
      }
    }
    return false;
  }

  /** Only strictly smaller alternatives need comparing, and none does when the smallest is not smaller. */
  method IsCovered(sizes: Sizes, alternatives: seq<Alternative>, least: nat, most: nat, input: Record)
    returns (covered: bool)
    requires ValidAlternatives(sizes, alternatives) && Bounded(alternatives, least, most)
    ensures covered <==> CoveredBy(alternatives, input)
  {
    covered := Has(alternatives, input);
    if covered {
      var i :| 0 <= i < |alternatives| && alternatives[i].value == input;
      assert Subsumes(alternatives[i].value, input);
    } else if least < |input| {
      for i := 0 to |alternatives|
        invariant forall k :: 0 <= k < i ==> !Subsumes(alternatives[k].value, input)
      {
        if Subsumes(alternatives[i].value, input) {
          SubsumesSize(alternatives[i].value, input);
          return true;
        }
      }
    } else {
      forall k | 0 <= k < |alternatives| && Subsumes(alternatives[k].value, input) ensures false {
        SubsumesSize(alternatives[k].value, input);
      }
    }
  }

  /** The alternatives a new, smaller one leaves standing, in their order. */
  ghost function Surviving(alternatives: seq<Alternative>, input: Record): seq<Alternative> {
    if alternatives == [] then []
    else
      var last := alternatives[|alternatives| - 1];
      Surviving(alternatives[..|alternatives| - 1], input) + (if Subsumes(input, last.value) then [] else [last])
  }

  method RemoveSubsumed(sizes: Sizes, alternatives: seq<Alternative>, input: Record)
    returns (kept: seq<Alternative>, freed: nat)
    requires ValidAlternatives(sizes, alternatives) && !CoveredBy(alternatives, input)
    ensures kept == Surviving(alternatives, input)
    ensures RecordBytes(sizes, Values(kept)) + freed == RecordBytes(sizes, Values(alternatives))
  {
    kept, freed := [], 0;
    assert alternatives[..0] == [];
    hide RecordBytes, Values;
    for i := 0 to |alternatives|
      invariant kept == Surviving(alternatives[..i], input)
      invariant RecordBytes(sizes, Values(kept)) + freed == RecordBytes(sizes, Values(alternatives[..i]))
    {
      var alternative := alternatives[i];
      assert alternatives[..i + 1][..i] == alternatives[..i];
      RecordBytesPush(sizes, alternatives[..i], alternative);
      assert alternatives[..i + 1] == alternatives[..i] + [alternative];
      if Subsumes(input, alternative.value) {
        SubsumesSize(input, alternative.value);
        assert Subsumes(alternative.value, alternative.value);
      }
      if |input| < alternative.fields && Subsumes(input, alternative.value) {
        freed := freed + alternative.bytes;
      } else {
        RecordBytesPush(sizes, kept, alternative);
        kept := kept + [alternative];
      }
    }
    assert alternatives[..|alternatives|] == alternatives;
  }

  lemma RecordBytesPush(sizes: Sizes, alternatives: seq<Alternative>, last: Alternative)
    ensures Values(alternatives + [last]) == Values(alternatives) + [last.value]
    ensures RecordBytes(sizes, Values(alternatives + [last])) ==
      RecordBytes(sizes, Values(alternatives)) + sizes.record(last.value)
  {
    var all := Values(alternatives + [last]);
    assert all == Values(alternatives) + [last.value];
    assert all[..|all| - 1] == Values(alternatives);
  }

  lemma {:induction false} SurvivingThins(alternatives: seq<Alternative>, input: Record)
    ensures ValueSet(Surviving(alternatives, input)) == Thin(ValueSet(alternatives), input)
    ensures |Surviving(alternatives, input)| <= |alternatives|
  {
    if alternatives != [] {
      var earlier := alternatives[..|alternatives| - 1];
      var last := alternatives[|alternatives| - 1];
      assert alternatives == earlier + [last];
      SurvivingThins(earlier, input);
      ValueSetPush(earlier, last);
      ValueSetPush(Surviving(earlier, input), last);
      assert Surviving(earlier, input) + [] == Surviving(earlier, input);
    }
  }

  lemma {:induction false} SurvivingValid(
      sizes: Sizes, alternatives: seq<Alternative>, input: Record, least: nat, most: nat)
    requires ValidAlternatives(sizes, alternatives) && Bounded(alternatives, least, most)
    ensures ValidAlternatives(sizes, Surviving(alternatives, input))
    ensures Bounded(Surviving(alternatives, input), least, most)
    ensures forall alternative :: alternative in Surviving(alternatives, input) ==> alternative in alternatives
  {
    if alternatives != [] {
      var earlier := alternatives[..|alternatives| - 1];
      var last := alternatives[|alternatives| - 1];
      assert alternatives == earlier + [last];
      SurvivingValid(sizes, earlier, input, least, most);
      var kept := Surviving(earlier, input);
      forall i | 0 <= i < |kept| ensures kept[i].value != last.value {
        assert kept[i] in earlier;
      }
    }
  }

  function SharedValues(values: seq<Record>): Record
    requires values != []
  {
    map name | name in values[0] && (forall i :: 0 <= i < |values| ==> name in values[i] && values[i][name] == values[0][name])
      :: values[0][name]
  }

  lemma SharedAgrees(values: seq<Record>)
    requires values != []
    ensures (set value | value in values) != {}
    ensures SharedValues(values) == Shared(set value | value in values)
  {
    var all := set value | value in values;
    assert values[0] in all;
    SharedSubsumes(all);
    var shared := SharedValues(values);
    forall value | value in all ensures Subsumes(shared, value) {
      var i :| 0 <= i < |values| && values[i] == value;
    }
    SharedIsGreatest(all, shared);
    forall name | name in Shared(all) ensures name in shared && shared[name] == Shared(all)[name] {
      forall i | 0 <= i < |values| ensures name in values[i] && values[i][name] == values[0][name] {
        assert values[i] in all;
      }
    }
    SubsumesAntisymmetric(shared, Shared(all));
  }

  lemma {:induction false} ValueSetSize(sizes: Sizes, alternatives: seq<Alternative>)
    requires ValidAlternatives(sizes, alternatives)
    ensures |ValueSet(alternatives)| == |alternatives|
  {
    if alternatives != [] {
      var earlier := alternatives[..|alternatives| - 1];
      var last := alternatives[|alternatives| - 1];
      assert alternatives == earlier + [last];
      ValueSetSize(sizes, earlier);
      ValueSetPush(earlier, last);
      assert last.value !in ValueSet(earlier);
    }
  }

  function Least(bound: Option<nat>, fields: nat): nat {
    if bound.None? || fields < bound.value then fields else bound.value
  }

  function Most(bound: Option<nat>, fields: nat): nat {
    if bound.None? || fields > bound.value then fields else bound.value
  }

  lemma {:induction false} NoneSubsumed(alternatives: seq<Alternative>, input: Record)
    requires forall i :: 0 <= i < |alternatives| ==> !Subsumes(input, alternatives[i].value)
    ensures Surviving(alternatives, input) == alternatives
  {
    if alternatives != [] {
      NoneSubsumed(alternatives[..|alternatives| - 1], input);
    }
  }

  lemma NothingLarger(sizes: Sizes, alternatives: seq<Alternative>, input: Record)
    requires ValidAlternatives(sizes, alternatives) && !CoveredBy(alternatives, input)
    requires forall i :: 0 <= i < |alternatives| ==> alternatives[i].fields <= |input|
    ensures Surviving(alternatives, input) == alternatives
  {
    forall i | 0 <= i < |alternatives| ensures !Subsumes(input, alternatives[i].value) {
      if Subsumes(input, alternatives[i].value) {
        SubsumesSize(input, alternatives[i].value);
      }
    }
    NoneSubsumed(alternatives, input);
  }

  method Survivors(sizes: Sizes, endpoint: string, previous: Option<TargetEntry>, input: Record)
    returns (kept: seq<Alternative>, freed: nat)
    requires previous.Some? ==> ValidTarget(sizes, endpoint, previous.value) && previous.value.selector.Inputs?
    requires !Covered(CoverageOf(previous).values, input)
    ensures previous.None? ==> kept == [] && freed == 0
    ensures previous.Some? ==>
      && kept == Surviving(previous.value.alternatives, input)
      && RecordBytes(sizes, Values(kept)) + freed == RecordBytes(sizes, previous.value.selector.values)
  {
    if previous.None? {
      return [], 0;
    }
    CoverageMeansAlternatives(previous, previous.value.alternatives, input);
    if previous.value.maxFields.value > |input| {
      kept, freed := RemoveSubsumed(sizes, previous.value.alternatives, input);
    } else {
      NothingLarger(sizes, previous.value.alternatives, input);
      kept, freed := previous.value.alternatives, 0;
    }
  }

  lemma GrownValid(sizes: Sizes, kept: seq<Alternative>, added: Alternative)
    requires ValidAlternatives(sizes, kept) && added.value !in ValueSet(kept)
    requires added.fields == |added.value| && added.bytes == sizes.record(added.value)
    ensures ValidAlternatives(sizes, kept + [added])
    ensures |ValueSet(kept + [added])| == |kept + [added]|
  {
    forall i | 0 <= i < |kept| ensures kept[i].value != added.value {
      assert Values(kept)[i] in ValueSet(kept);
    }
    ValueSetSize(sizes, kept + [added]);
  }

  method Extend(sizes: Sizes, endpoint: string, previous: Option<TargetEntry>, input: Record)
    returns (entry: Option<TargetEntry>, limited: bool)
    requires previous.Some? ==> ValidTarget(sizes, endpoint, previous.value) && previous.value.selector.Inputs?
    requires input != map[] && !Covered(CoverageOf(previous).values, input)
    ensures entry.Some? && ValidTarget(sizes, endpoint, entry.value)
    ensures CoverageOf(entry) == Absorb(CoverageOf(previous), input)
    ensures limited <==> Overflows(CoverageOf(previous), input)
  {
    hide ValidTarget, Thin, Covered;
    var kept, freed := Survivors(sizes, endpoint, previous, input);
    var added := Alternative(input, |input|, sizes.record(input));
    KeptAbstracts(sizes, endpoint, previous, input, kept);
    ValueSetPush(kept, added);
    GrownValid(sizes, kept, added);
    limited := |kept + [added]| > SELECTOR_LIMIT;
    if limited {
      entry := Widened(sizes, endpoint, kept + [added]);
    } else {
      entry := Some(Grown(sizes, endpoint, previous, kept, freed, added));
      GrownIsTarget(sizes, endpoint, previous, kept, freed, added);
    }
  }

  lemma GrownBounded(kept: seq<Alternative>, added: Alternative, least: nat, most: nat)
    ensures Bounded(kept, least, most) ==>
      Bounded(kept + [added], Least(Some(least), added.fields), Most(Some(most), added.fields))
  {
  }

  lemma ListsValues(entry: TargetEntry, alternatives: seq<Alternative>)
    ensures entry.selector == Inputs(Values(alternatives)) ==>
      CoverageOf(Some(entry)) == Listed(ValueSet(alternatives))
  {
  }

  lemma SingleBounded(sizes: Sizes, added: Alternative)
    ensures Bounded([] + [added], added.fields, added.fields)
    ensures RecordBytes(sizes, Values([])) == 0
  {
  }

  lemma GrownIsTarget(
      sizes: Sizes, endpoint: string, previous: Option<TargetEntry>, kept: seq<Alternative>, freed: nat, added: Alternative)
    requires previous.Some? ==> ValidTarget(sizes, endpoint, previous.value) && previous.value.selector.Inputs?
    requires previous.None? ==> kept == [] && freed == 0
    requires previous.Some? ==>
      && Bounded(kept, previous.value.minFields.value, previous.value.maxFields.value)
      && RecordBytes(sizes, Values(kept)) + freed == RecordBytes(sizes, previous.value.selector.values)
    requires ValidAlternatives(sizes, kept) && added.value !in ValueSet(kept)
    requires added.fields == |added.value| && added.bytes == sizes.record(added.value)
    requires |kept + [added]| <= SELECTOR_LIMIT
    ensures ValidTarget(sizes, endpoint, Grown(sizes, endpoint, previous, kept, freed, added))
    ensures CoverageOf(Some(Grown(sizes, endpoint, previous, kept, freed, added))) == Listed(ValueSet(kept + [added]))
  {
    hide ValidAlternatives, ValueSet, Bounded, RecordBytes, CoverageOf;
    GrownValid(sizes, kept, added);
    RecordBytesPush(sizes, kept, added);
    if previous.Some? {
      GrownBounded(kept, added, previous.value.minFields.value, previous.value.maxFields.value);
    } else {
      SingleBounded(sizes, added);
    }
    ListsValues(Grown(sizes, endpoint, previous, kept, freed, added), kept + [added]);
  }

  lemma KeptAbstracts(
      sizes: Sizes, endpoint: string, previous: Option<TargetEntry>, input: Record, kept: seq<Alternative>)
    requires previous.Some? ==> ValidTarget(sizes, endpoint, previous.value) && previous.value.selector.Inputs?
    requires kept == if previous.None? then [] else Surviving(previous.value.alternatives, input)
    ensures CoverageOf(previous).Listed?
    ensures ValueSet(kept) == Thin(CoverageOf(previous).values, input) && input !in ValueSet(kept)
    ensures ValidAlternatives(sizes, kept)
    ensures previous.Some? ==> Bounded(kept, previous.value.minFields.value, previous.value.maxFields.value)
  {
    assert Subsumes(input, input);
    if previous.Some? {
      var entry := previous.value;
      CoverageMeansAlternatives(previous, entry.alternatives, input);
      SurvivingThins(entry.alternatives, input);
      SurvivingValid(sizes, entry.alternatives, input, entry.minFields.value, entry.maxFields.value);
    }
  }

  /** The entry within the limit; its size is the old size plus what was added minus what was freed. */
  function Grown(
    sizes: Sizes, endpoint: string, previous: Option<TargetEntry>, kept: seq<Alternative>, freed: nat, added: Alternative)
    : TargetEntry
  {
    var grown := kept + [added];
    var selector := Inputs(Values(grown));
    if previous.None? then
      TargetEntry(selector, grown, TargetBytes(sizes, endpoint, selector), Some(added.fields), Some(added.fields))
    else
      TargetEntry(
        selector, grown,
        previous.value.bytes + added.bytes - freed + Commas(|grown|) - Commas(|previous.value.alternatives|),
        Some(Least(previous.value.minFields, added.fields)), Some(Most(previous.value.maxFields, added.fields)))
  }

  /** Past the limit only the constraints shared by every alternative remain. */
  method Widened(sizes: Sizes, endpoint: string, grown: seq<Alternative>) returns (entry: Option<TargetEntry>)
    requires |grown| > SELECTOR_LIMIT
    ensures entry.Some? && ValidTarget(sizes, endpoint, entry.value)
    ensures ValueSet(grown) != {} && CoverageOf(entry) == Collapse(ValueSet(grown))
  {
    SharedAgrees(Values(grown));
    var common := SharedValues(Values(grown));
    if |common| == 0 {
      entry := Some(TargetEntry(All, [], TargetBytes(sizes, endpoint, All), Some(0), Some(0)));
    } else {
      var only := [Alternative(common, |common|, sizes.record(common))];
      assert Values(only) == [common];
      entry := Some(TargetEntry(
        Inputs(Values(only)), only, TargetBytes(sizes, endpoint, Inputs(Values(only))), Some(|common|), Some(|common|)));
    }
  }

  /**
   One contribution to a target that is not yet `all`. The result abstracts to `Absorb`, and reports
   whether the selector limit was what widened it.
   */
  method Contribute(sizes: Sizes, endpoint: string, previous: Option<TargetEntry>, input: Record)
    returns (entry: Option<TargetEntry>, limited: bool)
    requires previous.Some? ==> ValidTarget(sizes, endpoint, previous.value) && previous.value.selector.Inputs?
    ensures entry.Some? && ValidTarget(sizes, endpoint, entry.value)
    ensures CoverageOf(entry) == Absorb(CoverageOf(previous), input)
    ensures limited <==> Overflows(CoverageOf(previous), input)
  {
    var alternatives := if previous.Some? then previous.value.alternatives else [];
    var covered := false;
    if previous.Some? {
      covered := IsCovered(
        sizes, alternatives, previous.value.minFields.value, previous.value.maxFields.value, input);
      CoverageMeansAlternatives(previous, alternatives, input);
    }
    if |input| == 0 {
      entry := Some(TargetEntry(All, [], TargetBytes(sizes, endpoint, All), None, None));
      limited := false;
    } else if covered {
      return previous, false;
    } else {
      entry, limited := Extend(sizes, endpoint, previous, input);
    }
  }

  lemma CoverageMeansAlternatives(previous: Option<TargetEntry>, alternatives: seq<Alternative>, input: Record)
    requires previous.Some? && previous.value.selector == Inputs(Values(alternatives))
    ensures CoverageOf(previous) == Listed(ValueSet(alternatives))
    ensures Covered(ValueSet(alternatives), input) <==> CoveredBy(alternatives, input)
  {
    if Covered(ValueSet(alternatives), input) {
      var value :| value in ValueSet(alternatives) && Subsumes(value, input);
      var i :| 0 <= i < |alternatives| && Values(alternatives)[i] == value;
    }
    if i :| 0 <= i < |alternatives| && Subsumes(alternatives[i].value, input) {
      assert Values(alternatives)[i] in ValueSet(alternatives);
    }
  }
}
