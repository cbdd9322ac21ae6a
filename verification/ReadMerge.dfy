/** Merging the read alternatives of a native query without changing what the calculator makes of them. */
module ReadMerges {
  import opened Contracts
  import opened Facts
  import opened Reads
  import opened Antichain
  import opened Calculate
  import opened Exactness

  /** Sorting by canonical text: some arrangement of the same bindings. */
  type Arrange = seq<Binding> -> seq<Binding>

  ghost predicate Rearranges(arrange: Arrange) {
    forall bindings :: multiset(arrange(bindings)) == multiset(bindings)
  }

  datatype Key = Key(resource: string, bindings: seq<Binding>)

  function RawKey(arrange: Arrange, read: Read): Key {
    Key(read.resource, arrange(read.bindings))
  }

  function MergedKey(read: Read): Key {
    Key(read.resource, read.bindings)
  }

  function Unlisted(names: seq<string>, more: seq<string>): (rest: seq<string>)
    ensures forall name :: name in rest <==> name in more && name !in names
  {
    if more == [] then []
    else (if more[0] in names then [] else [more[0]]) + Unlisted(names, more[1..])
  }

  function UnionColumns(left: Columns, right: Columns): Columns {
    if left.Every? || right.Every? then Every else Only(left.names + Unlisted(left.names, right.names))
  }

  /** Some alternative with this key observes the column. */
  ghost predicate GroupTouches(arrange: Arrange, alternatives: seq<Read>, key: Key, column: string) {
    exists i :: 0 <= i < |alternatives| && RawKey(arrange, alternatives[i]) == key && Touches(alternatives[i], column)
  }

  ghost predicate Grouped(arrange: Arrange, alternatives: seq<Read>, read: Read) {
    && read.filters == []
    && (exists i :: 0 <= i < |alternatives| && RawKey(arrange, alternatives[i]) == MergedKey(read))
    && forall column :: Touches(read, column) <==> GroupTouches(arrange, alternatives, MergedKey(read), column)
  }

  /** One read per binding path, with exactly the columns its alternatives observe. */
  ghost predicate MergedFrom(arrange: Arrange, alternatives: seq<Read>, merged: seq<Read>) {
    && (forall k :: 0 <= k < |merged| ==> Grouped(arrange, alternatives, merged[k]))
    && (forall k, l :: 0 <= k < l < |merged| ==> MergedKey(merged[k]) != MergedKey(merged[l]))
    && forall i :: 0 <= i < |alternatives| ==> HasKey(merged, RawKey(arrange, alternatives[i]))
  }

  ghost predicate HasKey(merged: seq<Read>, key: Key) {
    exists k :: 0 <= k < |merged| && MergedKey(merged[k]) == key
  }

  ghost predicate Unfiltered(alternatives: seq<Read>) {
    forall i :: 0 <= i < |alternatives| ==> alternatives[i].filters == []
  }

  // ----------------------------------------------------------------- the loop

  lemma GroupTouchesStep(arrange: Arrange, alternatives: seq<Read>, next: Read, key: Key, column: string)
    ensures GroupTouches(arrange, alternatives + [next], key, column)
      <==> GroupTouches(arrange, alternatives, key, column) || (RawKey(arrange, next) == key && Touches(next, column))
  {
    var all := alternatives + [next];
    assert all[|alternatives|] == next;
    if GroupTouches(arrange, alternatives, key, column) {
      var i :| 0 <= i < |alternatives| && RawKey(arrange, alternatives[i]) == key && Touches(alternatives[i], column);
      assert all[i] == alternatives[i];
    }
    if GroupTouches(arrange, all, key, column) {
      var i :| 0 <= i < |all| && RawKey(arrange, all[i]) == key && Touches(all[i], column);
      assert i < |alternatives| ==> all[i] == alternatives[i];
    }
  }

  lemma GroupedOther(arrange: Arrange, alternatives: seq<Read>, next: Read, read: Read)
    requires Grouped(arrange, alternatives, read) && RawKey(arrange, next) != MergedKey(read)
    ensures Grouped(arrange, alternatives + [next], read)
  {
    hide Touches;
    var i :| 0 <= i < |alternatives| && RawKey(arrange, alternatives[i]) == MergedKey(read);
    assert (alternatives + [next])[i] == alternatives[i];
    forall column ensures Touches(read, column) <==> GroupTouches(arrange, alternatives + [next], MergedKey(read), column) {
      GroupTouchesStep(arrange, alternatives, next, MergedKey(read), column);
    }
  }

  lemma GroupedJoined(arrange: Arrange, alternatives: seq<Read>, next: Read, read: Read)
    requires Grouped(arrange, alternatives, read) && RawKey(arrange, next) == MergedKey(read) && next.filters == []
    ensures Grouped(arrange, alternatives + [next], read.(columns := UnionColumns(read.columns, next.columns)))
  {
    var joined := read.(columns := UnionColumns(read.columns, next.columns));
    assert (alternatives + [next])[|alternatives|] == next;
    forall column
      ensures Touches(joined, column) <==> GroupTouches(arrange, alternatives + [next], MergedKey(joined), column)
    {
      assert Touches(joined, column) <==> Touches(read, column) || Touches(next, column);
      GroupTouchesStep(arrange, alternatives, next, MergedKey(read), column);
    }
  }

  lemma GroupedFirst(arrange: Arrange, alternatives: seq<Read>, next: Read)
    requires next.filters == [] && forall i :: 0 <= i < |alternatives| ==> RawKey(arrange, alternatives[i]) != RawKey(arrange, next)
    ensures Grouped(arrange, alternatives + [next], next.(bindings := arrange(next.bindings)))
  {
    var first := next.(bindings := arrange(next.bindings));
    assert (alternatives + [next])[|alternatives|] == next;
    forall column ensures Touches(first, column) <==> GroupTouches(arrange, alternatives + [next], MergedKey(first), column) {
      GroupTouchesStep(arrange, alternatives, next, MergedKey(first), column);
    }
  }

  lemma HasKeyKept(merged: seq<Read>, after: seq<Read>, key: Key)
    requires HasKey(merged, key) && |merged| <= |after|
    requires forall k :: 0 <= k < |merged| ==> MergedKey(after[k]) == MergedKey(merged[k])
    ensures HasKey(after, key)
  {
    var k :| 0 <= k < |merged| && MergedKey(merged[k]) == key;
    assert MergedKey(after[k]) == key;
  }

  lemma JoinStep(arrange: Arrange, alternatives: seq<Read>, next: Read, merged: seq<Read>, at: nat)
    requires MergedFrom(arrange, alternatives, merged) && at < |merged| && next.filters == []
    requires MergedKey(merged[at]) == RawKey(arrange, next)
    ensures MergedFrom(
      arrange, alternatives + [next], merged[at := merged[at].(columns := UnionColumns(merged[at].columns, next.columns))])
  {
    hide Grouped, HasKey;
    var after := merged[at := merged[at].(columns := UnionColumns(merged[at].columns, next.columns))];
    forall k | 0 <= k < |after| ensures Grouped(arrange, alternatives + [next], after[k]) {
      if k == at {
        GroupedJoined(arrange, alternatives, next, merged[at]);
      } else {
        GroupedOther(arrange, alternatives, next, merged[k]);
      }
    }
    forall i | 0 <= i < |alternatives| + 1 ensures HasKey(after, RawKey(arrange, (alternatives + [next])[i])) {
      if i < |alternatives| {
        HasKeyKept(merged, after, RawKey(arrange, alternatives[i]));
      } else {
        HasKeyAt(after, at);
      }
    }
  }

  lemma HasKeyAt(merged: seq<Read>, at: nat)
    ensures at < |merged| ==> HasKey(merged, MergedKey(merged[at]))
  {
  }

  lemma AddStep(arrange: Arrange, alternatives: seq<Read>, next: Read, merged: seq<Read>)
    requires MergedFrom(arrange, alternatives, merged) && next.filters == []
    requires forall k :: 0 <= k < |merged| ==> MergedKey(merged[k]) != RawKey(arrange, next)
    ensures MergedFrom(arrange, alternatives + [next], merged + [next.(bindings := arrange(next.bindings))])
  {
    var after := merged + [next.(bindings := arrange(next.bindings))];
    forall i | 0 <= i < |alternatives| ensures RawKey(arrange, alternatives[i]) != RawKey(arrange, next) {
      assert HasKey(merged, RawKey(arrange, alternatives[i]));
    }
    hide Grouped, HasKey;
    forall k | 0 <= k < |after| ensures Grouped(arrange, alternatives + [next], after[k]) {
      if k == |merged| {
        GroupedFirst(arrange, alternatives, next);
      } else {
        GroupedOther(arrange, alternatives, next, merged[k]);
      }
    }
    forall i | 0 <= i < |alternatives| + 1 ensures HasKey(after, RawKey(arrange, (alternatives + [next])[i])) {
      if i < |alternatives| {
        HasKeyKept(merged, after, RawKey(arrange, alternatives[i]));
      } else {
        HasKeyAt(after, |merged|);
      }
    }
  }

  method FindKey(merged: seq<Read>, key: Key) returns (at: Option<nat>)
    ensures at.Some? ==> at.value < |merged| && MergedKey(merged[at.value]) == key
    ensures at.None? ==> forall k :: 0 <= k < |merged| ==> MergedKey(merged[k]) != key
  {
    for k := 0 to |merged|
      invariant forall l :: 0 <= l < k ==> MergedKey(merged[l]) != key
    {
      if MergedKey(merged[k]) == key {
        return Some(k);
      }
    }
    return None;
  }

  /** The final loop of the native query compiler. */
  method MergeReads(arrange: Arrange, alternatives: seq<Read>) returns (merged: seq<Read>)
    requires Unfiltered(alternatives)
    ensures MergedFrom(arrange, alternatives, merged)
  {
    merged := [];
    assert MergedFrom(arrange, alternatives[..0], merged);
    hide MergedFrom;
    for i := 0 to |alternatives|
      invariant MergedFrom(arrange, alternatives[..i], merged)
    {
      var read := alternatives[i];
      var at := FindKey(merged, RawKey(arrange, read));
      assert alternatives[..i + 1] == alternatives[..i] + [read];
      if at.None? {
        AddStep(arrange, alternatives[..i], read, merged);
        merged := merged + [read.(bindings := arrange(read.bindings))];
      } else {
        JoinStep(arrange, alternatives[..i], read, merged, at.value);
        merged := merged[at.value := merged[at.value].(columns := UnionColumns(merged[at.value].columns, read.columns))];
      }
    }
    assert alternatives[..|alternatives|] == alternatives;
  }

  // ------------------------------------------------------------- what it means

  /** The order of bindings never matters to what a row contributes. */
  lemma BindingOrderIsFree(row: RowState, left: seq<Binding>, right: seq<Binding>)
    requires multiset(left) == multiset(right)
    ensures BindFrom(row, left, map[], true).0 == BindFrom(row, right, map[], true).0
  {
    var bound := BindFrom(row, left, map[], true).0;
    BoundExactly(row, left, bound);
    BoundExactly(row, right, bound);
    forall b ensures b in left <==> b in right {
      assert b in multiset(left) <==> b in multiset(right);
    }
    assert forall name, value :: Captures(row, left, name, value) <==> Captures(row, right, name, value);
    hide Captures;
  }

  ghost predicate Contributes(
    options: Options, fact: WriteFact, row: RowState, endpoint: string, alternatives: seq<Read>, input: Record)
    requires fact.resource in options.resources
  {
    exists i :: 0 <= i < |alternatives| && ContributesOne(options, fact, row, endpoint, alternatives[i], input)
  }

  predicate ContributesOne(options: Options, fact: WriteFact, row: RowState, endpoint: string, read: Read, input: Record)
    requires fact.resource in options.resources
  {
    && read.resource == fact.resource
    && var decision := Decide(options, fact, row, endpoint, read);
       decision.Hit? && decision.input == input
  }

  lemma HitCarries(options: Options, fact: WriteFact, row: RowState, endpoint: string, left: Read, right: Read, input: Record)
    requires fact.resource in options.resources && left.filters == [] && right.filters == []
    requires ContributesOne(options, fact, row, endpoint, left, input) && left.resource == right.resource
    requires multiset(left.bindings) == multiset(right.bindings)
    requires Untouched(options.resources[fact.resource], fact, right) ==> Untouched(options.resources[fact.resource], fact, left)
    ensures ContributesOne(options, fact, row, endpoint, right, input)
  {
    BindingOrderIsFree(row, left.bindings, right.bindings);
    hide BindFrom;
    assert Broad(left) == Broad(right);
    assert !ProvedOut(options.coerce, row, right) && !ProvedOut(options.coerce, row, left);
  }

  /** For every written row, the merged reads contribute exactly the inputs the alternatives did. */
  lemma MergeKeepsInputs(
      options: Options, fact: WriteFact, row: RowState, endpoint: string, arrange: Arrange, alternatives: seq<Read>,
      merged: seq<Read>, input: Record)
    requires Rearranges(arrange) && Unfiltered(alternatives) && MergedFrom(arrange, alternatives, merged)
    requires fact.resource in options.resources
    ensures Contributes(options, fact, row, endpoint, alternatives, input) <==> Contributes(options, fact, row, endpoint, merged, input)
  {
    hide ContributesOne;
    if Contributes(options, fact, row, endpoint, alternatives, input) {
      var i :| 0 <= i < |alternatives| && ContributesOne(options, fact, row, endpoint, alternatives[i], input);
      assert HasKey(merged, RawKey(arrange, alternatives[i]));
      var k :| 0 <= k < |merged| && MergedKey(merged[k]) == RawKey(arrange, alternatives[i]);
      AlternativeCarries(options, fact, row, endpoint, arrange, alternatives, i, merged[k], input);
    }
    if Contributes(options, fact, row, endpoint, merged, input) {
      var k :| 0 <= k < |merged| && ContributesOne(options, fact, row, endpoint, merged[k], input);
      var i := MergedCarries(options, fact, row, endpoint, arrange, alternatives, merged[k], input);
    }
  }

  lemma AlternativeCarries(
      options: Options, fact: WriteFact, row: RowState, endpoint: string, arrange: Arrange, alternatives: seq<Read>, i: nat,
      read: Read, input: Record)
    requires Rearranges(arrange) && Unfiltered(alternatives) && Grouped(arrange, alternatives, read) && i < |alternatives|
    requires fact.resource in options.resources && MergedKey(read) == RawKey(arrange, alternatives[i])
    requires ContributesOne(options, fact, row, endpoint, alternatives[i], input)
    ensures ContributesOne(options, fact, row, endpoint, read, input)
  {
    hide ContributesOne, Touches;
    var resource := options.resources[fact.resource];
    if Untouched(resource, fact, read) {
      forall c | 0 <= c < |fact.changed.value| ensures !Touches(alternatives[i], fact.changed.value[c]) {
        assert !Touches(read, fact.changed.value[c]);
        assert !GroupTouches(arrange, alternatives, MergedKey(read), fact.changed.value[c]);
      }
    }
    assert multiset(arrange(alternatives[i].bindings)) == multiset(alternatives[i].bindings);
    HitCarries(options, fact, row, endpoint, alternatives[i], read, input);
  }

  lemma MergedCarries(
      options: Options, fact: WriteFact, row: RowState, endpoint: string, arrange: Arrange, alternatives: seq<Read>, read: Read,
      input: Record) returns (i: nat)
    requires Rearranges(arrange) && Unfiltered(alternatives) && Grouped(arrange, alternatives, read)
    requires fact.resource in options.resources
    requires ContributesOne(options, fact, row, endpoint, read, input)
    ensures i < |alternatives| && ContributesOne(options, fact, row, endpoint, alternatives[i], input)
  {
    hide ContributesOne, Touches;
    var resource := options.resources[fact.resource];
    var j :| 0 <= j < |alternatives| && RawKey(arrange, alternatives[j]) == MergedKey(read);
    i := j;
    if Untouched(resource, fact, alternatives[j]) && !Untouched(resource, fact, read) {
      var c :| 0 <= c < |fact.changed.value| && Touches(read, fact.changed.value[c]);
      assert GroupTouches(arrange, alternatives, MergedKey(read), fact.changed.value[c]);
      i :| 0 <= i < |alternatives| && RawKey(arrange, alternatives[i]) == MergedKey(read) && Touches(alternatives[i], fact.changed.value[c]);
    }
    assert multiset(arrange(alternatives[i].bindings)) == multiset(alternatives[i].bindings);
    HitCarries(options, fact, row, endpoint, read, alternatives[i], input);
  }

  /**
   Alternatives with different bindings must stay apart: uniting the two sides of a self-join misses an
   input that either side alone selects.
   */
  lemma UnitedBindingsMiss(coerce: Coerce) returns (row: RowState, left: Binding, right: Binding, input: Input)
    ensures MatchesRecord(coerce, input, BindFrom(row, [left], map[], true).0)
    ensures !MatchesRecord(coerce, input, BindFrom(row, [left, right], map[], true).0)
  {
    row := Known(Null, map["left" := Num(1.0), "right" := Num(2.0)], None);
    left, right := Binding("left", "a"), Binding("right", "b");
    input := map["a" := Single(Num(1.0)), "b" := Single(Num(5.0))];
    var one: Record := map["a" := Num(1.0)];
    var both := one["b" := Num(2.0)];
    assert [left, right][1..] == [right] && [left][1..] == [] && [right][1..] == [];
    assert map[]["a" := Num(1.0)] == one;
    assert "right" in row.fields && row.fields["right"] == Num(2.0);
    assert BindFrom(row, [right], one, true) == BindFrom(row, [], both, true);
    assert BindFrom(row, [left, right], map[], true) == BindFrom(row, [right], one, true);
    assert "b" in both && "b" in input && !ValueMayEqual(coerce, input["b"], both["b"]);
  }
}
