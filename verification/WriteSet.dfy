/** The transaction's bounded write log. Over budget it joins a resource's facts into one summary. */
module WriteSets {
  import opened Contracts
  import opened Facts

  const SUMMARY_BYTES := 768

  /** Encoded sizes of the parts of a fact that the budgets do not fix. */
  datatype Sizes = Sizes(text: string -> nat, scalar: Scalar -> nat, record: Record -> nat)

  /** JSON escapes one UTF-16 unit into at most six bytes, between two quotes. */
  ghost predicate Plausible(sizes: Sizes) {
    forall text :: sizes.text(text) <= 6 * |text| + 2
  }

  function ColumnBytes(sizes: Sizes, columns: seq<string>): nat {
    if columns == [] then 2 else ColumnBytes(sizes, columns[1..]) + sizes.text(columns[0]) + (if |columns| > 1 then 1 else 0)
  }

  function RowBytes(sizes: Sizes, state: RowState): nat {
    match state
    case Absent => 17
    case Unknown => 18
    case Known(scope, fields, None) => 35 + sizes.record(fields) + sizes.scalar(scope)
    case Known(scope, fields, Some(equality)) => 53 + sizes.record(equality) + sizes.record(fields) + sizes.scalar(scope)
  }

  function FactBytes(sizes: Sizes, fact: WriteFact): nat {
    63 + RowBytes(sizes, fact.after) + RowBytes(sizes, fact.before)
    + (if fact.changed.Some? then ColumnBytes(sizes, fact.changed.value) else 4)
    + (if fact.operation.UnknownOperation? then 9 else 8)
    + sizes.text(fact.resource)
  }

  function TotalBytes(sizes: Sizes, facts: seq<WriteFact>): nat {
    if facts == [] then 0 else TotalBytes(sizes, facts[..|facts| - 1]) + FactBytes(sizes, facts[|facts| - 1])
  }

  // ---------------------------------------------------------------- summaries

  /** Set insertion order, first occurrence kept. */
  function Distinct(columns: seq<string>): (distinct: seq<string>)
    ensures forall column :: column in distinct <==> column in columns
    ensures forall i, j :: 0 <= i < j < |distinct| ==> distinct[i] != distinct[j]
  {
    if columns == [] then []
    else
      var shorter := Distinct(columns[..|columns| - 1]);
      var last := columns[|columns| - 1];
      assert columns == columns[..|columns| - 1] + [last];
      if last in shorter then shorter else shorter + [last]
  }

  function Seed(first: WriteFact): WriteFact {
    WriteFact(first.resource, first.operation, Absent, Absent, Some([]))
  }

  function JoinFact(summary: WriteFact, fact: WriteFact): WriteFact {
    WriteFact(
      summary.resource,
      if summary.operation != fact.operation then UnknownOperation else summary.operation,
      JoinRow(summary.before, fact.before),
      JoinRow(summary.after, fact.after),
      if summary.changed.None? || fact.changed.None? then None
      else Some(Distinct(summary.changed.value + fact.changed.value)))
  }

  function Strip(state: RowState): RowState {
    if state.Known? then Known(state.scope, map[], None) else state
  }

  function Forget(state: RowState): RowState {
    if state.Known? then Unknown else state
  }

  /** Drop fields first, the scope only if that is not enough. */
  function Shrink(sizes: Sizes, fact: WriteFact): WriteFact {
    if FactBytes(sizes, fact) <= SUMMARY_BYTES then fact
    else
      var stripped := fact.(before := Strip(fact.before), after := Strip(fact.after), changed := None);
      if FactBytes(sizes, stripped) <= SUMMARY_BYTES then stripped
      else stripped.(before := Forget(stripped.before), after := Forget(stripped.after))
  }

  /**
   A fact too large for a summary loses its fields, certified values and list of columns; it keeps the scopes of its
   rows exactly if it fits then.
   */
  lemma ShrinkExactly(sizes: Sizes, fact: WriteFact)
    ensures var kept := Shrink(sizes, fact);
      && kept.resource == fact.resource && kept.operation == fact.operation
      && (FactBytes(sizes, fact) <= SUMMARY_BYTES ==> kept == fact)
      && (FactBytes(sizes, fact) > SUMMARY_BYTES ==>
            && kept.changed.None?
            && var scoped := fact.(before := Scoped(fact.before), after := Scoped(fact.after), changed := None);
               if FactBytes(sizes, scoped) <= SUMMARY_BYTES then kept == scoped
               else kept.before == Nothing(fact.before) && kept.after == Nothing(fact.after))
  {
    assert Strip(fact.before) == Scoped(fact.before) && Strip(fact.after) == Scoped(fact.after);
  }

  /** A known row of which only the scope is known. */
  function Scoped(state: RowState): RowState {
    match state
    case Known(scope, _, _) => Known(scope, map[], None)
    case other => other
  }

  function Nothing(state: RowState): RowState {
    if state.Absent? then Absent else Unknown
  }

  /** The summary the loop of `summarize` has built after all of `facts`. */
  function Summary(sizes: Sizes, facts: seq<WriteFact>): WriteFact
    requires facts != []
  {
    var last := facts[|facts| - 1];
    if |facts| == 1 then Shrink(sizes, JoinFact(Seed(last), last))
    else Shrink(sizes, JoinFact(Summary(sizes, facts[..|facts| - 1]), last))
  }

  method Summarize(sizes: Sizes, facts: seq<WriteFact>) returns (summary: WriteFact)
    requires facts != []
    ensures summary == Summary(sizes, facts)
  {
    summary := Seed(facts[0]);
    for i := 0 to |facts|
      invariant summary == if i == 0 then Seed(facts[0]) else Summary(sizes, facts[..i])
    {
      assert facts[..i + 1][..i] == facts[..i];
      summary := JoinFact(summary, facts[i]);
      if FactBytes(sizes, summary) > SUMMARY_BYTES {
        summary := summary.(before := Strip(summary.before), after := Strip(summary.after), changed := None);
        if FactBytes(sizes, summary) > SUMMARY_BYTES {
          summary := summary.(before := Forget(summary.before), after := Forget(summary.after));
        }
      }
    }
    assert facts[..|facts|] == facts;
  }

  lemma JoinFactIsUpper(summary: WriteFact, fact: WriteFact)
    ensures summary.resource == fact.resource ==>
      LeqFact(summary, JoinFact(summary, fact)) && LeqFact(fact, JoinFact(summary, fact))
  {
  }

  lemma ShrinkIsUpper(sizes: Sizes, fact: WriteFact)
    ensures LeqFact(fact, Shrink(sizes, fact))
  {
  }

  /** A summary stands above every fact it replaced: no write it must cover is lost. */
  lemma {:induction false} SummaryCovers(sizes: Sizes, facts: seq<WriteFact>, i: nat)
    requires i < |facts|
    requires forall k :: 0 <= k < |facts| ==> facts[k].resource == facts[0].resource
    ensures Summary(sizes, facts).resource == facts[0].resource
    ensures LeqFact(facts[i], Summary(sizes, facts))
  {
    hide LeqFact, JoinFact, Shrink;
    var last := facts[|facts| - 1];
    var before := facts[..|facts| - 1];
    if |facts| == 1 {
      JoinFactIsUpper(Seed(last), last);
      ShrinkIsUpper(sizes, JoinFact(Seed(last), last));
      LeqFactTransitive(last, JoinFact(Seed(last), last), Summary(sizes, facts));
    } else {
      SummaryCovers(sizes, before, if i < |before| then i else 0);
      var joined := JoinFact(Summary(sizes, before), last);
      JoinFactIsUpper(Summary(sizes, before), last);
      ShrinkIsUpper(sizes, joined);
      if i < |before| {
        LeqFactTransitive(facts[i], Summary(sizes, before), joined);
      }
      LeqFactTransitive(facts[i], joined, Summary(sizes, facts));
    }
  }

  /** Joining one more fact only climbs: a constraint the summary lost stays lost. */
  lemma SummaryClimbs(sizes: Sizes, facts: seq<WriteFact>, fact: WriteFact)
    requires facts != []
    requires forall k :: 0 <= k < |facts| ==> facts[k].resource == fact.resource
    ensures LeqFact(Summary(sizes, facts), Summary(sizes, facts + [fact]))
  {
    assert (facts + [fact])[..|facts|] == facts;
    SummaryCovers(sizes, facts, 0);
    var joined := JoinFact(Summary(sizes, facts), fact);
    JoinFactIsUpper(Summary(sizes, facts), fact);
    ShrinkIsUpper(sizes, joined);
    LeqFactTransitive(Summary(sizes, facts), joined, Summary(sizes, facts + [fact]));
  }

  ghost predicate IsUpper(facts: seq<WriteFact>, high: WriteFact) {
    forall k :: 0 <= k < |facts| ==> LeqFact(facts[k], high)
  }

  /** No prefix of the facts ever pushed the summary over its size. */
  ghost predicate NeverShrinks(sizes: Sizes, facts: seq<WriteFact>)
    requires facts != []
  {
    var joined := if |facts| == 1 then JoinFact(Seed(facts[0]), facts[0])
                  else JoinFact(Summary(sizes, facts[..|facts| - 1]), facts[|facts| - 1]);
    FactBytes(sizes, joined) <= SUMMARY_BYTES && (|facts| > 1 ==> NeverShrinks(sizes, facts[..|facts| - 1]))
  }

  /** Precision: a summary that fits is the least fact above all the facts it replaced. */
  lemma {:induction false} SummaryIsLeast(sizes: Sizes, facts: seq<WriteFact>, high: WriteFact)
    requires facts != [] && NeverShrinks(sizes, facts)
    requires IsUpper(facts, high)
    ensures LeqFact(Summary(sizes, facts), high)
  {
    var last := facts[|facts| - 1];
    var low := if |facts| == 1 then Seed(last) else Summary(sizes, facts[..|facts| - 1]);
    assert LeqFact(last, high);
    if |facts| > 1 {
      assert forall k :: 0 <= k < |facts| - 1 ==> facts[..|facts| - 1][k] == facts[k];
      SummaryIsLeast(sizes, facts[..|facts| - 1], high);
    }
    assert LeqFact(low, high);
    JoinRowIsLeast(low.before, last.before, high.before);
    JoinRowIsLeast(low.after, last.after, high.after);
  }

  /** The largest a summary can be: everything forgotten but the name of the resource. */
  function SummaryCeiling(sizes: Sizes, resource: string): nat {
    var forgotten := 112 + sizes.text(resource);
    if forgotten > SUMMARY_BYTES then forgotten else SUMMARY_BYTES
  }

  lemma SummaryFits(sizes: Sizes, facts: seq<WriteFact>)
    requires facts != []
    requires forall k :: 0 <= k < |facts| ==> facts[k].resource == facts[0].resource
    ensures FactBytes(sizes, Summary(sizes, facts)) <= SummaryCeiling(sizes, facts[0].resource)
  {
    SummaryCovers(sizes, facts, 0);
  }

  // ------------------------------------------------------------------ entries

  datatype Entry = Entry(facts: seq<WriteFact>, bytes: nat, summarized: bool)

  function Compacted(sizes: Sizes, entry: Entry): Entry
    requires entry.facts != []
  {
    var summary := Summary(sizes, entry.facts);
    Entry([summary], FactBytes(sizes, summary), true)
  }

  /** The entry once one more fact of its resource is in, before any budget is looked at. */
  function Extended(sizes: Sizes, entry: Entry, fact: WriteFact): Entry {
    if entry.summarized then Compacted(sizes, entry.(facts := entry.facts + [fact]))
    else Entry(entry.facts + [fact], entry.bytes + FactBytes(sizes, fact), false)
  }

  ghost predicate ValidEntry(sizes: Sizes, resource: string, entry: Entry) {
    && entry.facts != []
    && (forall k :: 0 <= k < |entry.facts| ==> entry.facts[k].resource == resource)
    && entry.bytes == TotalBytes(sizes, entry.facts)
    && (entry.summarized ==> |entry.facts| == 1 && entry.bytes <= SummaryCeiling(sizes, resource))
  }

  ghost predicate Above(facts: seq<WriteFact>, low: WriteFact) {
    exists k :: 0 <= k < |facts| && LeqFact(low, facts[k])
  }

  lemma CompactedValid(sizes: Sizes, resource: string, entry: Entry)
    requires entry.facts != []
    requires forall k :: 0 <= k < |entry.facts| ==> entry.facts[k].resource == resource
    ensures ValidEntry(sizes, resource, Compacted(sizes, entry))
    ensures Raised(entry.facts, Compacted(sizes, entry).facts)
  {
    SummaryFits(sizes, entry.facts);
    SummaryCovers(sizes, entry.facts, 0);
    var summary := Summary(sizes, entry.facts);
    assert TotalBytes(sizes, [summary]) == TotalBytes(sizes, []) + FactBytes(sizes, summary) by {
      assert [summary][..0] == [];
    }
    forall low | Above(entry.facts, low) ensures Above([summary], low) {
      var k :| 0 <= k < |entry.facts| && LeqFact(low, entry.facts[k]);
      SummaryCovers(sizes, entry.facts, k);
      LeqFactTransitive(low, entry.facts[k], summary);
      assert LeqFact(low, [summary][0]);
    }
  }

  lemma ExtendedValid(sizes: Sizes, resource: string, entry: Entry, fact: WriteFact)
    requires entry.facts == [] ==> entry == Entry([], 0, false)
    requires entry.facts != [] ==> ValidEntry(sizes, resource, entry)
    requires fact.resource == resource
    ensures ValidEntry(sizes, resource, Extended(sizes, entry, fact))
    ensures Above(Extended(sizes, entry, fact).facts, fact)
    ensures Raised(entry.facts, Extended(sizes, entry, fact).facts)
  {
    var all := entry.facts + [fact];
    assert all[..|all| - 1] == entry.facts;
    assert LeqFact(fact, all[|entry.facts|]);
    assert forall low, k :: 0 <= k < |entry.facts| && LeqFact(low, entry.facts[k]) ==> LeqFact(low, all[k]);
    if entry.summarized {
      CompactedValid(sizes, resource, entry.(facts := all));
    }
  }

  // ------------------------------------------------------------------ budgets

  function FactCount(order: seq<string>, entries: map<string, Entry>): nat {
    if order == [] then 0
    else
      var last := order[|order| - 1];
      FactCount(order[..|order| - 1], entries) + (if last in entries then |entries[last].facts| else 0)
  }

  function ByteCount(order: seq<string>, entries: map<string, Entry>): nat {
    if order == [] then 0
    else
      var last := order[|order| - 1];
      ByteCount(order[..|order| - 1], entries) + (if last in entries then entries[last].bytes else 0)
  }

  /** How many entries could still be summarized. */
  function Detailed(order: seq<string>, entries: map<string, Entry>): nat {
    if order == [] then 0
    else
      var last := order[|order| - 1];
      Detailed(order[..|order| - 1], entries) + (if last in entries && !entries[last].summarized then 1 else 0)
  }

  /** More than 200 facts, or more than 128 KiB once the facts are written as one JSON array. */
  predicate OverBudget(order: seq<string>, entries: map<string, Entry>) {
    FactCount(order, entries) > FACT_LIMIT
    || ByteCount(order, entries) + FactCount(order, entries) + 1 > FACT_BYTES
  }

  ghost predicate Listed(order: seq<string>, entries: map<string, Entry>) {
    && (forall k :: 0 <= k < |order| ==> order[k] in entries)
    && (forall key :: key in entries ==> key in order)
    && (forall i, j :: 0 <= i < j < |order| ==> order[i] != order[j])
  }

  lemma {:induction false} DetailedDrops(order: seq<string>, entries: map<string, Entry>, key: string, entry: Entry)
    requires forall k :: 0 <= k < |order| ==> order[k] in entries
    requires forall i, j :: 0 <= i < j < |order| ==> order[i] != order[j]
    requires key in entries && !entries[key].summarized && entry.summarized
    ensures Detailed(order, entries[key := entry]) == Detailed(order, entries) - (if key in order then 1 else 0)
  {
    if order != [] {
      var shorter := order[..|order| - 1];
      assert order == shorter + [order[|order| - 1]];
      DetailedDrops(shorter, entries, key, entry);
    }
  }

  lemma {:induction false} AllSummarizedFits(sizes: Sizes, order: seq<string>, entries: map<string, Entry>)
    requires Plausible(sizes)
    requires forall k :: 0 <= k < |order| ==> order[k] in entries && ValidEntry(sizes, order[k], entries[order[k]])
    requires forall k :: 0 <= k < |order| ==> entries[order[k]].summarized && |order[k]| <= NAME_LIMIT
    ensures FactCount(order, entries) == |order|
    ensures ByteCount(order, entries) <= 882 * |order|
  {
    if order != [] {
      AllSummarizedFits(sizes, order[..|order| - 1], entries);
      assert sizes.text(order[|order| - 1]) <= 6 * NAME_LIMIT + 2;
    }
  }

  function Flatten(order: seq<string>, entries: map<string, Entry>): seq<WriteFact> {
    if order == [] then []
    else
      var last := order[|order| - 1];
      Flatten(order[..|order| - 1], entries) + (if last in entries then entries[last].facts else [])
  }

  lemma {:induction false} FlattenHolds(order: seq<string>, entries: map<string, Entry>, fact: WriteFact)
    requires forall k :: 0 <= k < |order| ==> order[k] in entries
    ensures fact in Flatten(order, entries) <==> exists k :: 0 <= k < |order| && fact in entries[order[k]].facts
  {
    if order != [] {
      var last := |order| - 1;
      FlattenHolds(order[..last], entries, fact);
      if fact in Flatten(order[..last], entries) {
        var k :| 0 <= k < last && fact in entries[order[..last][k]].facts;
        assert fact in entries[order[k]].facts;
      }
      if k :| 0 <= k < |order| && fact in entries[order[k]].facts && k < last {
        assert fact in entries[order[..last][k]].facts;
      }
    }
  }

  lemma {:induction false} FlattenSize(sizes: Sizes, order: seq<string>, entries: map<string, Entry>)
    requires forall k :: 0 <= k < |order| ==> order[k] in entries
    requires forall k :: 0 <= k < |order| ==> entries[order[k]].bytes == TotalBytes(sizes, entries[order[k]].facts)
    ensures |Flatten(order, entries)| == FactCount(order, entries)
    ensures TotalBytes(sizes, Flatten(order, entries)) == ByteCount(order, entries)
  {
    if order != [] {
      var shorter, last := order[..|order| - 1], order[|order| - 1];
      assert entries[last].bytes == TotalBytes(sizes, entries[last].facts);
      assert Flatten(order, entries) == Flatten(shorter, entries) + entries[last].facts;
      assert ByteCount(order, entries) == ByteCount(shorter, entries) + entries[last].bytes;
      assert FactCount(order, entries) == FactCount(shorter, entries) + |entries[last].facts|;
      hide Flatten, TotalBytes, ByteCount, FactCount;
      FlattenSize(sizes, shorter, entries);
      TotalBytesConcat(sizes, Flatten(shorter, entries), entries[last].facts);
    }
  }

  lemma {:induction false} TotalBytesConcat(sizes: Sizes, left: seq<WriteFact>, right: seq<WriteFact>)
    ensures TotalBytes(sizes, left + right) == TotalBytes(sizes, left) + TotalBytes(sizes, right)
  {
    if right == [] {
      assert left + right == left;
    } else {
      var all := left + right;
      assert all[..|all| - 1] == left + right[..|right| - 1];
      TotalBytesConcat(sizes, left, right[..|right| - 1]);
    }
  }

  ghost predicate Sound(sizes: Sizes, order: seq<string>, entries: map<string, Entry>) {
    && Plausible(sizes)
    && Listed(order, entries)
    && |order| <= RESOURCE_LIMIT
    && (forall key :: key in entries ==> 1 <= |key| <= NAME_LIMIT && ValidEntry(sizes, key, entries[key]))
  }

  ghost predicate AllAbove(entries: map<string, Entry>, facts: set<WriteFact>) {
    forall fact :: fact in facts ==> fact.resource in entries && Above(entries[fact.resource].facts, fact)
  }

  /** Only registered resources have entries. */
  ghost predicate Contained(registered: Option<set<string>>, entries: map<string, Entry>) {
    registered.Some? ==> entries.Keys <= registered.value
  }

  /** Nothing about these facts makes `add` refuse one of them. */
  ghost predicate Welcome(closed: bool, registered: Option<set<string>>, facts: seq<WriteFact>) {
    && !closed && registered.Some? && |registered.value| <= RESOURCE_LIMIT
    && forall fact :: fact in facts ==> fact.resource in registered.value && 1 <= |fact.resource| <= NAME_LIMIT
  }

  lemma ReclaimedKeys(
      sizes: Sizes, order: seq<string>, before: map<string, Entry>, fact: WriteFact, entries: map<string, Entry>)
    ensures Reclaimed(sizes, order, Inserted(sizes, before, fact), entries, fact.resource) ==>
      entries.Keys == before.Keys + {fact.resource}
  {
  }

  /** A bound once recorded may be raised but is never lost. */
  ghost predicate Climbed(before: map<string, Entry>, after: map<string, Entry>) {
    forall key :: key in before ==> key in after && Raised(before[key].facts, after[key].facts)
  }

  ghost predicate Raised(before: seq<WriteFact>, after: seq<WriteFact>) {
    forall low :: Above(before, low) ==> Above(after, low)
  }

  lemma ClimbedKeeps(before: map<string, Entry>, after: map<string, Entry>, facts: set<WriteFact>)
    ensures Climbed(before, after) && AllAbove(before, facts) ==> AllAbove(after, facts)
  {
  }

  lemma ClimbedTransitive(a: map<string, Entry>, b: map<string, Entry>, c: map<string, Entry>)
    ensures Climbed(a, b) && Climbed(b, c) ==> Climbed(a, c)
  {
  }

  /** The entries with a new fact in, before any budget is looked at. */
  function Inserted(sizes: Sizes, entries: map<string, Entry>, fact: WriteFact): map<string, Entry> {
    var entry := if fact.resource in entries then entries[fact.resource] else Entry([], 0, false);
    entries[fact.resource := Extended(sizes, entry, fact)]
  }

  lemma InsertedIs(sizes: Sizes, entries: map<string, Entry>, fact: WriteFact)
    ensures var key := fact.resource;
      var entry := if key in entries then entries[key] else Entry([], 0, false);
      var summary := Summary(sizes, entry.facts + [fact]);
      Inserted(sizes, entries, fact) == entries[key :=
        if entry.summarized then Entry([summary], FactBytes(sizes, summary), true)
        else Entry(entry.facts + [fact], entry.bytes + FactBytes(sizes, fact), false)]
  {
    hide Summary, FactBytes;
  }

  function OrderWith(order: seq<string>, entries: map<string, Entry>, key: string): seq<string> {
    if key in entries then order else order + [key]
  }

  lemma InsertedSound(sizes: Sizes, order: seq<string>, entries: map<string, Entry>, fact: WriteFact)
    requires Sound(sizes, order, entries)
    requires 1 <= |fact.resource| <= NAME_LIMIT && (fact.resource in entries || |order| < RESOURCE_LIMIT)
    ensures Sound(sizes, OrderWith(order, entries, fact.resource), Inserted(sizes, entries, fact))
  {
    var entry := if fact.resource in entries then entries[fact.resource] else Entry([], 0, false);
    SoundEntry(sizes, order, entries, fact.resource);
    ExtendedValid(sizes, fact.resource, entry, fact);
    hide ValidEntry, Extended, Sound;
    SoundWith(sizes, order, entries, fact.resource, Extended(sizes, entry, fact));
  }

  lemma SoundEntry(sizes: Sizes, order: seq<string>, entries: map<string, Entry>, key: string)
    ensures Sound(sizes, order, entries) && key in entries ==> ValidEntry(sizes, key, entries[key])
  {
    hide Plausible, ValidEntry;
  }

  lemma SoundWith(sizes: Sizes, order: seq<string>, entries: map<string, Entry>, key: string, entry: Entry)
    requires Sound(sizes, order, entries) && ValidEntry(sizes, key, entry)
    requires 1 <= |key| <= NAME_LIMIT && (key in entries || |order| < RESOURCE_LIMIT)
    ensures Sound(sizes, OrderWith(order, entries, key), entries[key := entry])
  {
    hide Plausible, ValidEntry;
    ListedExtends(order, entries, key, entry);
    hide Listed;
  }

  lemma InsertedClimbs(sizes: Sizes, order: seq<string>, entries: map<string, Entry>, fact: WriteFact)
    requires Sound(sizes, order, entries)
    ensures Climbed(entries, Inserted(sizes, entries, fact))
    ensures AllAbove(Inserted(sizes, entries, fact), {fact})
  {
    var key := fact.resource;
    ExtendedValid(sizes, key, if key in entries then entries[key] else Entry([], 0, false), fact);
  }

  /** Keeping the old bounds and bounding one more fact bounds all of them. */
  lemma AddedAbove(before: map<string, Entry>, after: map<string, Entry>, added: set<WriteFact>, fact: WriteFact)
    requires Climbed(before, after) && AllAbove(before, added) && AllAbove(after, {fact})
    ensures AllAbove(after, added + {fact})
  {
    assert fact in {fact};
  }

  lemma CompactedSound(sizes: Sizes, order: seq<string>, entries: map<string, Entry>, key: string)
    requires Sound(sizes, order, entries) && key in entries
    ensures entries[key].facts != []
    ensures Sound(sizes, order, entries[key := Compacted(sizes, entries[key])])
    ensures Climbed(entries, entries[key := Compacted(sizes, entries[key])])
  {
    CompactedValid(sizes, key, entries[key]);
  }

  // ---------------------------------------------------------------- the log

  class WriteSet {
    const sizes: Sizes
    const registered: Option<set<string>>
    var order: seq<string>
    var entries: map<string, Entry>
    var closed: bool
    /** Every fact this log ever accepted. */
    ghost var added: set<WriteFact>

    ghost predicate Valid()
      reads this
    {
      && Sound(sizes, order, entries)
      && !OverBudget(order, entries)
      && AllAbove(entries, added)
      && Contained(registered, entries)
    }

    /** `snapshot`: the facts a later calculation sees. */
    function Snapshot(): seq<WriteFact>
      reads this
    {
      Flatten(order, entries)
    }

    constructor (sizes: Sizes, registered: Option<set<string>>)
      requires Plausible(sizes)
      ensures Valid() && added == {} && order == [] && !closed
      ensures this.sizes == sizes && this.registered == registered
    {
      this.sizes := sizes;
      this.registered := registered;
      order, entries, closed := [], map[], false;
      added := {};
    }

    method Fork() returns (child: Option<WriteSet>)
      requires Valid()
      ensures child.None? <==> closed
      ensures child.Some? ==>
        && fresh(child.value) && child.value.Valid() && child.value.Snapshot() == []
        && child.value.sizes == sizes && child.value.registered == registered && !child.value.closed
    {
      if closed {
        return None;
      }
      var made := new WriteSet(sizes, registered);
      return Some(made);
    }

    method Close()
      requires Valid()
      modifies this`closed
      ensures Valid() && closed
    {
      closed := true;
    }

    method MeasureOverBudget() returns (over: bool)
      requires Sound(sizes, order, entries)
      ensures over == OverBudget(order, entries)
    {
      hide Plausible, ValidEntry;
      var count, bytes := 0, 0;
      for i := 0 to |order|
        invariant count == FactCount(order[..i], entries) && bytes == ByteCount(order[..i], entries)
      {
        assert order[..i + 1][..i] == order[..i];
        count := count + |entries[order[i]].facts|;
        bytes := bytes + entries[order[i]].bytes;
      }
      assert order[..|order|] == order;
      over := count > FACT_LIMIT || bytes + count + 1 > FACT_BYTES;
    }

    /** The detailed entry with the most bytes, the earliest of equals; none only if all are summaries. */
    method FindLargest() returns (largest: Option<string>)
      requires Sound(sizes, order, entries)
      ensures largest.None? <==> forall key :: key in entries ==> entries[key].summarized
      ensures largest.Some? ==>
        && largest.value in entries && entries[largest.value].facts != [] && !entries[largest.value].summarized
        && IsHeaviest(order, entries, |order|, largest.value)
    {
      hide Plausible, ValidEntry, IsHeaviest;
      largest := None;
      for i := 0 to |order|
        invariant largest.None? <==> forall k :: 0 <= k < i ==> entries[order[k]].summarized
        invariant largest.Some? ==>
          && largest.value in order[..i] && !entries[largest.value].summarized
          && IsHeaviest(order, entries, i, largest.value)
      {
        var key := order[i];
        HeaviestSoFar(order, entries, i, if largest.Some? then largest.value else key);
        if !entries[key].summarized && (largest.None? || entries[key].bytes > entries[largest.value].bytes) {
          largest := Some(key);
        }
      }
      if largest.Some? {
        NoEmptyEntry(sizes, order, entries, largest.value);
      }
    }

    /** Why `add` refuses a fact, checked in this order; none when it is accepted. */
    function Refusal(fact: WriteFact): Option<string>
      reads this
    {
      if closed then Some("WRITE_CONTEXT_CLOSED")
      else if registered.Some? && fact.resource !in registered.value then Some("UNREGISTERED_RESOURCE")
      else if !(1 <= |fact.resource| <= NAME_LIMIT) then Some("INVALID_WRITE_FACT")
      else if fact.resource !in entries && |entries| >= RESOURCE_LIMIT then Some("RESOURCE_LIMIT")
      else None
    }

    /** A fact is accepted exactly if the log is open, knows its resource by a usable name and has room for it. */
    lemma RefusalExactly(fact: WriteFact)
      ensures Refusal(fact).None? <==>
        && !closed && (registered.Some? ==> fact.resource in registered.value) && 1 <= |fact.resource| <= 128
        && (fact.resource in entries || |entries| < 128)
      ensures Refusal(fact).Some? ==>
        Refusal(fact).value == if closed then "WRITE_CONTEXT_CLOSED"
          else if registered.Some? && fact.resource !in registered.value then "UNREGISTERED_RESOURCE"
          else if 1 <= |fact.resource| <= 128 then "RESOURCE_LIMIT" else "INVALID_WRITE_FACT"
    {
    }

    /** One fact: `add` refuses it and changes nothing, or takes it in and then reclaims space. */
    method AddOne(fact: WriteFact) returns (refusal: Option<string>)
      requires Valid()
      modifies this`order, this`entries, this`added
      ensures Valid()
      ensures refusal == old(Refusal(fact))
      ensures refusal.Some? ==> order == old(order) && entries == old(entries) && added == old(added)
      ensures refusal.None? ==> added == old(added) + {fact}
      ensures refusal.None? ==> order == OrderWith(old(order), old(entries), fact.resource)
      ensures refusal.None? ==> Reclaimed(sizes, order, Inserted(sizes, old(entries), fact), entries, fact.resource)
      ensures entries.Keys <= old(entries.Keys) + {fact.resource}
      ensures Climbed(old(entries), entries)
    {
      ClimbedReflexive(entries);
      hide Sound, AllAbove, Climbed, OverBudget, Reclaimed, Inserted, Refusal;
      refusal := Inspect(fact);
      if refusal.None? {
        Accepting(fact);
        ghost var previous := entries;
        Insert(fact);
        ghost var start := entries;
        Reclaim(fact.resource);
        ClimbedKeeps(start, entries, added);
        ClimbedTransitive(previous, start, entries);
        ReclaimedKeys(sizes, order, previous, fact, entries);
      }
    }

    lemma Accepting(fact: WriteFact)
      requires Valid() && Refusal(fact).None?
      ensures registered.Some? ==> fact.resource in registered.value
      ensures 1 <= |fact.resource| <= NAME_LIMIT && (fact.resource in entries || |order| < RESOURCE_LIMIT)
      ensures fact.resource in Inserted(sizes, entries, fact)
    {
      ListedSize(sizes, order, entries);
    }

    method Inspect(fact: WriteFact) returns (refusal: Option<string>)
      ensures refusal == Refusal(fact)
    {
      if closed {
        return Some("WRITE_CONTEXT_CLOSED");
      }
      if registered.Some? && fact.resource !in registered.value {
        return Some("UNREGISTERED_RESOURCE");
      }
      if !(1 <= |fact.resource| <= NAME_LIMIT) {
        return Some("INVALID_WRITE_FACT");
      }
      if fact.resource !in entries && |entries| >= RESOURCE_LIMIT {
        return Some("RESOURCE_LIMIT");
      }
      return None;
    }

    method Insert(fact: WriteFact)
      requires Sound(sizes, order, entries) && AllAbove(entries, added)
      requires 1 <= |fact.resource| <= NAME_LIMIT && (fact.resource in entries || |order| < RESOURCE_LIMIT)
      modifies this`order, this`entries, this`added
      ensures entries == Inserted(sizes, old(entries), fact)
      ensures order == OrderWith(old(order), old(entries), fact.resource)
      ensures added == old(added) + {fact}
      ensures Sound(sizes, order, entries) && AllAbove(entries, added) && Climbed(old(entries), entries)
    {
      hide Sound, Climbed, AllAbove, Inserted;
      InsertedIs(sizes, entries, fact);
      InsertedSound(sizes, order, entries, fact);
      InsertedClimbs(sizes, order, entries, fact);
      AddedAbove(entries, Inserted(sizes, entries, fact), added, fact);
      var key := fact.resource;
      var entry := if key in entries then entries[key] else Entry([], 0, false);
      if key !in entries {
        order := order + [key];
      }
      if entry.summarized {
        var summary := Summarize(sizes, entry.facts + [fact]);
        entries := entries[key := Entry([summary], FactBytes(sizes, summary), true)];
      } else {
        entries := entries[key := Entry(entry.facts + [fact], entry.bytes + FactBytes(sizes, fact), false)];
      }
      added := added + {fact};
    }

    /** The budget half of `add`. Its RESOURCE_LIMIT error cannot occur: 128 summaries always fit. */
    method Reclaim(key: string)
      requires Sound(sizes, order, entries) && key in entries
      modifies this`entries
      ensures Sound(sizes, order, entries) && !OverBudget(order, entries)
      ensures Climbed(old(entries), entries)
      ensures Reclaimed(sizes, order, old(entries), entries, key)
    {
      NoEmptyEntry(sizes, order, entries, key);
      hide Climbed, OverBudget, Compacting, Sound, Compacted;
      var over := MeasureOverBudget();
      if over && !entries[key].summarized && (|entries[key].facts| > 1 || entries[key].bytes > SUMMARY_BYTES) {
        Compact(key);
      } else {
        ClimbedReflexive(entries);
      }
      CompactLargest(old(entries));
    }

    /** The loop of `compact`: the largest detailed entry becomes a summary until both budgets hold. */
    method CompactLargest(ghost start: map<string, Entry>)
      requires Sound(sizes, order, entries) && Climbed(start, entries)
      modifies this`entries
      ensures Sound(sizes, order, entries) && !OverBudget(order, entries) && Climbed(start, entries)
      ensures Compacting(sizes, order, old(entries), entries)
    {
      hide Climbed, OverBudget, Compacting, Sound, Compacted, Detailed, IsHeaviest;
      CompactingStart(sizes, order, entries);
      var over := MeasureOverBudget();
      while over
        invariant Sound(sizes, order, entries) && Climbed(start, entries)
        invariant over == OverBudget(order, entries)
        invariant Compacting(sizes, order, old(entries), entries)
        decreases Detailed(order, entries)
      {
        var largest := FindLargest();
        if largest.None? {
          SummariesFit(sizes, order, entries);
          assert false;
        } else {
          CompactingStep(sizes, order, start, old(entries), entries, largest.value);
          Compact(largest.value);
          over := MeasureOverBudget();
        }
      }
    }

    method Compact(key: string)
      requires Sound(sizes, order, entries) && key in entries && entries[key].facts != []
      modifies this`entries
      ensures entries == old(entries)[key := Compacted(sizes, old(entries)[key])]
      ensures Sound(sizes, order, entries) && Climbed(old(entries), entries)
    {
      CompactedSound(sizes, order, entries, key);
      var summary := Summarize(sizes, entries[key].facts);
      entries := entries[key := Entry([summary], FactBytes(sizes, summary), true)];
    }

    lemma WelcomeIsAccepted(facts: seq<WriteFact>, fact: WriteFact)
      requires Welcome(closed, registered, facts) && fact in facts && Valid()
      ensures Refusal(fact).None?
    {
      hide Sound, AllAbove;
      if fact.resource !in entries {
        SubsetSize(entries.Keys + {fact.resource}, registered.value);
        assert |entries| == |entries.Keys|;
      }
    }

    /** `add`: facts go in one by one; the first refusal stops and keeps what went in before it. */
    method Add(facts: seq<WriteFact>) returns (refusal: Option<string>)
      requires Valid()
      modifies this`order, this`entries, this`added
      ensures Valid()
      ensures old(closed) ==> refusal == Some("WRITE_CONTEXT_CLOSED") && entries == old(entries)
      ensures Welcome(closed, registered, facts) ==> refusal.None?
      ensures refusal.None? ==> added == old(added) + (set fact | fact in facts)
      ensures old(added) <= added
      ensures Climbed(old(entries), entries)
    {
      ClimbedReflexive(entries);
      hide Valid, Climbed, Reclaimed, OrderWith, Refusal;
      if closed {
        return Some("WRITE_CONTEXT_CLOSED");
      }
      refusal := None;
      for i := 0 to |facts|
        invariant Valid()
        invariant refusal.None?
        invariant added == old(added) + (set fact | fact in facts[..i])
        invariant Climbed(old(entries), entries)
      {
        ghost var previous := entries;
        if Welcome(closed, registered, facts) {
          WelcomeIsAccepted(facts, facts[i]);
        }
        refusal := AddOne(facts[i]);
        ClimbedTransitive(old(entries), previous, entries);
        if refusal.Some? {
          return;
        }
        assert facts[..i + 1] == facts[..i] + [facts[i]];
      }
      assert facts[..|facts|] == facts;
    }

    /** What a fork holds is welcome where it came from. */
    lemma ForkIsWelcome(child: WriteSet)
      requires child.Valid() && child.registered == registered && registered.Some? && |registered.value| <= RESOURCE_LIMIT
      ensures Welcome(false, registered, child.Snapshot())
    {
      forall fact | fact in child.Snapshot()
        ensures fact.resource in registered.value && 1 <= |fact.resource| <= NAME_LIMIT
      {
        FlattenHolds(child.order, child.entries, fact);
      }
    }

    /**
     `merge`: everything the child accepted is from now on covered here. With at most 128 registered
     resources, only a closed log refuses its own fork.
     */
    method Merge(child: WriteSet) returns (refusal: Option<string>)
      requires Valid() && child.Valid() && child != this
      modifies this`order, this`entries, this`added
      ensures Valid()
      ensures closed ==> refusal.Some?
      ensures !closed && child.registered == registered && registered.Some? && |registered.value| <= RESOURCE_LIMIT ==>
        refusal.None?
      ensures refusal.None? ==> forall fact :: fact in child.added ==>
        fact.resource in entries && Above(entries[fact.resource].facts, fact)
      ensures old(added) <= added
    {
      if child.registered == registered && registered.Some? && |registered.value| <= RESOURCE_LIMIT {
        ForkIsWelcome(child);
      }
      refusal := Add(child.Snapshot());
      if refusal.None? {
        forall fact | fact in child.added
          ensures fact.resource in entries && Above(entries[fact.resource].facts, fact)
        {
          SnapshotCovers(child.order, child.entries, fact);
          var g :| g in child.Snapshot() && LeqFact(fact, g);
          assert g in added;
          var k :| 0 <= k < |entries[g.resource].facts| && LeqFact(g, entries[g.resource].facts[k]);
          LeqFactTransitive(fact, g, entries[g.resource].facts[k]);
        }
      }
    }
  }

  /** The entries once the written resource itself has been summarized, if the budget asks for it. */
  ghost function OwnFirst(sizes: Sizes, start: map<string, Entry>, order: seq<string>, key: string): map<string, Entry>
    requires key in start && start[key].facts != []
  {
    if OverBudget(order, start) && !start[key].summarized && (|start[key].facts| > 1 || start[key].bytes > SUMMARY_BYTES)
    then start[key := Compacted(sizes, start[key])]
    else start
  }

  ghost predicate Reclaimed(
    sizes: Sizes, order: seq<string>, start: map<string, Entry>, entries: map<string, Entry>, key: string)
  {
    && key in start && start[key].facts != []
    && Compacting(sizes, order, OwnFirst(sizes, start, order, key), entries) && !OverBudget(order, entries)
  }

  /** Over budget: more than 200 facts, or more than 131072 bytes with brackets and commas. */
  lemma OverBudgetExactly(sizes: Sizes, order: seq<string>, entries: map<string, Entry>)
    requires Sound(sizes, order, entries)
    ensures OverBudget(order, entries) <==>
      var facts := Flatten(order, entries);
      |facts| > 200 || TotalBytes(sizes, facts) + |facts| + 1 > 131072
  {
    FlattenSize(sizes, order, entries);
    hide Flatten, TotalBytes;
  }

  /**
   What a fact may cost the log: nothing while it stays within the budgets; otherwise its own resource is summarized
   first, unless it is one small fact or a summary already, and if that is enough nothing else is.
   */
  lemma OwnIsReclaimedFirst(
      sizes: Sizes, order: seq<string>, start: map<string, Entry>, entries: map<string, Entry>, key: string)
    requires Listed(order, start) && Reclaimed(sizes, order, start, entries, key) && forall k :: k in start ==> start[k].facts != []
    ensures !OverBudget(order, start) ==> entries == start
    ensures OverBudget(order, start) && !start[key].summarized && (|start[key].facts| > 1 || start[key].bytes > 768) ==>
      && entries[key] == Compacted(sizes, start[key])
      && (!OverBudget(order, start[key := Compacted(sizes, start[key])]) ==>
            forall other :: other in start && other != key ==> entries[other] == start[other])
  {
    hide OverBudget, Compacted;
    var own := OwnFirst(sizes, start, order, key);
    assert Listed(order, own);
    StageItself(sizes, order, own);
    SummarizedEntry(sizes, start, key);
    if own[key].summarized {
      StageKeepsSummary(sizes, order, own, entries, key);
    }
  }

  lemma StageItself(sizes: Sizes, order: seq<string>, own: map<string, Entry>)
    requires Listed(order, own) && forall k :: k in own ==> own[k].facts != []
    ensures CompactStage(sizes, order, own, own)
  {
    hide Compacted;
  }

  lemma StageKeepsSummary(sizes: Sizes, order: seq<string>, own: map<string, Entry>, entries: map<string, Entry>, key: string)
    requires CompactStage(sizes, order, own, entries) && key in own && own[key].summarized
    ensures entries[key] == own[key]
  {
    assert Replaced(sizes, own[key], entries[key]);
  }

  lemma SummarizedEntry(sizes: Sizes, start: map<string, Entry>, key: string)
    requires key in start && start[key].facts != []
    ensures Compacted(sizes, start[key]).summarized && Compacted(sizes, start[key]).facts != []
  {
    hide Summary;
  }

  /** The order of compaction: larger entries first, and of equal ones the earlier. */
  predicate Outweighs(left: Entry, i: nat, right: Entry, j: nat) {
    left.bytes > right.bytes || (left.bytes == right.bytes && i <= j)
  }

  /** No detailed entry among the first ones goes before that of the key. */
  ghost predicate IsHeaviest(order: seq<string>, entries: map<string, Entry>, count: nat, key: string) {
    forall i, j ::
      && 0 <= i < |order| && 0 <= j < |order| && j < count && order[i] == key
      && order[i] in entries && order[j] in entries && !entries[order[j]].summarized ==>
        Outweighs(entries[order[i]], i, entries[order[j]], j)
  }

  lemma HeaviestSoFar(order: seq<string>, entries: map<string, Entry>, i: nat, key: string)
    requires i < |order| && Listed(order, entries) && key in order[..i + 1]
    ensures IsHeaviest(order, entries, i, key) && (entries[order[i]].summarized || entries[order[i]].bytes <= entries[key].bytes) ==>
      IsHeaviest(order, entries, i + 1, key)
    ensures IsHeaviest(order, entries, i, key) && entries[order[i]].bytes > entries[key].bytes ==>
      IsHeaviest(order, entries, i + 1, order[i])
    ensures (forall k :: 0 <= k < i ==> entries[order[k]].summarized) ==> IsHeaviest(order, entries, i + 1, order[i])
  {
    var m :| 0 <= m <= i && order[m] == key;
  }

  predicate Replaced(sizes: Sizes, own: Entry, entry: Entry) {
    own.facts != [] && (entry == own || (!own.summarized && entry == Compacted(sizes, own)))
  }

  /** Entries are kept or replaced by their own summary, and what was replaced goes before what kept its detail. */
  ghost predicate CompactStage(sizes: Sizes, order: seq<string>, own: map<string, Entry>, entries: map<string, Entry>) {
    && Listed(order, own) && entries.Keys == own.Keys
    && (forall k :: k in own ==> Replaced(sizes, own[k], entries[k]))
    && forall i, j ::
         0 <= i < |order| && 0 <= j < |order| && entries[order[i]] != own[order[i]] && !entries[order[j]].summarized ==>
           Outweighs(own[order[i]], i, own[order[j]], j)
  }

  /** Compaction went on only while the budget was exceeded. */
  ghost predicate Compacting(sizes: Sizes, order: seq<string>, own: map<string, Entry>, entries: map<string, Entry>) {
    && CompactStage(sizes, order, own, entries)
    && forall earlier :: CompactStage(sizes, order, own, earlier) && CompactStage(sizes, order, earlier, entries) && earlier != entries ==>
         OverBudget(order, earlier)
  }

  lemma NoEmptyEntry(sizes: Sizes, order: seq<string>, entries: map<string, Entry>, key: string)
    ensures Sound(sizes, order, entries) && key in entries ==> entries[key].facts != []
  {
  }

  lemma ClimbedReflexive(entries: map<string, Entry>)
    ensures Climbed(entries, entries)
  {
  }

  lemma CompactingStart(sizes: Sizes, order: seq<string>, own: map<string, Entry>)
    ensures Sound(sizes, order, own) ==> Compacting(sizes, order, own, own)
  {
    hide Plausible, ValidEntry;
    if Sound(sizes, order, own) {
      forall k | k in own ensures own[k].facts != [] {
        NoEmptyEntry(sizes, order, own, k);
      }
      forall earlier | CompactStage(sizes, order, own, earlier) && CompactStage(sizes, order, earlier, own) ensures earlier == own {
        NothingCompacted(sizes, own, earlier);
      }
    }
  }

  lemma NothingCompacted(sizes: Sizes, own: map<string, Entry>, earlier: map<string, Entry>)
    requires own.Keys == earlier.Keys
    requires forall k :: k in own ==> Replaced(sizes, own[k], earlier[k])
    requires forall k :: k in own ==> Replaced(sizes, earlier[k], own[k])
    ensures earlier == own
  {
    forall k | k in own ensures earlier[k] == own[k] {
      assert Replaced(sizes, own[k], earlier[k]) && Replaced(sizes, earlier[k], own[k]);
    }
  }

  lemma SummariesFit(sizes: Sizes, order: seq<string>, entries: map<string, Entry>)
    requires Sound(sizes, order, entries)
    requires forall key :: key in entries ==> entries[key].summarized
    ensures !OverBudget(order, entries)
  {
    AllSummarizedFits(sizes, order, entries);
  }

  lemma CompactingStep(
      sizes: Sizes, order: seq<string>, start: map<string, Entry>, own: map<string, Entry>, entries: map<string, Entry>,
      key: string)
    requires Sound(sizes, order, entries) && Climbed(start, entries)
    requires Compacting(sizes, order, own, entries) && OverBudget(order, entries)
    requires key in entries && entries[key].facts != [] && !entries[key].summarized && IsHeaviest(order, entries, |order|, key)
    ensures Compacting(sizes, order, own, entries[key := Compacted(sizes, entries[key])])
    ensures Detailed(order, entries[key := Compacted(sizes, entries[key])]) < Detailed(order, entries)
    ensures Climbed(start, entries[key := Compacted(sizes, entries[key])])
  {
    hide Climbed, Compacting, IsHeaviest;
    CompactedSound(sizes, order, entries, key);
    DetailedDrops(order, entries, key, Compacted(sizes, entries[key]));
    NextCompact(sizes, order, own, entries, key);
    ClimbedTransitive(start, entries, entries[key := Compacted(sizes, entries[key])]);
  }

  lemma NextCompact(sizes: Sizes, order: seq<string>, own: map<string, Entry>, entries: map<string, Entry>, key: string)
    requires Compacting(sizes, order, own, entries) && OverBudget(order, entries)
    requires key in entries && entries[key].facts != [] && !entries[key].summarized && IsHeaviest(order, entries, |order|, key)
    ensures Compacting(sizes, order, own, entries[key := Compacted(sizes, entries[key])])
  {
    hide OverBudget, Outweighs;
    var after := entries[key := Compacted(sizes, entries[key])];
    SummarizedLast(sizes, order, own, entries, key);
    hide Compacted, Replaced, IsHeaviest;
    forall earlier | CompactStage(sizes, order, own, earlier) && CompactStage(sizes, order, earlier, after) && earlier != after
      ensures OverBudget(order, earlier)
    {
      CompactsAreOrdered(sizes, order, own, earlier, entries);
      if !CompactStage(sizes, order, earlier, entries) {
        BetweenCompacts(sizes, entries, earlier, key);
      }
    }
  }

  lemma SummarizedLast(
      sizes: Sizes, order: seq<string>, own: map<string, Entry>, entries: map<string, Entry>, key: string)
    requires CompactStage(sizes, order, own, entries)
    requires key in entries && entries[key].facts != [] && !entries[key].summarized && IsHeaviest(order, entries, |order|, key)
    ensures CompactStage(sizes, order, own, entries[key := Compacted(sizes, entries[key])])
  {
    hide Outweighs;
    var after := entries[key := Compacted(sizes, entries[key])];
    assert after[key].summarized && Replaced(sizes, own[key], entries[key]) && entries[key] == own[key];
    hide Compacted;
  }

  lemma BetweenCompacts(sizes: Sizes, entries: map<string, Entry>, earlier: map<string, Entry>, key: string)
    requires key in entries && entries[key].facts != [] && entries.Keys == earlier.Keys
    requires forall k :: k in entries ==>
      Replaced(sizes, entries[k], earlier[k]) && Replaced(sizes, earlier[k], entries[key := Compacted(sizes, entries[key])][k])
    ensures earlier == entries || earlier == entries[key := Compacted(sizes, entries[key])]
  {
    var after := entries[key := Compacted(sizes, entries[key])];
    hide Compacted;
    assert forall k :: k in entries && k != key ==> earlier[k] == entries[k];
    if earlier[key] == entries[key] {
      assert earlier == entries;
    } else {
      assert earlier == after;
    }
  }

  lemma CompactWithin(
      sizes: Sizes, order: seq<string>, own: map<string, Entry>, less: map<string, Entry>, more: map<string, Entry>)
    requires CompactStage(sizes, order, own, less) && CompactStage(sizes, order, own, more)
    requires forall k :: k in own && less[k] != own[k] ==> more[k] != own[k]
    ensures CompactStage(sizes, order, less, more)
  {
    hide Outweighs, Compacted, Replaced;
    forall k | k in own
      ensures Replaced(sizes, less[k], more[k])
      ensures less[k] != own[k] ==> more[k] == less[k]
      ensures !more[k].summarized ==> less[k] == own[k]
    {
      ReplacedWithin(sizes, own[k], less[k], more[k]);
    }
  }

  lemma ReplacedWithin(sizes: Sizes, own: Entry, less: Entry, more: Entry)
    requires Replaced(sizes, own, less) && Replaced(sizes, own, more) && (less != own ==> more != own)
    ensures Replaced(sizes, less, more) && (less != own ==> more == less) && (!more.summarized ==> less == own)
  {
  }

  /** The order is total, so the stages of compaction are too. */
  lemma CompactsAreOrdered(
      sizes: Sizes, order: seq<string>, own: map<string, Entry>, left: map<string, Entry>, right: map<string, Entry>)
    requires CompactStage(sizes, order, own, left) && CompactStage(sizes, order, own, right)
    ensures CompactStage(sizes, order, left, right) || CompactStage(sizes, order, right, left)
  {
    hide Compacted;
    if key :| key in own && left[key] != own[key] && right[key] == own[key] {
      assert Replaced(sizes, own[key], left[key]);
      var i :| 0 <= i < |order| && order[i] == key;
      forall k | k in own && right[k] != own[k] ensures left[k] != own[k] {
        assert Replaced(sizes, own[k], right[k]);
        var j :| 0 <= j < |order| && order[j] == k;
      }
      CompactWithin(sizes, order, own, right, left);
    } else {
      CompactWithin(sizes, order, own, left, right);
    }
  }

  /** The budgets leave no choice: one fact has one outcome. */
  lemma ReclaimedIsUnique(
      sizes: Sizes, order: seq<string>, start: map<string, Entry>, left: map<string, Entry>, right: map<string, Entry>, key: string)
    requires Reclaimed(sizes, order, start, left, key) && Reclaimed(sizes, order, start, right, key)
    ensures left == right
  {
    CompactsAreOrdered(sizes, order, OwnFirst(sizes, start, order, key), left, right);
    hide CompactStage, OverBudget;
  }

  lemma {:induction false} DistinctSize(order: seq<string>)
    requires forall i, j :: 0 <= i < j < |order| ==> order[i] != order[j]
    ensures |set key | key in order| == |order|
  {
    if order != [] {
      var shorter := order[..|order| - 1];
      DistinctSize(shorter);
      assert order == shorter + [order[|order| - 1]];
      assert (set key | key in order) == (set key | key in shorter) + {order[|order| - 1]};
    }
  }

  lemma ListedSize(sizes: Sizes, order: seq<string>, entries: map<string, Entry>)
    requires Sound(sizes, order, entries)
    ensures |order| == |entries|
  {
    DistinctSize(order);
    assert (set key | key in order) == entries.Keys;
  }

  lemma ListedExtends(order: seq<string>, entries: map<string, Entry>, key: string, entry: Entry)
    requires Listed(order, entries)
    ensures Listed(if key in entries then order else order + [key], entries[key := entry])
  {
  }

  /** Every accepted fact lies below a fact of the snapshot. */
  lemma SnapshotCovers(order: seq<string>, entries: map<string, Entry>, fact: WriteFact)
    requires Listed(order, entries)
    requires fact.resource in entries && Above(entries[fact.resource].facts, fact)
    ensures exists g :: g in Flatten(order, entries) && LeqFact(fact, g)
  {
    var facts := entries[fact.resource].facts;
    var k :| 0 <= k < |facts| && LeqFact(fact, facts[k]);
    FlattenHolds(order, entries, facts[k]);
    var i :| 0 <= i < |order| && order[i] == fact.resource;
    assert facts[k] in entries[order[i]].facts;
  }

  /**
   The log as an abstraction: whatever was ever added, each concrete write it stands for is still
   covered by a fact of the snapshot, and the snapshot is within both budgets.
   */
  lemma SnapshotKeepsWrites(log: WriteSet, resources: Resources, fact: WriteFact, w: RowWrite)
    requires log.Valid()
    requires fact in log.added && fact.resource in resources
    requires Covers(resources[fact.resource], fact, w)
    ensures exists g :: g in log.Snapshot() && Covers(resources[w.resource], g, w)
  {
    SnapshotCovers(log.order, log.entries, fact);
    var g :| g in log.Snapshot() && LeqFact(fact, g);
    LeqFactSound(resources[fact.resource], fact, g, w);
  }

  lemma SnapshotWithinBudget(log: WriteSet)
    requires log.Valid()
    ensures |log.Snapshot()| <= FACT_LIMIT
    ensures TotalBytes(log.sizes, log.Snapshot()) + |log.Snapshot()| + 1 <= FACT_BYTES
  {
    FlattenSize(log.sizes, log.order, log.entries);
  }
}
