/** The PostgreSQL collector's compaction loop: rows of one token, kept within 200 rows and 128 KiB. */
module Collectors {
  import opened Contracts
  import opened Facts
  import opened Observers

  /** Text size of the state columns of one collector row. */
  type Measure = WriteFact -> nat

  /** Two `{"kind": "unknown"}` texts and no changed columns. */
  ghost predicate Honest(measure: Measure) {
    forall resource: string :: measure(Blank(resource)) == 38
  }

  const SMALL_ROW := 64

  function Bytes(measure: Measure, rows: seq<WriteFact>): nat {
    if rows == [] then 0 else measure(rows[0]) + Bytes(measure, rows[1..])
  }

  /** `where resource = ...`: the rows of one group, in table order. */
  function Group(rows: seq<WriteFact>, resource: string): (group: seq<WriteFact>)
    ensures |group| <= |rows|
    ensures forall row :: row in group <==> row in rows && row.resource == resource
  {
    if rows == [] then []
    else (if rows[0].resource == resource then [rows[0]] else []) + Group(rows[1..], resource)
  }

  function Others(rows: seq<WriteFact>, resource: string): (others: seq<WriteFact>)
    ensures |others| <= |rows|
    ensures forall row :: row in others <==> row in rows && row.resource != resource
  {
    if rows == [] then []
    else (if rows[0].resource == resource then [] else [rows[0]]) + Others(rows[1..], resource)
  }

  predicate Over(measure: Measure, rows: seq<WriteFact>) {
    |rows| > FACT_LIMIT || Bytes(measure, rows) > FACT_BYTES
  }

  /** The groups a round may still replace: more than one row, or more than 64 bytes. */
  predicate Reducible(measure: Measure, rows: seq<WriteFact>, resource: string) {
    |Group(rows, resource)| > 1 || Bytes(measure, Group(rows, resource)) > SMALL_ROW
  }

  ghost function ReducibleSet(measure: Measure, rows: seq<WriteFact>): set<string> {
    set row | row in rows && Reducible(measure, rows, row.resource) :: row.resource
  }

  /** One round: the group is deleted and a row that stands for anything takes its place. */
  function Replaced(rows: seq<WriteFact>, resource: string): seq<WriteFact> {
    Others(rows, resource) + [Blank(resource)]
  }

  /** Every earlier row is below a later one. */
  ghost predicate Absorbed(before: seq<WriteFact>, after: seq<WriteFact>) {
    forall low :: low in before ==> exists high :: high in after && LeqFact(low, high)
  }

  ghost predicate Within(rows: seq<WriteFact>, registered: set<string>) {
    forall row :: row in rows ==> row.resource in registered
  }

  lemma {:induction false} GroupConcat(left: seq<WriteFact>, right: seq<WriteFact>, resource: string)
    ensures Group(left + right, resource) == Group(left, resource) + Group(right, resource)
  {
    if left == [] {
      assert left + right == right;
    } else {
      assert (left + right)[1..] == left[1..] + right;
      GroupConcat(left[1..], right, resource);
    }
  }

  lemma {:induction false} GroupOfOthers(rows: seq<WriteFact>, dropped: string, resource: string)
    ensures Group(Others(rows, dropped), resource) == if resource == dropped then [] else Group(rows, resource)
  {
    if rows != [] {
      GroupOfOthers(rows[1..], dropped, resource);
      var head := if rows[0].resource == dropped then [] else [rows[0]];
      GroupConcat(head, Others(rows[1..], dropped), resource);
    }
  }

  lemma GroupReplaced(rows: seq<WriteFact>, dropped: string, resource: string)
    ensures Group(Replaced(rows, dropped), resource) == if resource == dropped then [Blank(dropped)] else Group(rows, resource)
  {
    GroupConcat(Others(rows, dropped), [Blank(dropped)], resource);
    GroupOfOthers(rows, dropped, resource);
    assert [Blank(dropped)][1..] == [];
  }

  /** A replaced group is one small row: it is never chosen again, so the loop ends. */
  lemma ReplacedShrinks(measure: Measure, rows: seq<WriteFact>, resource: string)
    requires Honest(measure) && Reducible(measure, rows, resource) && Group(rows, resource) != []
    ensures ReducibleSet(measure, Replaced(rows, resource)) < ReducibleSet(measure, rows)
  {
    var after := Replaced(rows, resource);
    GroupReplaced(rows, resource, resource);
    assert [Blank(resource)][1..] == [];
    assert Bytes(measure, [Blank(resource)]) == 38;
    forall r | r in ReducibleSet(measure, after) ensures r in ReducibleSet(measure, rows) {
      var row :| row in after && Reducible(measure, after, row.resource) && row.resource == r;
      GroupReplaced(rows, resource, r);
    }
    var first := Group(rows, resource)[0];
    assert first in Group(rows, resource) && first in rows;
    assert resource in ReducibleSet(measure, rows);
  }

  lemma ReplacedAbsorbs(before: seq<WriteFact>, rows: seq<WriteFact>, resource: string)
    requires Absorbed(before, rows)
    ensures Absorbed(before, Replaced(rows, resource))
  {
    forall low | low in before ensures exists high :: high in Replaced(rows, resource) && LeqFact(low, high) {
      var high :| high in rows && LeqFact(low, high);
      if high.resource == resource {
        assert LeqFact(low, Blank(resource)) && Blank(resource) in Replaced(rows, resource);
      } else {
        assert high in Replaced(rows, resource);
      }
    }
  }

  lemma {:induction false} SingleRows(measure: Measure, rows: seq<WriteFact>, registered: set<string>)
    requires Within(rows, registered)
    requires forall row :: row in rows ==> |Group(rows, row.resource)| <= 1
    requires forall row :: row in rows ==> measure(row) <= SMALL_ROW
    ensures |rows| <= |registered|
    ensures Bytes(measure, rows) <= SMALL_ROW * |rows|
  {
    if rows != [] {
      var resource := rows[0].resource;
      assert rows[0] in rows;
      assert Group(rows, resource) == [rows[0]] + Group(rows[1..], resource);
      assert Group(rows[1..], resource) == [];
      forall row | row in rows[1..] ensures row.resource in registered - {resource} && |Group(rows[1..], row.resource)| <= 1 {
        assert row in rows;
      }
      SingleRows(measure, rows[1..], registered - {resource});
    }
  }

  lemma BytesOfSingle(measure: Measure, group: seq<WriteFact>, row: WriteFact)
    requires row in group && |group| <= 1
    ensures Bytes(measure, group) == measure(row)
  {
    assert group[1..] == [];
  }

  /** With nothing left to replace and at most 128 resources, both budgets hold. */
  lemma IrreducibleFits(measure: Measure, rows: seq<WriteFact>, registered: set<string>)
    requires Within(rows, registered) && |registered| <= RESOURCE_LIMIT
    requires forall row :: row in rows ==> !Reducible(measure, rows, row.resource)
    ensures !Over(measure, rows)
  {
    forall row | row in rows ensures measure(row) <= SMALL_ROW {
      BytesOfSingle(measure, Group(rows, row.resource), row);
    }
    SingleRows(measure, rows, registered);
  }

  function Weight(measure: Measure, rows: seq<WriteFact>, resource: string): nat {
    Bytes(measure, Group(rows, resource))
  }

  ghost predicate Heaviest(measure: Measure, rows: seq<WriteFact>, seen: seq<WriteFact>, chosen: Option<string>) {
    match chosen
    case None => forall row :: row in seen ==> !Reducible(measure, rows, row.resource)
    case Some(resource) =>
      && (exists row :: row in seen && row.resource == resource)
      && Reducible(measure, rows, resource)
      && forall row :: row in seen && Reducible(measure, rows, row.resource) ==>
           Weight(measure, rows, row.resource) <= Weight(measure, rows, resource)
  }

  /** The heaviest group among the first rows, the earliest of equals. */
  function ChosenIn(measure: Measure, rows: seq<WriteFact>, count: nat): Option<string>
    requires count <= |rows|
  {
    if count == 0 then None
    else
      var before := ChosenIn(measure, rows, count - 1);
      var resource := rows[count - 1].resource;
      if Reducible(measure, rows, resource)
         && (before.None? || Weight(measure, rows, resource) > Weight(measure, rows, before.value))
      then Some(resource) else before
  }

  lemma {:induction false} ChosenIsHeaviest(measure: Measure, rows: seq<WriteFact>, count: nat)
    requires count <= |rows|
    ensures Heaviest(measure, rows, rows[..count], ChosenIn(measure, rows, count))
  {
    hide Reducible, Weight;
    if count > 0 {
      ChosenIsHeaviest(measure, rows, count - 1);
      assert rows[..count] == rows[..count - 1] + [rows[count - 1]];
      assert rows[count - 1] in rows[..count];
    }
  }

  /** The group with the most bytes among those that may be replaced; none if there is none. */
  method Choose(measure: Measure, rows: seq<WriteFact>) returns (chosen: Option<string>)
    ensures Heaviest(measure, rows, rows, chosen) && chosen == ChosenIn(measure, rows, |rows|)
  {
    hide Reducible, Weight;
    chosen := None;
    for i := 0 to |rows|
      invariant Heaviest(measure, rows, rows[..i], chosen) && chosen == ChosenIn(measure, rows, i)
    {
      var resource := rows[i].resource;
      assert rows[..i + 1] == rows[..i] + [rows[i]];
      assert rows[i] in rows[..i + 1];
      if Reducible(measure, rows, resource)
         && (chosen.None? || Weight(measure, rows, resource) > Weight(measure, rows, chosen.value)) {
        chosen := Some(resource);
      }
    }
    assert rows[..|rows|] == rows;
  }

  /** Each group is as it was, or is now the one row that stands for anything. */
  ghost predicate GroupsKept(before: seq<WriteFact>, after: seq<WriteFact>) {
    forall resource ::
      || Group(after, resource) == Group(before, resource)
      || (Group(before, resource) != [] && Group(after, resource) == [Blank(resource)])
  }

  lemma GroupsKeptStep(before: seq<WriteFact>, rows: seq<WriteFact>, resource: string)
    requires GroupsKept(before, rows) && Group(rows, resource) != []
    ensures GroupsKept(before, Replaced(rows, resource))
  {
    forall r ensures Group(Replaced(rows, resource), r) == if r == resource then [Blank(r)] else Group(rows, r) {
      GroupReplaced(rows, resource, r);
    }
  }

  lemma AbsorbedStart(rows: seq<WriteFact>)
    ensures Absorbed(rows, rows) && GroupsKept(rows, rows)
  {
    forall low | low in rows ensures LeqFact(low, low) {
    }
  }

  lemma ReplacedWithin(rows: seq<WriteFact>, resource: string, registered: set<string>)
    requires Within(rows, registered) && exists row :: row in rows && row.resource == resource
    ensures Within(Replaced(rows, resource), registered)
    ensures Group(rows, resource) != []
  {
    var row :| row in rows && row.resource == resource;
    assert row in Group(rows, resource);
  }

  lemma ChosenShrinks(measure: Measure, rows: seq<WriteFact>)
    requires Honest(measure)
    ensures var chosen := ChosenIn(measure, rows, |rows|);
      chosen.Some? ==> ReducibleSet(measure, Replaced(rows, chosen.value)) < ReducibleSet(measure, rows)
  {
    ChosenIsHeaviest(measure, rows, |rows|);
    assert rows[..|rows|] == rows;
    var chosen := ChosenIn(measure, rows, |rows|);
    if chosen.Some? {
      var row :| row in rows && row.resource == chosen.value;
      assert row in Group(rows, chosen.value);
      ReplacedShrinks(measure, rows, chosen.value);
    }
  }

  /** What the loop leaves of the collector. */
  ghost function Settled(measure: Measure, rows: seq<WriteFact>): seq<WriteFact>
    requires Honest(measure)
    decreases ReducibleSet(measure, rows)
  {
    var chosen := ChosenIn(measure, rows, |rows|);
    if Over(measure, rows) && chosen.Some? then
      ChosenShrinks(measure, rows);
      Settled(measure, Replaced(rows, chosen.value))
    else rows
  }

  /** The loop never drops a fact: each stays below a row that remains. */
  lemma {:induction false} SettledAbsorbs(measure: Measure, start: seq<WriteFact>, rows: seq<WriteFact>)
    requires Honest(measure) && Absorbed(start, rows)
    ensures Absorbed(start, Settled(measure, rows))
    decreases ReducibleSet(measure, rows)
  {
    hide Absorbed, Replaced, Over;
    var chosen := ChosenIn(measure, rows, |rows|);
    if Over(measure, rows) && chosen.Some? {
      ChosenShrinks(measure, rows);
      ReplacedAbsorbs(start, rows, chosen.value);
      SettledAbsorbs(measure, start, Replaced(rows, chosen.value));
    }
  }

  /**
   The loop at the end of the trigger body. It always ends within both budgets; SDI_COLLECTOR_LIMIT
   cannot be raised; a group either keeps all its rows or is the one row that stands for anything.
   */
  method Compact(measure: Measure, rows: seq<WriteFact>, registered: set<string>) returns (compacted: seq<WriteFact>)
    requires Honest(measure) && Within(rows, registered) && |registered| <= RESOURCE_LIMIT
    ensures !Over(measure, compacted) && Within(compacted, registered)
    ensures Absorbed(rows, compacted) && GroupsKept(rows, compacted)
    ensures !Over(measure, rows) ==> compacted == rows
    ensures compacted == Settled(measure, rows)
  {
    compacted := rows;
    AbsorbedStart(rows);
    hide Absorbed, GroupsKept, Within, Over, Reducible, Replaced;
    while Over(measure, compacted)
      invariant Within(compacted, registered)
      invariant Absorbed(rows, compacted) && GroupsKept(rows, compacted)
      invariant !Over(measure, rows) ==> compacted == rows
      invariant Settled(measure, compacted) == Settled(measure, rows)
      decreases ReducibleSet(measure, compacted)
    {
      var chosen := Choose(measure, compacted);
      if chosen.None? {
        IrreducibleFits(measure, compacted, registered);
        assert false;
      } else {
        ReplacedWithin(compacted, chosen.value, registered);
        ReplacedShrinks(measure, compacted, chosen.value);
        ReplacedAbsorbs(rows, compacted, chosen.value);
        GroupsKeptStep(rows, compacted, chosen.value);
        compacted := Replaced(compacted, chosen.value);
      }
    }
  }
}
