/**
 The PostgreSQL observer trigger: the facts it records for one statement, and the collector table it
 keeps within its limits.
 */
module Observers {
  import opened Contracts
  import opened Facts
  import opened Reads

  // --------------------------------------------------------- statement facts

  datatype StatementKind = InsertStatement | UpdateStatement | DeleteStatement | TruncateStatement

  /** `columns` are captured for bindings; `certified` filter columns have a proven scalar equality. */
  datatype Observer = Observer(resource: Resource, columns: seq<string>, filters: seq<string>, certified: set<string>)

  function Captured(columns: seq<string>, row: Row): Record {
    map column | column in columns :: Col(row, column)
  }

  function CertifiedOf(filters: seq<string>, certified: set<string>): seq<string> {
    if filters == [] then []
    else (if filters[0] in certified then [filters[0]] else []) + CertifiedOf(filters[1..], certified)
  }

  function ScopeOf(resource: Resource, row: Row): Scalar {
    if resource.scopeColumn.Some? then Col(row, resource.scopeColumn.value) else Null
  }

  /** `rowState`: one row as seen by the observer. */
  function RowStateOf(observer: Observer, row: Row): RowState {
    Known(
      ScopeOf(observer.resource, row),
      Captured(observer.columns, row),
      if observer.filters == [] then None
      else Some(Captured(CertifiedOf(observer.filters, observer.certified), row)))
  }

  function Without(columns: seq<string>, dropped: string): seq<string> {
    if columns == [] then []
    else (if columns[0] == dropped then [] else [columns[0]]) + Without(columns[1..], dropped)
  }

  predicate Uniform(rows: seq<Row>, column: string) {
    forall i :: 0 <= i < |rows| ==> Col(rows[i], column) == Col(rows[0], column)
  }

  function UniformFields(columns: seq<string>, rows: seq<Row>): Record
    requires rows != []
  {
    map column | column in columns && Uniform(rows, column) :: Col(rows[0], column)
  }

  /** A single-column key cannot be common to a large batch. */
  function BatchColumns(resource: Resource, columns: seq<string>): seq<string> {
    if |resource.identity| == 1 then Without(columns, resource.identity[0]) else columns
  }

  /** `batchState`: what every row of a large statement has in common. */
  function BatchState(observer: Observer, rows: seq<Row>): RowState {
    var resource := observer.resource;
    var columns := BatchColumns(resource, observer.columns);
    var filters := BatchColumns(resource, observer.filters);
    if resource.scopeColumn.None? && columns == [] && filters == [] then Known(Null, map[], None)
    else if rows == [] then Absent
    else if resource.scopeColumn.None? || Uniform(rows, resource.scopeColumn.value) then
      Known(
        ScopeOf(resource, rows[0]),
        UniformFields(columns, rows),
        if filters == [] then None else Some(UniformFields(CertifiedOf(filters, observer.certified), rows)))
    else Unknown
  }

  function OldRows(effects: seq<RowWrite>): (rows: seq<Row>)
    ensures forall i :: 0 <= i < |effects| && effects[i].before.Some? ==> effects[i].before.value in rows
  {
    if effects == [] then []
    else (if effects[0].before.Some? then [effects[0].before.value] else []) + OldRows(effects[1..])
  }

  function NewRows(effects: seq<RowWrite>): (rows: seq<Row>)
    ensures forall i :: 0 <= i < |effects| && effects[i].after.Some? ==> effects[i].after.value in rows
  {
    if effects == [] then []
    else (if effects[0].after.Some? then [effects[0].after.value] else []) + NewRows(effects[1..])
  }

  function ChangedColumns(columns: seq<string>, before: Row, after: Row): seq<string> {
    if columns == [] then []
    else (if Differs(before, after, columns[0]) then [columns[0]] else []) + ChangedColumns(columns[1..], before, after)
  }

  function Blank(resource: string): WriteFact {
    WriteFact(resource, UnknownOperation, Unknown, Unknown, None)
  }

  /** What one row of a small update contributes: a pair on one key, or one side of a key change. */
  function UpdateFact(observer: Observer, w: RowWrite): seq<WriteFact> {
    match (w.before, w.after)
    case (Some(before), Some(after)) =>
      var changed := ChangedColumns(observer.resource.columns, before, after);
      if changed == [] then []
      else [WriteFact(w.resource, Update, RowStateOf(observer, before), RowStateOf(observer, after), Some(changed))]
    case (Some(before), None) => [WriteFact(w.resource, Update, RowStateOf(observer, before), Absent, None)]
    case (None, Some(after)) => [WriteFact(w.resource, Update, Absent, RowStateOf(observer, after), None)]
    case (None, None) => []
  }

  function SideFact(observer: Observer, kind: StatementKind, w: RowWrite): seq<WriteFact> {
    if kind.InsertStatement? && w.after.Some? then
      [WriteFact(w.resource, Insert, Absent, RowStateOf(observer, w.after.value), None)]
    else if kind.DeleteStatement? && w.before.Some? then
      [WriteFact(w.resource, Delete, RowStateOf(observer, w.before.value), Absent, None)]
    else if kind.UpdateStatement? then UpdateFact(observer, w)
    else []
  }

  function RowFacts(observer: Observer, kind: StatementKind, effects: seq<RowWrite>): seq<WriteFact> {
    if effects == [] then []
    else SideFact(observer, kind, effects[0]) + RowFacts(observer, kind, effects[1..])
  }

  /** The insertions of the trigger body for one statement on one resource. */
  function StatementFacts(observer: Observer, resource: string, kind: StatementKind, effects: seq<RowWrite>): seq<WriteFact> {
    match kind
    case TruncateStatement => [Blank(resource)]
    case InsertStatement =>
      if |NewRows(effects)| > FACT_LIMIT
      then [WriteFact(resource, UnknownOperation, Absent, BatchState(observer, NewRows(effects)), None)]
      else RowFacts(observer, kind, effects)
    case DeleteStatement =>
      if |OldRows(effects)| > FACT_LIMIT
      then [WriteFact(resource, UnknownOperation, BatchState(observer, OldRows(effects)), Absent, None)]
      else RowFacts(observer, kind, effects)
    case UpdateStatement =>
      if observer.resource.identity == [] then [Blank(resource)]
      else if |NewRows(effects)| > FACT_LIMIT
      then [WriteFact(
              resource, UnknownOperation, BatchState(observer, OldRows(effects)), BatchState(observer, NewRows(effects)), None)]
      else RowFacts(observer, kind, effects)
  }

  /** The rows a statement of this kind can touch, one write per key, over registered columns. */
  ghost predicate Consistent(observer: Observer, resource: string, kind: StatementKind, effects: seq<RowWrite>) {
    forall i :: 0 <= i < |effects| ==>
      && effects[i].resource == resource
      && (kind.InsertStatement? ==> effects[i].before.None?)
      && (kind.DeleteStatement? || kind.TruncateStatement? ==> effects[i].after.None?)
      && Typed(observer.resource, effects[i])
  }

  /** Versions of a row differ in registered columns only. */
  ghost predicate Typed(resource: Resource, w: RowWrite) {
    w.before.Some? && w.after.Some? ==>
      forall column :: Differs(w.before.value, w.after.value, column) ==> column in resource.columns
  }

  lemma {:induction false} CertifiedMeans(filters: seq<string>, certified: set<string>)
    ensures forall column :: column in CertifiedOf(filters, certified) <==> column in filters && column in certified
  {
    if filters != [] {
      CertifiedMeans(filters[1..], certified);
    }
  }

  /** A captured state stands for exactly the rows that agree on the scope, the columns and the certified filters. */
  lemma RowStateMeans(observer: Observer, row: Row, other: Row)
    ensures InState(observer.resource, RowStateOf(observer, row), Some(other)) <==>
      && (observer.resource.scopeColumn.Some? ==>
            Col(other, observer.resource.scopeColumn.value) == Col(row, observer.resource.scopeColumn.value))
      && forall column :: column in observer.columns || (column in observer.filters && column in observer.certified) ==>
           Col(other, column) == Col(row, column)
  {
    CertifiedMeans(observer.filters, observer.certified);
    var state := RowStateOf(observer, row);
    if InState(observer.resource, state, Some(other)) {
      forall column | column in observer.columns ensures Col(other, column) == Col(row, column) {
        assert column in state.fields;
      }
      forall column | column in observer.filters && column in observer.certified
        ensures Col(other, column) == Col(row, column)
      {
        assert column in state.equality.value;
      }
    }
  }

  lemma RowStateAdmits(observer: Observer, row: Row)
    ensures InState(observer.resource, RowStateOf(observer, row), Some(row))
  {
    RowStateMeans(observer, row, row);
  }

  /** The listed columns are exactly those that differ. */
  lemma {:induction false} ChangedColumnsAll(columns: seq<string>, before: Row, after: Row)
    ensures forall column ::
      column in ChangedColumns(columns, before, after) <==> column in columns && Differs(before, after, column)
  {
    if columns != [] {
      ChangedColumnsAll(columns[1..], before, after);
    }
  }

  lemma {:induction false} WithoutMeans(columns: seq<string>, dropped: string)
    ensures forall column :: column in Without(columns, dropped) <==> column in columns && column != dropped
  {
    if columns != [] {
      WithoutMeans(columns[1..], dropped);
    }
  }

  /** Common to a batch may be any observed column but a single-column key. */
  ghost predicate Shareable(resource: Resource, columns: seq<string>, column: string) {
    column in columns && (|resource.identity| == 1 ==> column != resource.identity[0])
  }

  lemma BatchColumnsMean(resource: Resource, columns: seq<string>)
    ensures forall column :: column in BatchColumns(resource, columns) <==> Shareable(resource, columns, column)
    ensures BatchColumns(resource, columns) != [] <==> exists column :: Shareable(resource, columns, column)
  {
    if |resource.identity| == 1 {
      WithoutMeans(columns, resource.identity[0]);
    }
    HasFirst(BatchColumns(resource, columns));
    hide BatchColumns;
  }

  lemma HasFirst(columns: seq<string>)
    ensures columns != [] ==> exists column :: column in columns
  {
    assert columns != [] ==> columns[0] in columns;
  }

  /** A batch summary is the tightest state over the shareable columns that admits every row. */
  lemma BatchIsLeast(observer: Observer, rows: seq<Row>, high: RowState)
    requires rows != [] && high.Known?
    requires forall row :: row in rows ==> InState(observer.resource, high, Some(row))
    requires observer.resource.scopeColumn.None? ==> high.scope.Null?
    requires forall column :: column in high.fields ==> Shareable(observer.resource, observer.columns, column)
    requires high.equality.Some? ==> exists column :: Shareable(observer.resource, observer.filters, column)
    requires high.equality.Some? ==> forall column :: column in high.equality.value ==>
      Shareable(observer.resource, observer.filters, column) && column in observer.certified
    ensures LeqRow(BatchState(observer, rows), high)
  {
    BatchColumnsMean(observer.resource, observer.columns);
    BatchColumnsMean(observer.resource, observer.filters);
    hide BatchColumns, Shareable;
    CertifiedMeans(BatchColumns(observer.resource, observer.filters), observer.certified);
    assert forall i :: 0 <= i < |rows| ==> rows[i] in rows;
    if observer.resource.scopeColumn.Some? {
      assert forall i :: 0 <= i < |rows| ==> Col(rows[i], observer.resource.scopeColumn.value) == high.scope;
    }
    forall column | column in high.fields
      ensures Uniform(rows, column) && Col(rows[0], column) == high.fields[column]
    {
      assert forall i :: 0 <= i < |rows| ==> Col(rows[i], column) == high.fields[column];
    }
    if high.equality.Some? {
      forall column | column in high.equality.value
        ensures Uniform(rows, column) && Col(rows[0], column) == high.equality.value[column]
      {
        assert forall i :: 0 <= i < |rows| ==> Col(rows[i], column) == high.equality.value[column];
      }
    }
  }

  lemma BatchAdmits(observer: Observer, rows: seq<Row>, row: Option<Row>)
    requires row.Some? ==> row.value in rows
    ensures InState(observer.resource, BatchState(observer, rows), row)
  {
    if row.Some? {
      var i :| 0 <= i < |rows| && rows[i] == row.value;
      assert forall column :: Uniform(rows, column) ==> Col(rows[i], column) == Col(rows[0], column);
    }
  }

  lemma {:induction false} RowFactsHas(observer: Observer, kind: StatementKind, effects: seq<RowWrite>, i: nat)
    requires i < |effects|
    ensures forall fact :: fact in SideFact(observer, kind, effects[i]) ==> fact in RowFacts(observer, kind, effects)
  {
    if i > 0 {
      RowFactsHas(observer, kind, effects[1..], i - 1);
    }
  }

  lemma UpdateFactCovers(observer: Observer, w: RowWrite)
    requires Typed(observer.resource, w)
    requires w.before.Some? || w.after.Some?
    requires w.before.Some? && w.after.Some? ==> exists column :: Differs(w.before.value, w.after.value, column)
    ensures exists fact :: fact in UpdateFact(observer, w) && Covers(observer.resource, fact, w)
  {
    if w.before.Some? && w.after.Some? {
      var before, after := w.before.value, w.after.value;
      ChangedColumnsAll(observer.resource.columns, before, after);
      var column :| Differs(before, after, column);
      assert column in ChangedColumns(observer.resource.columns, before, after);
      RowStateAdmits(observer, before);
      RowStateAdmits(observer, after);
      assert Covers(observer.resource, UpdateFact(observer, w)[0], w);
    } else if w.before.Some? {
      RowStateAdmits(observer, w.before.value);
      assert Covers(observer.resource, UpdateFact(observer, w)[0], w);
    } else {
      RowStateAdmits(observer, w.after.value);
      assert Covers(observer.resource, UpdateFact(observer, w)[0], w);
    }
  }

  /** A rewrite that changes no column is not observed, and is no change to any read. */
  predicate Visibly(w: RowWrite) {
    (w.before.Some? || w.after.Some?) && !(w.before.Some? && w.after.Some? && SameRow(w.before.value, w.after.value))
  }

  predicate SameRow(before: Row, after: Row) {
    (forall column :: column in before ==> Col(before, column) == Col(after, column))
    && forall column :: column in after ==> Col(before, column) == Col(after, column)
  }

  lemma SameRowMeaning(before: Row, after: Row)
    ensures SameRow(before, after) <==> !exists column :: Differs(before, after, column)
  {
    if !SameRow(before, after) {
      if column :| column in before && Col(before, column) != Col(after, column) {
        assert Differs(before, after, column);
      } else {
        var column :| column in after && Col(before, column) != Col(after, column);
        assert Differs(before, after, column);
      }
    } else {
      forall column | Differs(before, after, column) ensures false {
        if column in before {
        } else if column in after {
        }
      }
    }
  }

  lemma Witness(facts: seq<WriteFact>, resource: Resource, fact: WriteFact, w: RowWrite)
    requires fact in facts && Covers(resource, fact, w)
    ensures exists recorded :: recorded in facts && Covers(resource, recorded, w)
  {
  }

  /** Every visible row effect of an observed statement is covered by one of the facts it records. */
  lemma StatementIsCovered(observer: Observer, resource: string, kind: StatementKind, effects: seq<RowWrite>, i: nat)
    requires Consistent(observer, resource, kind, effects)
    requires i < |effects| && Visibly(effects[i])
    ensures exists fact :: fact in StatementFacts(observer, resource, kind, effects) && Covers(observer.resource, fact, effects[i])
  {
    var w := effects[i];
    var facts := StatementFacts(observer, resource, kind, effects);
    if w.before.Some? && w.after.Some? {
      SameRowMeaning(w.before.value, w.after.value);
    }
    BatchAdmits(observer, OldRows(effects), w.before);
    BatchAdmits(observer, NewRows(effects), w.after);
    if facts == RowFacts(observer, kind, effects) && !kind.TruncateStatement? {
      RowFactsHas(observer, kind, effects, i);
      RowIsCovered(observer, kind, w);
      var fact :| fact in SideFact(observer, kind, w) && Covers(observer.resource, fact, w);
      Witness(facts, observer.resource, fact, w);
    } else {
      assert facts[0] in facts;
      assert Covers(observer.resource, facts[0], w);
    }
  }

  lemma RowIsCovered(observer: Observer, kind: StatementKind, w: RowWrite)
    requires Typed(observer.resource, w) && !kind.TruncateStatement?
    requires w.before.Some? || w.after.Some?
    requires kind.InsertStatement? ==> w.before.None?
    requires kind.DeleteStatement? ==> w.after.None?
    requires w.before.Some? && w.after.Some? ==> exists column :: Differs(w.before.value, w.after.value, column)
    ensures exists fact :: fact in SideFact(observer, kind, w) && Covers(observer.resource, fact, w)
  {
    match kind
    case UpdateStatement => UpdateFactCovers(observer, w);
    case InsertStatement =>
      RowStateAdmits(observer, w.after.value);
      assert Covers(observer.resource, SideFact(observer, kind, w)[0], w);
    case DeleteStatement =>
      RowStateAdmits(observer, w.before.value);
      assert Covers(observer.resource, SideFact(observer, kind, w)[0], w);
  }
}
