/** What the observers record is no looser than it has to be: which facts a statement leaves, and what they stand for. */
module Recordings {
  import opened Contracts
  import opened Facts
  import opened Reads
  import opened Observers
  import opened Collectors
  import opened SqliteCollectors

  /** The state stands for exactly the rows that agree with this one where the observer looks; for no row only if there is none. */
  ghost predicate StandsFor(observer: Observer, state: RowState, row: Option<Row>) {
    if row.None? then state.Absent?
    else
      state.Known? && forall other: Row ::
        InState(observer.resource, state, Some(other)) <==>
          && (observer.resource.scopeColumn.Some? ==>
                Col(other, observer.resource.scopeColumn.value) == Col(row.value, observer.resource.scopeColumn.value))
          && forall column :: column in observer.columns || (column in observer.filters && column in observer.certified) ==>
               Col(other, column) == Col(row.value, column)
  }

  predicate IsOperation(kind: StatementKind, operation: Operation) {
    match kind
    case InsertStatement => operation.Insert?
    case UpdateStatement => operation.Update?
    case DeleteStatement => operation.Delete?
    case TruncateStatement => false
  }

  /** One fact for one row effect: both sides as observed and, where both are there, the columns that differ. */
  ghost predicate Describes(observer: Observer, kind: StatementKind, w: RowWrite, fact: WriteFact) {
    && fact.resource == w.resource && IsOperation(kind, fact.operation)
    && StandsFor(observer, fact.before, w.before) && StandsFor(observer, fact.after, w.after)
    && (if w.before.Some? && w.after.Some?
        then fact.changed.Some? && forall column :: column in fact.changed.value <==>
          column in observer.resource.columns && Differs(w.before.value, w.after.value, column)
        else fact.changed.None?)
  }

  /** Few enough rows, and rows that can be told apart where they are updated. */
  predicate RowByRow(observer: Observer, kind: StatementKind, effects: seq<RowWrite>) {
    match kind
    case TruncateStatement => false
    case InsertStatement => |NewRows(effects)| <= FACT_LIMIT
    case DeleteStatement => |OldRows(effects)| <= FACT_LIMIT
    case UpdateStatement => observer.resource.identity != [] && |NewRows(effects)| <= FACT_LIMIT
  }

  lemma RowStandsFor(observer: Observer, row: Row)
    ensures StandsFor(observer, RowStateOf(observer, row), Some(row))
  {
    forall other: Row ensures InState(observer.resource, RowStateOf(observer, row), Some(other)) <==>
        && (observer.resource.scopeColumn.Some? ==>
              Col(other, observer.resource.scopeColumn.value) == Col(row, observer.resource.scopeColumn.value))
        && forall column :: column in observer.columns || (column in observer.filters && column in observer.certified) ==>
             Col(other, column) == Col(row, column)
    {
      RowStateMeans(observer, row, other);
    }
    hide InState, Col;
  }

  /** What a row effect that changes something registered leaves behind is one fact that describes it. */
  lemma SideExactly(observer: Observer, kind: StatementKind, w: RowWrite)
    requires Consistent(observer, w.resource, kind, [w]) && !kind.TruncateStatement? && Visibly(w)
    ensures |SideFact(observer, kind, w)| == 1 && Describes(observer, kind, w, SideFact(observer, kind, w)[0])
  {
    var effects := [w];
    assert Typed(observer.resource, effects[0]) && effects[0] == w;
    if w.before.Some? {
      RowStandsFor(observer, w.before.value);
    }
    if w.after.Some? {
      RowStandsFor(observer, w.after.value);
    }
    if w.before.Some? && w.after.Some? {
      SameRowMeaning(w.before.value, w.after.value);
      ChangedColumnsAll(observer.resource.columns, w.before.value, w.after.value);
      var column :| Differs(w.before.value, w.after.value, column);
      assert column in ChangedColumns(observer.resource.columns, w.before.value, w.after.value);
    }
    hide StandsFor, RowStateOf, ChangedColumns, Differs;
  }

  lemma NotVisibleLeavesNothing(observer: Observer, kind: StatementKind, w: RowWrite)
    requires Consistent(observer, w.resource, kind, [w]) && !kind.TruncateStatement? && !Visibly(w)
    ensures SideFact(observer, kind, w) == []
  {
    if w.before.Some? && w.after.Some? {
      SameRowMeaning(w.before.value, w.after.value);
      ChangedColumnsAll(observer.resource.columns, w.before.value, w.after.value);
      HasFirst(ChangedColumns(observer.resource.columns, w.before.value, w.after.value));
    }
    var effects := [w];
    assert effects[0] == w;
  }

  ghost predicate HasFact(observer: Observer, kind: StatementKind, w: RowWrite, facts: seq<WriteFact>) {
    exists fact :: fact in facts && Describes(observer, kind, w, fact)
  }

  ghost predicate HasEffect(observer: Observer, kind: StatementKind, effects: seq<RowWrite>, fact: WriteFact) {
    exists i :: 0 <= i < |effects| && Visibly(effects[i]) && Describes(observer, kind, effects[i], fact)
  }

  /** The facts are those that describe a visible effect, and every visible effect has one. */
  ghost predicate FactsAre(observer: Observer, kind: StatementKind, effects: seq<RowWrite>, facts: seq<WriteFact>) {
    && (forall i :: 0 <= i < |effects| && Visibly(effects[i]) ==> HasFact(observer, kind, effects[i], facts))
    && forall fact :: fact in facts ==> HasEffect(observer, kind, effects, fact)
  }

  lemma MoreFacts(observer: Observer, kind: StatementKind, w: RowWrite, own: seq<WriteFact>, facts: seq<WriteFact>)
    ensures HasFact(observer, kind, w, own) || HasFact(observer, kind, w, facts) ==> HasFact(observer, kind, w, own + facts)
  {
  }

  lemma MoreEffects(observer: Observer, kind: StatementKind, first: RowWrite, rest: seq<RowWrite>, fact: WriteFact)
    ensures HasEffect(observer, kind, rest, fact) ==> HasEffect(observer, kind, [first] + rest, fact)
    ensures Visibly(first) && Describes(observer, kind, first, fact) ==> HasEffect(observer, kind, [first] + rest, fact)
  {
    hide Describes, Visibly;
    var effects := [first] + rest;
    if i :| 0 <= i < |rest| && Visibly(rest[i]) && Describes(observer, kind, rest[i], fact) {
      assert effects[i + 1] == rest[i];
    }
    assert effects[0] == first;
  }

  lemma OwnFact(observer: Observer, kind: StatementKind, w: RowWrite, fact: WriteFact)
    ensures Describes(observer, kind, w, fact) ==> HasFact(observer, kind, w, [fact])
  {
    hide Describes;
    assert fact in [fact];
  }

  lemma FactsThen(
      observer: Observer, kind: StatementKind, first: RowWrite, rest: seq<RowWrite>, own: seq<WriteFact>, facts: seq<WriteFact>)
    requires FactsAre(observer, kind, rest, facts)
    requires if Visibly(first) then |own| == 1 && Describes(observer, kind, first, own[0]) else own == []
    ensures FactsAre(observer, kind, [first] + rest, own + facts)
  {
    hide Describes, Visibly, HasFact, HasEffect;
    var effects := [first] + rest;
    if Visibly(first) {
      OwnFact(observer, kind, first, own[0]);
      assert own == [own[0]];
    }
    forall i | 0 <= i < |effects| && Visibly(effects[i]) ensures HasFact(observer, kind, effects[i], own + facts) {
      MoreFacts(observer, kind, effects[i], own, facts);
      assert effects[i] == if i == 0 then first else rest[i - 1];
    }
    forall fact | fact in own + facts ensures HasEffect(observer, kind, effects, fact) {
      MoreEffects(observer, kind, first, rest, fact);
    }
  }

  lemma {:induction false} RowFactsAre(observer: Observer, resource: string, kind: StatementKind, effects: seq<RowWrite>)
    requires Consistent(observer, resource, kind, effects) && !kind.TruncateStatement?
    ensures FactsAre(observer, kind, effects, RowFacts(observer, kind, effects))
    decreases |effects|
  {
    hide FactsAre, SideFact, Describes, Visibly, Typed;
    if effects == [] {
      NoFacts(observer, kind);
    } else {
      var w, rest := effects[0], effects[1..];
      assert Consistent(observer, w.resource, kind, [w]) && Consistent(observer, resource, kind, rest);
      RowFactsAre(observer, resource, kind, rest);
      hide Consistent;
      if Visibly(w) {
        SideExactly(observer, kind, w);
      } else {
        NotVisibleLeavesNothing(observer, kind, w);
      }
      FactsThen(observer, kind, w, rest, SideFact(observer, kind, w), RowFacts(observer, kind, rest));
      assert effects == [w] + rest;
    }
  }

  lemma NoFacts(observer: Observer, kind: StatementKind)
    ensures FactsAre(observer, kind, [], [])
  {
  }

  /**
   The facts of a PostgreSQL statement. Row by row, each visible effect has the fact that describes it and there are
   no others. A large statement has one fact of unknown kind, with what its old rows and its new rows have in
   common. A truncation, or an update of rows without identity, has the fact that stands for anything.
   */
  lemma StatementExactly(observer: Observer, resource: string, kind: StatementKind, effects: seq<RowWrite>)
    requires Consistent(observer, resource, kind, effects)
    ensures var facts := StatementFacts(observer, resource, kind, effects);
      && (RowByRow(observer, kind, effects) ==> FactsAre(observer, kind, effects, facts))
      && (!RowByRow(observer, kind, effects) ==>
            && |facts| == 1 && facts[0].resource == resource && facts[0].operation.UnknownOperation? && facts[0].changed.None?
            && (kind.TruncateStatement? || (kind.UpdateStatement? && observer.resource.identity == []) ==>
                  facts[0].before.Unknown? && facts[0].after.Unknown?)
            && (kind.InsertStatement? ==> facts[0].before.Absent? && facts[0].after == BatchState(observer, NewRows(effects)))
            && (kind.DeleteStatement? ==> facts[0].before == BatchState(observer, OldRows(effects)) && facts[0].after.Absent?)
            && (kind.UpdateStatement? && observer.resource.identity != [] ==>
                  && facts[0].before == BatchState(observer, OldRows(effects))
                  && facts[0].after == BatchState(observer, NewRows(effects))))
  {
    if RowByRow(observer, kind, effects) {
      RowFactsAre(observer, resource, kind, effects);
    }
    hide FactsAre, Visibly, Consistent, RowFacts, BatchState;
  }

  // ------------------------------------------------------------------ SQLite

  /** The kind of a single row effect. */
  function KindOf(w: RowWrite): StatementKind {
    if w.before.None? then InsertStatement else if w.after.None? then DeleteStatement else UpdateStatement
  }

  /** The fact of one SQLite firing describes its row effect. */
  lemma TriggerFactExactly(observer: Observer, w: RowWrite)
    requires w.before.Some? || w.after.Some?
    ensures Describes(observer, KindOf(w), w, TriggerFact(observer, w))
  {
    if w.before.Some? {
      RowStandsFor(observer, w.before.value);
    }
    if w.after.Some? {
      RowStandsFor(observer, w.after.value);
    }
    if w.before.Some? && w.after.Some? {
      ChangedColumnsAll(observer.resource.columns, w.before.value, w.after.value);
    }
    hide StandsFor, RowStateOf, ChangedColumns, Differs;
  }

  /**
   One SQLite firing. Within the limits the fact is added, unless its resource is widened already, and nothing else
   changes. Over them exactly the chosen group goes, its resource is widened, and every other row and resource stays.
   */
  lemma FiringExactly(measure: Measure, c: Collected, fact: WriteFact, chosen: string)
    requires Tidy(measure, c)
    requires Over(measure, Inserted(c, fact).rows) ==> Largest(measure, Inserted(c, fact).rows, chosen)
    ensures var after := Fired(measure, c, fact, chosen);
      var rows := if IsWidened(c, fact.resource) then c.rows else c.rows + [fact];
      && after.resources.Keys == c.resources.Keys + {fact.resource}
      && (forall resource :: IsWidened(after, resource) <==>
            IsWidened(c, resource) || (Over(measure, rows) && resource == chosen))
      && after.rows == if Over(measure, rows) then Others(rows, chosen) else rows
  {
    hide Over, Largest, NotWidened;
    var inserted := Inserted(c, fact);
    var widened := WidenedBy(measure, inserted, chosen);
    if Over(measure, inserted.rows) {
      ChosenIsListed(measure, inserted, chosen);
      NotWidenedOne(widened, inserted.rows, chosen);
    } else {
      NotWidenedAll(widened, widened.rows);
    }
  }

  lemma ChosenIsListed(measure: Measure, c: Collected, chosen: string)
    requires Largest(measure, c.rows, chosen) && forall row :: row in c.rows ==> row.resource in c.resources
    ensures chosen in c.resources
  {
  }

  // -------------------------------------------------------------- PostgreSQL

  /** The group goes first: replaceable, no lighter than any other replaceable one and before those as heavy. */
  ghost predicate GoesFirst(measure: Measure, rows: seq<WriteFact>, k: nat) {
    && k < |rows| && Reducible(measure, rows, rows[k].resource)
    && (forall j :: 0 <= j < |rows| && Reducible(measure, rows, rows[j].resource) ==>
          Weight(measure, rows, rows[j].resource) <= Weight(measure, rows, rows[k].resource))
    && forall j :: 0 <= j < k && Reducible(measure, rows, rows[j].resource) ==>
         Weight(measure, rows, rows[j].resource) < Weight(measure, rows, rows[k].resource)
  }

  /** Round after round, each over a limit, the group that goes first is replaced by one row that stands for anything. */
  ghost predicate Rounds(measure: Measure, trail: seq<seq<WriteFact>>) {
    && trail != []
    && forall m :: 0 <= m < |trail| - 1 ==> Over(measure, trail[m]) && Replaces(measure, trail[m], trail[m + 1])
  }

  ghost predicate Replaces(measure: Measure, rows: seq<WriteFact>, next: seq<WriteFact>) {
    exists k: nat :: GoesFirst(measure, rows, k)
      && next == Others(rows, rows[k].resource) + [WriteFact(rows[k].resource, UnknownOperation, Unknown, Unknown, None)]
  }

  /** The heaviest group among the first rows, and the first row of it. */
  lemma {:induction false} ChosenGoesFirst(measure: Measure, rows: seq<WriteFact>, count: nat) returns (k: nat)
    requires count <= |rows| && ChosenIn(measure, rows, count).Some?
    ensures k < count && rows[k].resource == ChosenIn(measure, rows, count).value && Reducible(measure, rows, rows[k].resource)
    ensures forall j :: 0 <= j < count && Reducible(measure, rows, rows[j].resource) ==>
      Weight(measure, rows, rows[j].resource) <= Weight(measure, rows, rows[k].resource)
    ensures forall j :: 0 <= j < k && Reducible(measure, rows, rows[j].resource) ==>
      Weight(measure, rows, rows[j].resource) < Weight(measure, rows, rows[k].resource)
  {
    hide Reducible, Weight;
    var before := ChosenIn(measure, rows, count - 1);
    var last := rows[count - 1].resource;
    if before.Some? {
      k := ChosenGoesFirst(measure, rows, count - 1);
      if Reducible(measure, rows, last) && Weight(measure, rows, last) > Weight(measure, rows, before.value) {
        k := count - 1;
      }
    } else {
      k := count - 1;
      ChosenIsHeaviest(measure, rows, count - 1);
      assert forall j :: 0 <= j < count - 1 ==> rows[j] in rows[..count - 1];
    }
  }

  /** The collector is settled in such rounds, until it fits or nothing is left to replace. */
  lemma {:induction false} SettledExactly(measure: Measure, rows: seq<WriteFact>) returns (trail: seq<seq<WriteFact>>)
    requires Honest(measure)
    ensures Rounds(measure, trail) && trail[0] == rows && trail[|trail| - 1] == Settled(measure, rows)
    ensures Over(measure, Settled(measure, rows)) ==>
      forall row :: row in Settled(measure, rows) ==> !Reducible(measure, Settled(measure, rows), row.resource)
    decreases ReducibleSet(measure, rows)
  {
    hide Over, Reducible, Weight;
    trail := [rows];
    var chosen := ChosenIn(measure, rows, |rows|);
    ChosenIsHeaviest(measure, rows, |rows|);
    assert rows[..|rows|] == rows;
    if Over(measure, rows) && chosen.Some? {
      var k := ChosenGoesFirst(measure, rows, |rows|);
      assert GoesFirst(measure, rows, k);
      ChosenShrinks(measure, rows);
      var rest := SettledExactly(measure, Replaced(rows, chosen.value));
      trail := [rows] + rest;
      hide GoesFirst, ReducibleSet;
      RoundThen(measure, rows, rest);
    }
  }

  lemma RoundThen(measure: Measure, rows: seq<WriteFact>, rest: seq<seq<WriteFact>>)
    requires Rounds(measure, rest) && Over(measure, rows) && Replaces(measure, rows, rest[0])
    ensures Rounds(measure, [rows] + rest)
  {
    hide Replaces, Over;
    var trail := [rows] + rest;
    assert forall m :: 0 < m < |trail| ==> trail[m] == rest[m - 1];
  }
}
