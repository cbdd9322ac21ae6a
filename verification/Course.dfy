/**
 What the programs of a command transaction do, as courses of events: a program ends in a state, or in an error,
 exactly if some course leads there. Nothing fails without a reason.
 */
module Courses {
  import opened Contracts
  import opened Facts
  import opened Reads
  import opened SelectTrees
  import opened SelectSound
  import opened Observers
  import opened Transactions

  /** What happened, step by step: a statement's outcome, an error caught, a trigger run at once or queued. */
  datatype Course =
    | Nothing | Stated | Failed | Set | Queued | AtOnce(body: Course) | RolledBack
    | Both(first: Course, middle: Tx, second: Course) | Stopped(first: Course)
    | Tried(body: Course) | Caught(body: Course, handler: Course)

  /** The row after the statement, where it lists the row; otherwise the row it found. */
  ghost predicate RowsAfter(listed: seq<(int, Option<Row>)>, before: map<int, Row>, after: map<int, Row>) {
    && (forall k :: 0 <= k < |listed| ==>
          (listed[k].0 in after <==> listed[k].1.Some?) && (listed[k].1.Some? ==> after[listed[k].0] == listed[k].1.value))
    && forall id :: (forall k :: 0 <= k < |listed| ==> listed[k].0 != id) ==>
         (id in after <==> id in before) && (id in before ==> after[id] == before[id])
  }

  ghost predicate TablesAfter(resource: string, listed: seq<(int, Option<Row>)>, before: Tables, after: Tables) {
    if listed == [] then after == before
    else
      && after.Keys == before.Keys + {resource} && RowsAfter(listed, Table(before, resource), after[resource])
      && forall other :: other in before && other != resource ==> after[other] == before[other]
  }

  /** The effects a statement reports: each listed row as it was found and as it is left. */
  ghost predicate EffectsAre(
    resource: string, listed: seq<(int, Option<Row>)>, before: map<int, Row>, effects: seq<RowWrite>)
  {
    && |effects| == |listed|
    && forall k :: 0 <= k < |listed| ==>
         && effects[k].resource == resource && effects[k].id == listed[k].0 && effects[k].after == listed[k].1
         && (effects[k].before.Some? <==> listed[k].0 in before)
         && (effects[k].before.Some? ==> effects[k].before.value == before[listed[k].0])
  }

  /** An observed table takes no inconsistent statement, and none at all past the seal. */
  ghost predicate Accepts(config: Config, resource: string, kind: StatementKind, effects: seq<RowWrite>, tx: Tx) {
    resource in config.observers ==> !tx.isSealed && Consistent(config.observers[resource], resource, kind, effects)
  }

  /**
   One statement: it fails exactly if it would touch a row twice or its table does not accept it. Otherwise the
   listed rows are as it leaves them and, on an observed table, the collector holds the facts of the effects.
   */
  ghost predicate StatementEnds(
    config: Config, resource: string, kind: StatementKind, listed: seq<(int, Option<Row>)>, effects: seq<RowWrite>, tx: Tx,
    end: Option<Tx>)
  {
    var distinct := forall i, j :: 0 <= i < j < |listed| ==> listed[i].0 != listed[j].0;
    && EffectsAre(resource, listed, Table(tx.tables, resource), effects)
    && (end.Some? <==> distinct && Accepts(config, resource, kind, effects, tx))
    && (end.Some? ==>
          var after := end.value;
          && TablesAfter(resource, listed, tx.tables, after.tables)
          && after.written == tx.written + effects
          && after.collector == (if resource in config.observers
                                 then config.compact(tx.collector + StatementFacts(config.observers[resource], resource, kind, effects))
                                 else tx.collector)
          && after.isSealed == tx.isSealed && after.immediate == tx.immediate && after.queue == tx.queue)
  }

  ghost predicate Leads(config: Config, c: Course, program: Program, tx: Tx, end: Option<Tx>)
    decreases c
  {
    match program
    case Skip => c.Nothing? && end == Some(tx)
    case Raise => c.Failed? && end == None
    case SetConstraints(immediate) => c.Set? && end == Some(tx.(immediate := immediate))
    case Undo(_) => c.RolledBack? && end == Some(tx)
    case Statement(resource, kind, rows) =>
      c.Stated? && exists effects :: StatementEnds(config, resource, kind, rows(tx.tables), effects, tx, end)
    case Defer(deferred) =>
      if tx.immediate then c.AtOnce? && Leads(config, c.body, deferred, tx, end)
      else c.Queued? && end == Some(tx.(queue := tx.queue + [deferred]))
    case Then(first, second) =>
      || (c.Both? && Leads(config, c.first, first, tx, Some(c.middle)) && Leads(config, c.second, second, c.middle, end))
      || (c.Stopped? && Leads(config, c.first, first, tx, None) && end == None)
    case Attempt(body, handler) =>
      || (c.Tried? && end.Some? && Leads(config, c.body, body, tx, end))
      || (c.Caught? && Leads(config, c.body, body, tx, None) && Leads(config, c.handler, handler, tx, end))
  }

  // ------------------------------------------------------------- statements

  predicate Distinct(listed: seq<(int, Option<Row>)>) {
    forall i, j :: 0 <= i < j < |listed| ==> listed[i].0 != listed[j].0
  }

  lemma {:induction false} EffectsHold(resource: string, listed: seq<(int, Option<Row>)>, before: map<int, Row>)
    ensures EffectsAre(resource, listed, before, Effects(before, resource, listed))
    decreases listed
  {
    if listed != [] {
      EffectsHold(resource, listed[1..], before);
      var effects := Effects(before, resource, listed);
      assert effects[1..] == Effects(before, resource, listed[1..]);
      assert forall k :: 0 < k < |listed| ==> listed[k] == listed[1..][k - 1] && effects[k] == effects[1..][k - 1];
    }
  }

  lemma OneListOfEffects(resource: string, listed: seq<(int, Option<Row>)>, before: map<int, Row>, effects: seq<RowWrite>)
    ensures EffectsAre(resource, listed, before, effects) <==> effects == Effects(before, resource, listed)
  {
    EffectsHold(resource, listed, before);
    var expected := Effects(before, resource, listed);
    if EffectsAre(resource, listed, before, effects) {
      forall k | 0 <= k < |effects| ensures effects[k] == expected[k] {
      }
    }
  }

  lemma {:induction false} RowsApplied(
      resource: string, listed: seq<(int, Option<Row>)>, found: map<int, Row>, tables: Tables)
    requires Distinct(listed)
    ensures TablesAfter(resource, listed, tables, ApplyAll(tables, Effects(found, resource, listed)))
    decreases listed
  {
    if listed != [] {
      var effects, rest := Effects(found, resource, listed), listed[1..];
      assert effects[1..] == Effects(found, resource, rest);
      var next := Apply(tables, effects[0]);
      assert forall k :: 0 < k < |listed| ==> listed[k] == rest[k - 1];
      RowsApplied(resource, rest, found, next);
      hide Effects, ApplyAll;
      RowsThen(resource, listed, tables, next, ApplyAll(next, effects[1..]));
    }
  }

  lemma RowsThen(resource: string, listed: seq<(int, Option<Row>)>, before: Tables, next: Tables, after: Tables)
    requires listed != [] && Distinct(listed)
    requires next == before[resource := SelectSound.Update(Table(before, resource), listed[0].0, listed[0].1)]
    requires TablesAfter(resource, listed[1..], next, after)
    ensures TablesAfter(resource, listed, before, after)
  {
    var rest := listed[1..];
    assert forall k :: 0 < k < |listed| ==> listed[k] == rest[k - 1];
    assert forall k :: 0 <= k < |rest| ==> rest[k].0 != listed[0].0;
    assert after.Keys == before.Keys + {resource};
    var start, middle, last := Table(before, resource), Table(next, resource), after[resource];
    assert RowsAfter(rest, middle, last) by {
      if rest == [] {
        assert last == middle;
      }
    }
    forall k | 0 <= k < |listed|
      ensures listed[k].0 in last <==> listed[k].1.Some?
      ensures listed[k].1.Some? ==> last[listed[k].0] == listed[k].1.value
    {
      if k > 0 {
        assert rest[k - 1] == listed[k];
      }
    }
    forall id | forall k :: 0 <= k < |listed| ==> listed[k].0 != id
      ensures id in last <==> id in start
      ensures id in start ==> last[id] == start[id]
    {
      assert listed[0].0 != id && forall k :: 0 <= k < |rest| ==> rest[k].0 != id;
    }
  }

  lemma OneSetOfTables(resource: string, listed: seq<(int, Option<Row>)>, before: Tables, left: Tables, right: Tables)
    requires TablesAfter(resource, listed, before, left) && TablesAfter(resource, listed, before, right)
    ensures left == right
  {
    if listed != [] {
      var a, b := left[resource], right[resource];
      forall id ensures (id in a <==> id in b) && (id in a ==> a[id] == b[id]) {
        if k :| 0 <= k < |listed| && listed[k].0 == id {
        }
      }
      assert a == b;
      forall other | other in left ensures left[other] == right[other] {
      }
    }
  }

  lemma StatementReaches(
      config: Config, resource: string, kind: StatementKind, rows: Tables -> seq<(int, Option<Row>)>, tx: Tx)
    ensures StatementEnds(
      config, resource, kind, rows(tx.tables), Effects(Table(tx.tables, resource), resource, rows(tx.tables)), tx,
      RunStatement(config, resource, kind, rows, tx))
  {
    var listed, before := rows(tx.tables), Table(tx.tables, resource);
    EffectsHold(resource, listed, before);
    if Distinct(listed) {
      RowsApplied(resource, listed, before, tx.tables);
    }
    hide EffectsAre, Effects, TablesAfter, ApplyAll, StatementFacts, Consistent;
  }

  lemma OneEnd(
      config: Config, resource: string, kind: StatementKind, listed: seq<(int, Option<Row>)>, effects: seq<RowWrite>, tx: Tx,
      left: Option<Tx>, right: Option<Tx>)
    requires StatementEnds(config, resource, kind, listed, effects, tx, left)
    requires StatementEnds(config, resource, kind, listed, effects, tx, right)
    ensures left == right
  {
    hide EffectsAre, TablesAfter, StatementFacts, Accepts;
    if left.Some? && right.Some? {
      OneSetOfTables(resource, listed, tx.tables, left.value.tables, right.value.tables);
    }
  }

  lemma StatementExactly(
      config: Config, resource: string, kind: StatementKind, rows: Tables -> seq<(int, Option<Row>)>, tx: Tx, end: Option<Tx>)
    ensures end == RunStatement(config, resource, kind, rows, tx) <==>
      exists effects :: StatementEnds(config, resource, kind, rows(tx.tables), effects, tx, end)
  {
    StatementReaches(config, resource, kind, rows, tx);
    if effects :| StatementEnds(config, resource, kind, rows(tx.tables), effects, tx, end) {
      OneListOfEffects(resource, rows(tx.tables), Table(tx.tables, resource), effects);
      hide StatementEnds, RunStatement;
      OneEnd(config, resource, kind, rows(tx.tables), effects, tx, end, RunStatement(config, resource, kind, rows, tx));
    }
  }

  // --------------------------------------------------------------- programs

  lemma {:induction false} HasCourse(config: Config, program: Program, tx: Tx) returns (c: Course)
    ensures Leads(config, c, program, tx, Run(config, program, tx))
    decreases program
  {
    hide RunStatement, StatementEnds;
    match program
    case Skip => c := Nothing;
    case Raise => c := Failed;
    case SetConstraints(_) => c := Set;
    case Undo(_) => c := RolledBack;
    case Statement(resource, kind, rows) =>
      StatementExactly(config, resource, kind, rows, tx, Run(config, program, tx));
      c := Stated;
    case Defer(deferred) =>
      if tx.immediate {
        var body := HasCourse(config, deferred, tx);
        c := AtOnce(body);
      } else {
        c := Queued;
      }
    case Then(first, second) =>
      var start := HasCourse(config, first, tx);
      var middle := Run(config, first, tx);
      if middle.None? {
        c := Stopped(start);
      } else {
        var rest := HasCourse(config, second, middle.value);
        c := Both(start, middle.value, rest);
      }
    case Attempt(body, handler) =>
      var tried := HasCourse(config, body, tx);
      if Run(config, body, tx).Some? {
        c := Tried(tried);
      } else {
        var caught := HasCourse(config, handler, tx);
        c := Caught(tried, caught);
      }
  }

  lemma {:induction false} CourseEnds(config: Config, c: Course, program: Program, tx: Tx, end: Option<Tx>)
    requires Leads(config, c, program, tx, end)
    ensures end == Run(config, program, tx)
    decreases c
  {
    hide RunStatement, StatementEnds;
    match program
    case Skip =>
    case Raise =>
    case SetConstraints(_) =>
    case Undo(_) =>
    case Statement(resource, kind, rows) => StatementExactly(config, resource, kind, rows, tx, end);
    case Defer(deferred) =>
      if tx.immediate {
        CourseEnds(config, c.body, deferred, tx, end);
      }
    case Then(first, second) =>
      if c.Both? {
        CourseEnds(config, c.first, first, tx, Some(c.middle));
        CourseEnds(config, c.second, second, c.middle, end);
      } else {
        CourseEnds(config, c.first, first, tx, None);
      }
    case Attempt(body, handler) =>
      if c.Tried? {
        CourseEnds(config, c.body, body, tx, end);
      } else {
        CourseEnds(config, c.body, body, tx, None);
        CourseEnds(config, c.handler, handler, tx, end);
      }
  }

  /** A program ends in a state, or fails, exactly if some course of events leads there. */
  lemma RunExactly(config: Config, program: Program, tx: Tx, end: Option<Tx>)
    ensures Run(config, program, tx) == end <==> exists c :: Leads(config, c, program, tx, end)
  {
    hide Leads, Run;
    var c := HasCourse(config, program, tx);
    if other :| Leads(config, other, program, tx, end) {
      CourseEnds(config, other, program, tx, end);
    }
  }

  // ------------------------------------------------------------- the command

  /** Queued programs run in order, each on what the one before left, until none is left or the steps are used up. */
  ghost predicate Settles(config: Config, trail: seq<Tx>, tx: Tx, steps: nat) {
    && 1 <= |trail| <= steps + 1 && trail[0] == tx
    && (forall k :: 0 <= k < |trail| - 1 ==>
          trail[k].queue != [] && Run(config, trail[k].queue[0], trail[k].(queue := trail[k].queue[1..])) == Some(trail[k + 1]))
  }

  function Latest(trail: seq<Tx>): Tx
    requires trail != []
  {
    trail[|trail| - 1]
  }

  /** The queue is settled as far as a trail goes, and fails only where the next program does. */
  lemma {:induction false} QueueExactly(config: Config, tx: Tx, steps: nat) returns (trail: seq<Tx>)
    ensures Settles(config, trail, tx, steps)
    ensures RunQueue(config, tx, steps).Some? ==>
      RunQueue(config, tx, steps).value == Latest(trail) && (Latest(trail).queue == [] || |trail| == steps + 1)
    ensures RunQueue(config, tx, steps).None? ==>
      && |trail| <= steps && Latest(trail).queue != []
      && Run(config, Latest(trail).queue[0], Latest(trail).(queue := Latest(trail).queue[1..])).None?
    decreases steps
  {
    hide Run;
    trail := [tx];
    if steps > 0 && tx.queue != [] {
      var next := Run(config, tx.queue[0], tx.(queue := tx.queue[1..]));
      if next.Some? {
        var rest := QueueExactly(config, next.value, steps - 1);
        trail := [tx] + rest;
        assert forall k :: 0 < k < |trail| ==> trail[k] == rest[k - 1];
      }
    }
  }

  /** With nothing queued, settling changes nothing. */
  lemma NothingQueued(config: Config, tx: Tx, steps: nat)
    requires tx.queue == []
    ensures RunQueue(config, tx, steps) == Some(tx)
  {
  }

  /**
   No command fails without a reason: if the work succeeds and settling it leaves nothing queued, the command
   commits with exactly the tables, the writes and the collected facts it had reached.
   */
  lemma SettledCommits(config: Config, tables: Tables, work: Program, settled: nat, finishing: nat)
    requires Worked(config, tables, work, settled).Some? && Worked(config, tables, work, settled).value.queue == []
    ensures var ready := Worked(config, tables, work, settled).value;
      Commit(config, tables, work, settled, finishing) == Some(Finished(ready.tables, ready.written, ready.collector))
  {
    var ready := Worked(config, tables, work, settled).value;
    NothingQueued(config, ready.(collector := [], isSealed := true), finishing);
  }

  /** The states a committing command goes through: after its work, at the drain, and at the end of COMMIT. */
  ghost predicate CommitsBy(
    config: Config, tables: Tables, work: Program, settled: nat, finishing: nat, worked: Tx, ready: Tx, last: Tx)
  {
    && Run(config, work, Tx(tables, [], [], false, false, [])) == Some(worked)
    && RunQueue(config, worked.(immediate := true), settled) == Some(ready)
    && RunQueue(config, ready.(collector := [], isSealed := true), finishing) == Some(last)
    && last.queue == []
  }

  /** A command commits exactly if its work, its queue and what COMMIT still runs succeed and leave nothing queued. */
  lemma CommitExactly(config: Config, tables: Tables, work: Program, settled: nat, finishing: nat)
    ensures Commit(config, tables, work, settled, finishing).Some? <==>
      exists worked, ready, last :: CommitsBy(config, tables, work, settled, finishing, worked, ready, last)
    ensures forall worked, ready, last :: CommitsBy(config, tables, work, settled, finishing, worked, ready, last) ==>
      Commit(config, tables, work, settled, finishing) == Some(Finished(last.tables, last.written, ready.collector))
  {
    hide Run, RunQueue;
    if Commit(config, tables, work, settled, finishing).Some? {
      var worked := Run(config, work, Tx(tables, [], [], false, false, [])).value;
      var ready := RunQueue(config, worked.(immediate := true), settled).value;
      var last := RunQueue(config, ready.(collector := [], isSealed := true), finishing).value;
      assert CommitsBy(config, tables, work, settled, finishing, worked, ready, last);
    }
  }
}
