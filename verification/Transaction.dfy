/**
 The command transaction inside PostgreSQL. Work and triggers are arbitrary programs that write, raise,
 catch errors in sub-transactions, roll savepoints back, defer further programs and re-defer them.
 */
module Transactions {
  import opened Contracts
  import opened Facts
  import opened Reads
  import opened SelectTrees
  import opened SelectSound
  import opened Observers
  import opened Collectors

  /** A statement's effect may depend on everything in the database. */
  datatype Program =
    | Skip
    | Then(first: Program, second: Program)
    | Statement(resource: string, kind: StatementKind, rows: Tables -> seq<(int, Option<Row>)>)
    | Defer(deferred: Program)
    | SetConstraints(immediate: bool)
    | Raise
    | Attempt(body: Program, handler: Program)
    | Undo(body: Program)

  /** Observed resources, and what the compaction loop does to the collector. */
  datatype Config = Config(observers: map<string, Observer>, compact: seq<WriteFact> -> seq<WriteFact>)

  ghost predicate Sane(config: Config) {
    forall rows :: Absorbed(rows, config.compact(rows))
  }

  /**
   Everything a sub-transaction restores: rows, collector, settings and the deferred-trigger queue.
   `written` is the row effects so far, in order.
   */
  datatype Tx = Tx(
    tables: Tables, written: seq<RowWrite>, collector: seq<WriteFact>, isSealed: bool, immediate: bool,
    queue: seq<Program>)

  /** Row effects of a statement on rows as it found them. */
  function Effects(table: map<int, Row>, resource: string, rows: seq<(int, Option<Row>)>): seq<RowWrite> {
    if rows == [] then []
    else
      [RowWrite(resource, rows[0].0, if rows[0].0 in table then Some(table[rows[0].0]) else None, rows[0].1)]
      + Effects(table, resource, rows[1..])
  }

  /** A statement touches each row once. */
  predicate Distinctly(rows: seq<(int, Option<Row>)>) {
    forall i, j :: 0 <= i < j < |rows| ==> rows[i].0 != rows[j].0
  }

  lemma {:induction false} EffectsSequential(
      tables: Tables, table: map<int, Row>, resource: string, rows: seq<(int, Option<Row>)>)
    requires Distinctly(rows)
    requires forall i :: 0 <= i < |rows| ==>
      var id := rows[i].0;
      (id in Table(tables, resource) <==> id in table) && (id in table ==> Table(tables, resource)[id] == table[id])
    ensures Sequential(tables, Effects(table, resource, rows))
    decreases rows
  {
    if rows != [] {
      var effects := Effects(table, resource, rows);
      var next := Apply(tables, effects[0]);
      forall i | 0 <= i < |rows[1..]|
        ensures var id := rows[1..][i].0;
          (id in Table(next, resource) <==> id in table) && (id in table ==> Table(next, resource)[id] == table[id])
      {
        assert rows[1..][i] == rows[i + 1] && rows[i + 1].0 != rows[0].0;
      }
      EffectsSequential(next, table, resource, rows[1..]);
      assert effects[1..] == Effects(table, resource, rows[1..]);
    }
  }

  lemma {:induction false} EffectsOnResource(table: map<int, Row>, resource: string, rows: seq<(int, Option<Row>)>)
    ensures forall w :: w in Effects(table, resource, rows) ==> w.resource == resource
    decreases rows
  {
    if rows != [] {
      EffectsOnResource(table, resource, rows[1..]);
    }
  }

  /**
   One statement and its observer trigger. Sealed, the trigger raises and takes the statement's rows
   with it; while collecting, rows and facts are recorded together.
   */
  ghost function RunStatement(
    config: Config, resource: string, kind: StatementKind, rows: Tables -> seq<(int, Option<Row>)>, tx: Tx): Option<Tx>
  {
    var listed := rows(tx.tables);
    var effects := Effects(Table(tx.tables, resource), resource, listed);
    if !Distinctly(listed) then None
    else if resource !in config.observers then
      Some(tx.(tables := ApplyAll(tx.tables, effects), written := tx.written + effects))
    else
      var observer := config.observers[resource];
      if !Consistent(observer, resource, kind, effects) || tx.isSealed then None
      else
        Some(tx.(
            tables := ApplyAll(tx.tables, effects),
            written := tx.written + effects,
            collector := config.compact(tx.collector + StatementFacts(observer, resource, kind, effects))))
  }

  /** A program's outcome, none being an error that its caller may catch by restoring `tx`. */
  ghost function Run(config: Config, program: Program, tx: Tx): Option<Tx>
    decreases program
  {
    match program
    case Skip => Some(tx)
    case Then(first, second) =>
      var middle := Run(config, first, tx);
      if middle.None? then None else Run(config, second, middle.value)
    case Statement(resource, kind, rows) => RunStatement(config, resource, kind, rows, tx)
    case Defer(deferred) => if tx.immediate then Run(config, deferred, tx) else Some(tx.(queue := tx.queue + [deferred]))
    case SetConstraints(immediate) => Some(tx.(immediate := immediate))
    case Raise => None
    case Attempt(body, handler) =>
      var attempted := Run(config, body, tx);
      if attempted.Some? then attempted else Run(config, handler, tx)
    case Undo(body) => Some(tx)
  }

  /** Up to `steps` deferred programs in queue order; each may defer more. */
  ghost function RunQueue(config: Config, tx: Tx, steps: nat): Option<Tx>
    decreases steps
  {
    if steps == 0 || tx.queue == [] then Some(tx)
    else
      var next := Run(config, tx.queue[0], tx.(queue := tx.queue[1..]));
      if next.None? then None else RunQueue(config, next.value, steps - 1)
  }

  // ----------------------------------------------------------- the invariant

  ghost predicate Observed(config: Config, w: RowWrite) {
    w.resource in config.observers && Visibly(w)
  }

  ghost predicate CoveredBy(config: Config, facts: seq<WriteFact>, w: RowWrite)
    requires w.resource in config.observers
  {
    exists fact :: fact in facts && Covers(config.observers[w.resource].resource, fact, w)
  }

  ghost predicate AllCovered(config: Config, facts: seq<WriteFact>, written: seq<RowWrite>) {
    forall w :: w in written && Observed(config, w) ==> CoveredBy(config, facts, w)
  }

  ghost predicate Consistently(base: Tables, tx: Tx) {
    Sequential(base, tx.written) && tx.tables == ApplyAll(base, tx.written)
  }

  /** Until the seal, the collector covers everything written so far. */
  ghost predicate Holding(config: Config, base: Tables, tx: Tx) {
    && Consistently(base, tx)
    && (!tx.isSealed ==> AllCovered(config, tx.collector, tx.written))
  }

  /** Past the seal no observed row can be written any more. */
  ghost predicate SealKept(config: Config, before: Tx, after: Tx) {
    && after.isSealed == before.isSealed
    && (before.isSealed ==> forall w :: w in after.written && Observed(config, w) ==> w in before.written)
  }

  lemma AbsorbedCovers(config: Config, facts: seq<WriteFact>, more: seq<WriteFact>, w: RowWrite)
    requires w.resource in config.observers
    requires CoveredBy(config, facts, w) && Absorbed(facts + more, config.compact(facts + more))
    ensures CoveredBy(config, config.compact(facts + more), w)
  {
    var fact :| fact in facts && Covers(config.observers[w.resource].resource, fact, w);
    assert fact in facts + more;
    var high :| high in config.compact(facts + more) && LeqFact(fact, high);
    LeqFactSound(config.observers[w.resource].resource, fact, high, w);
  }

  lemma NewlyCovered(config: Config, facts: seq<WriteFact>, more: seq<WriteFact>, w: RowWrite)
    requires w.resource in config.observers
    requires CoveredBy(config, more, w) && Absorbed(facts + more, config.compact(facts + more))
    ensures CoveredBy(config, config.compact(facts + more), w)
  {
    var fact :| fact in more && Covers(config.observers[w.resource].resource, fact, w);
    assert fact in facts + more;
    var high :| high in config.compact(facts + more) && LeqFact(fact, high);
    LeqFactSound(config.observers[w.resource].resource, fact, high, w);
  }

  lemma StatementKeeps(
      config: Config, base: Tables, resource: string, kind: StatementKind, rows: Tables -> seq<(int, Option<Row>)>, tx: Tx)
    requires Sane(config) && Holding(config, base, tx)
    requires RunStatement(config, resource, kind, rows, tx).Some?
    ensures Holding(config, base, RunStatement(config, resource, kind, rows, tx).value)
    ensures SealKept(config, tx, RunStatement(config, resource, kind, rows, tx).value)
  {
    var listed := rows(tx.tables);
    var effects := Effects(Table(tx.tables, resource), resource, listed);
    var after := RunStatement(config, resource, kind, rows, tx).value;
    EffectsSequential(tx.tables, Table(tx.tables, resource), resource, listed);
    EffectsOnResource(Table(tx.tables, resource), resource, listed);
    SequentialConcat(base, tx.written, effects);
    if resource in config.observers {
      var observer := config.observers[resource];
      var facts := StatementFacts(observer, resource, kind, effects);
      forall w | w in after.written && Observed(config, w) ensures CoveredBy(config, after.collector, w) {
        if w in tx.written {
          AbsorbedCovers(config, tx.collector, facts, w);
        } else {
          var i :| 0 <= i < |effects| && effects[i] == w;
          StatementIsCovered(observer, resource, kind, effects, i);
          NewlyCovered(config, tx.collector, facts, w);
        }
      }
    }
  }

  lemma {:induction false} RunKeeps(config: Config, base: Tables, program: Program, tx: Tx)
    requires Sane(config) && Holding(config, base, tx)
    requires Run(config, program, tx).Some?
    ensures Holding(config, base, Run(config, program, tx).value)
    ensures SealKept(config, tx, Run(config, program, tx).value)
    decreases program
  {
    match program
    case Skip =>
    case Then(first, second) =>
      RunKeeps(config, base, first, tx);
      RunKeeps(config, base, second, Run(config, first, tx).value);
    case Statement(resource, kind, rows) => StatementKeeps(config, base, resource, kind, rows, tx);
    case Defer(deferred) =>
      if tx.immediate {
        RunKeeps(config, base, deferred, tx);
      }
    case SetConstraints(_) =>
    case Raise =>
    case Attempt(body, handler) =>
      if Run(config, body, tx).Some? {
        RunKeeps(config, base, body, tx);
      } else {
        RunKeeps(config, base, handler, tx);
      }
    case Undo(_) =>
  }

  lemma {:induction false} QueueKeeps(config: Config, base: Tables, tx: Tx, steps: nat)
    requires Sane(config) && Holding(config, base, tx)
    requires RunQueue(config, tx, steps).Some?
    ensures Holding(config, base, RunQueue(config, tx, steps).value)
    ensures SealKept(config, tx, RunQueue(config, tx, steps).value)
    decreases steps
  {
    if steps > 0 && tx.queue != [] {
      var start := tx.(queue := tx.queue[1..]);
      RunKeeps(config, base, tx.queue[0], start);
      QueueKeeps(config, base, Run(config, tx.queue[0], start).value, steps - 1);
    }
  }

  // -------------------------------------------------------------- the command

  datatype Finished = Finished(tables: Tables, written: seq<RowWrite>, drained: seq<WriteFact>)

  /** Callback work, then `set constraints all immediate`, with any number of queued programs settled. */
  ghost function Worked(config: Config, tables: Tables, work: Program, settled: nat): Option<Tx> {
    var worked := Run(config, work, Tx(tables, [], [], false, false, []));
    if worked.None? then None else RunQueue(config, worked.value.(immediate := true), settled)
  }

  /**
   The transaction of one command: work, constraints, drain, seal, commit. COMMIT runs what is still
   deferred and succeeds only once the queue is empty.
   */
  ghost function Commit(config: Config, tables: Tables, work: Program, settled: nat, finishing: nat): Option<Finished> {
    var ready := Worked(config, tables, work, settled);
    if ready.None? then None
    else
      var last := RunQueue(config, ready.value.(collector := [], isSealed := true), finishing);
      if last.None? || last.value.queue != [] then None
      else Some(Finished(last.value.tables, last.value.written, ready.value.collector))
  }

  /**
   No silent omission. Whatever programs work and triggers are, if the command commits then every
   visible write to an observed table that survived is covered by the facts drained before COMMIT, and
   those surviving writes in order are what turned the old tables into the new ones.
   */
  lemma NoSilentOmission(config: Config, tables: Tables, work: Program, settled: nat, finishing: nat)
    requires Sane(config) && Commit(config, tables, work, settled, finishing).Some?
    ensures var done := Commit(config, tables, work, settled, finishing).value;
      && Sequential(tables, done.written) && done.tables == ApplyAll(tables, done.written)
      && AllCovered(config, done.drained, done.written)
  {
    var start := Tx(tables, [], [], false, false, []);
    assert Holding(config, tables, start);
    RunKeeps(config, tables, work, start);
    var worked := Run(config, work, start).value.(immediate := true);
    QueueKeeps(config, tables, worked, settled);
    var ready := Worked(config, tables, work, settled).value;
    var closing := ready.(collector := [], isSealed := true);
    QueueKeeps(config, tables, closing, finishing);
  }

  // ---------------------------------------------------------------- the seal

  /** No observed table and no collected fact differs. */
  ghost predicate SameObserved(config: Config, before: Tx, after: Tx) {
    && after.isSealed == before.isSealed && after.collector == before.collector
    && forall resource :: resource in config.observers ==> Table(after.tables, resource) == Table(before.tables, resource)
  }

  lemma {:induction false} ApplyOther(tables: Tables, writes: seq<RowWrite>, resource: string)
    requires forall w :: w in writes ==> w.resource != resource
    ensures Table(ApplyAll(tables, writes), resource) == Table(tables, resource)
    decreases writes
  {
    if writes != [] {
      assert writes[0] in writes;
      assert forall w :: w in writes[1..] ==> w in writes;
      ApplyOther(Apply(tables, writes[0]), writes[1..], resource);
    }
  }

  lemma SealedStatement(
      config: Config, resource: string, kind: StatementKind, rows: Tables -> seq<(int, Option<Row>)>, tx: Tx)
    requires tx.isSealed && RunStatement(config, resource, kind, rows, tx).Some?
    ensures SameObserved(config, tx, RunStatement(config, resource, kind, rows, tx).value)
  {
    var effects := Effects(Table(tx.tables, resource), resource, rows(tx.tables));
    EffectsOnResource(Table(tx.tables, resource), resource, rows(tx.tables));
    forall observed | observed in config.observers
      ensures Table(ApplyAll(tx.tables, effects), observed) == Table(tx.tables, observed)
    {
      ApplyOther(tx.tables, effects, observed);
    }
  }

  /**
   After the seal no program, whatever it catches, defers or retries, can change a row of an observed table or
   what was collected.
   */
  lemma {:induction false} SealedTablesStand(config: Config, program: Program, tx: Tx)
    requires tx.isSealed && Run(config, program, tx).Some?
    ensures SameObserved(config, tx, Run(config, program, tx).value)
    decreases program
  {
    match program
    case Skip =>
    case Then(first, second) =>
      SealedTablesStand(config, first, tx);
      SealedTablesStand(config, second, Run(config, first, tx).value);
    case Statement(resource, kind, rows) => SealedStatement(config, resource, kind, rows, tx);
    case Defer(deferred) =>
      if tx.immediate {
        SealedTablesStand(config, deferred, tx);
      }
    case SetConstraints(_) =>
    case Raise =>
    case Attempt(body, handler) =>
      if Run(config, body, tx).Some? {
        SealedTablesStand(config, body, tx);
      } else {
        SealedTablesStand(config, handler, tx);
      }
    case Undo(_) =>
  }

  lemma {:induction false} SealedQueueStands(config: Config, tx: Tx, steps: nat)
    requires tx.isSealed && RunQueue(config, tx, steps).Some?
    ensures SameObserved(config, tx, RunQueue(config, tx, steps).value)
    decreases steps
  {
    if steps > 0 && tx.queue != [] {
      var start := tx.(queue := tx.queue[1..]);
      SealedTablesStand(config, tx.queue[0], start);
      SealedQueueStands(config, Run(config, tx.queue[0], start).value, steps - 1);
    }
  }

  /** The observed tables of a committed command are those the drain looked at. */
  lemma CommittedAsDrained(config: Config, tables: Tables, work: Program, settled: nat, finishing: nat)
    requires Commit(config, tables, work, settled, finishing).Some?
    ensures Worked(config, tables, work, settled).Some?
    ensures forall resource :: resource in config.observers ==>
      Table(Commit(config, tables, work, settled, finishing).value.tables, resource)
      == Table(Worked(config, tables, work, settled).value.tables, resource)
  {
    var ready := Worked(config, tables, work, settled).value;
    SealedQueueStands(config, ready.(collector := [], isSealed := true), finishing);
  }

  /** The collector under the compaction loop of the trigger body. */
  ghost function Collecting(measure: Measure, observers: map<string, Observer>): Config
    requires Honest(measure)
  {
    Config(observers, rows => if Honest(measure) then Settled(measure, rows) else rows)
  }

  /** The trigger's own loop is sane, so what holds of any sane collector holds of it. */
  lemma CollectingIsSane(measure: Measure, observers: map<string, Observer>)
    requires Honest(measure)
    ensures Sane(Collecting(measure, observers))
  {
    forall rows ensures Absorbed(rows, Collecting(measure, observers).compact(rows)) {
      AbsorbedStart(rows);
      SettledAbsorbs(measure, rows, rows);
    }
  }
}
