/**
 One command from its first write to the impact returned for it: what changed for some caller is either
 selected or reported unavailable.
 */
module EndToEnd {
  import opened Contracts
  import opened Facts
  import opened Reads
  import opened WriteSets
  import opened Assessments
  import opened Calculate
  import opened Soundness
  import opened SelectTrees
  import opened SelectSound
  import opened Plans
  import opened Noninterference
  import opened Observers
  import opened Collectors
  import opened Transactions
  import opened Commands
  import SqliteCollectors

  // ------------------------------------------------- drained rows as received

  /**
   The adapter reads each drained row as the fact or as a looser one (a state that does not parse is
   unknown), or cannot read it; such a row may still name its resource.
   */
  ghost predicate Received(fact: WriteFact, row: ObserverRow) {
    || (row.Readable? && LeqFact(fact, row.fact))
    || row == Unreadable(Some(fact.resource)) || row == Unreadable(None)
  }

  ghost predicate AllReceived(drained: seq<WriteFact>, rows: seq<ObserverRow>) {
    |rows| == |drained| && forall i :: 0 <= i < |drained| ==> Received(drained[i], rows[i])
  }

  // ----------------------------------------------------------- from write to log

  ghost predicate CoveredInLog(resources: Resources, log: seq<WriteFact>, w: RowWrite)
    requires w.resource in resources
  {
    exists fact :: fact in log && Covers(resources[w.resource], fact, w)
  }

  /** A visible write is in the log, or every endpoint that reads its table is unavailable. */
  ghost predicate WriteAccounted(options: Options, log: seq<WriteFact>, report: Report, w: RowWrite)
    requires w.resource in options.resources
  {
    CoveredInLog(options.resources, log, w) || ReadersUnavailable(options.manifest, report, w.resource)
  }

  lemma WriteIsAccounted(
      options: Options, drained: seq<WriteFact>, rows: seq<ObserverRow>, log: WriteSet, registered: set<string>,
      equality: set<string>, report: Report, w: RowWrite)
    requires log.Valid() && AllReceived(drained, rows) && Complete(options.manifest, report)
    requires w.resource in options.resources && CoveredInLog(options.resources, drained, w)
    requires forall row :: row in rows ==> Accounted(row, log.added, options.manifest, registered, report, equality)
    ensures WriteAccounted(options, log.Snapshot(), report, w)
  {
    var resource := options.resources[w.resource];
    var fact :| fact in drained && Covers(resource, fact, w);
    var i :| 0 <= i < |drained| && drained[i] == fact;
    assert Received(drained[i], rows[i]) && rows[i] in rows;
    if rows[i].Readable? && Certified(equality, rows[i].fact) in log.added {
      var read := rows[i].fact;
      LeqFactSound(resource, fact, read, w);
      CertifiedIsUpper(equality, read);
      LeqFactSound(resource, read, Certified(equality, read), w);
      SnapshotKeepsWrites(log, options.resources, Certified(equality, read), w);
    } else if AllUnavailable(report) {
      assert ReadersUnavailable(options.manifest, report, w.resource);
    }
  }

  lemma FoldAccounts(
      rows: seq<ObserverRow>, added: set<WriteFact>, manifest: Manifest, registered: set<string>, report: Report,
      equality: set<string>, aside: set<nat>)
    requires forall k :: 0 <= k < |rows| && k !in aside ==> rows[k].Readable? && Certified(equality, rows[k].fact) in added
    requires forall k :: k in aside ==> k < |rows| && Isolated(rows[k], manifest, registered, report)
    ensures forall row :: row in rows ==> Accounted(row, added, manifest, registered, report, equality)
  {
    hide Isolated;
  }

  lemma AffectsVisibly(db: Database, resources: Resources, read: Read, input: Input, scope: Scalar, w: RowWrite)
    requires Affects(db, resources, read, input, scope, w)
    ensures Visibly(w)
  {
    if w.before.Some? && w.after.Some? {
      SameRowMeaning(w.before.value, w.after.value);
    }
  }

  // --------------------------------------------------------- from log to impact

  /** The impact when `calculate` throws: nobody may trust a cached result. */
  function UnavailableImpact(options: Options): (impact: Impact)
    ensures |impact| == |options.manifest|
    ensures forall i :: 0 <= i < |impact| ==>
      && impact[i].endpoint == options.manifest[i].endpoint && impact[i].targets == []
      && impact[i].status.Unavailable? && CalculationFailed in Codes(impact[i].status)
  {
    seq(|options.manifest|, i requires 0 <= i < |options.manifest| =>
      var endpoint := options.manifest[i].endpoint;
      EndpointImpact(endpoint, Applied(options.assessment, endpoint, Unavailable({CalculationFailed})), []))
  }

  /** What a command may return for the facts in its log. */
  ghost predicate ReturnedFor(options: Options, facts: seq<WriteFact>, impact: Impact) {
    ImpactFor(options, facts, impact) || impact == UnavailableImpact(options)
  }

  ghost predicate Trusted(options: Options, report: Report, facts: seq<WriteFact>, impact: Impact) {
    options.assessment == Some(report) && Complete(options.manifest, report) && ReturnedFor(options, facts, impact)
  }

  lemma UnavailableSelects(options: Options, report: Report, facts: seq<WriteFact>, impact: Impact, i: nat)
    requires Trusted(options, report, facts, impact)
    requires i < |options.manifest| && report[options.manifest[i].endpoint].Unavailable?
    ensures i < |impact| && impact[i].endpoint == options.manifest[i].endpoint && impact[i].status.Unavailable?
  {
    if impact != UnavailableImpact(options) {
      var exact :| AllReported(options, AllHits(options, facts), exact) && ImpactWidened(exact, impact);
      assert Reported(options, AllHits(options, facts), options.manifest[i].endpoint, exact[i]);
      assert EndpointWidened(exact[i], impact[i]);
    }
  }

  lemma ImpactNames(options: Options, report: Report, facts: seq<WriteFact>, impact: Impact, i: nat)
    requires Trusted(options, report, facts, impact) && i < |options.manifest|
    ensures i < |impact| && impact[i].endpoint == options.manifest[i].endpoint
  {
    if impact != UnavailableImpact(options) {
      var exact :| AllReported(options, AllHits(options, facts), exact) && ImpactWidened(exact, impact);
      assert Reported(options, AllHits(options, facts), options.manifest[i].endpoint, exact[i]);
      assert EndpointWidened(exact[i], impact[i]);
    }
  }

  /** A write that reaches one of the endpoint's reads for an input selects that input. */
  lemma AccountedSelects(
      options: Options, db: Database, report: Report, facts: seq<WriteFact>, impact: Impact, i: nat, j: nat, w: RowWrite,
      input: Input, scope: Scalar)
    requires Lawful(db) && db.coerce == options.coerce
    requires Trusted(options, report, facts, impact)
    requires i < |options.manifest| && j < |options.manifest[i].dependencies|
    requires Affects(db, options.resources, options.manifest[i].dependencies[j], input, scope, w)
    requires WriteAccounted(options, facts, report, w)
    requires scope == options.scope || options.resources[w.resource].scopeColumn.None?
    ensures i < |impact| && Selects(options.coerce, impact[i], input, scope == options.scope)
  {
    if ReadersUnavailable(options.manifest, report, w.resource) {
      assert ReadsResource(options.manifest[i], w.resource);
      UnavailableSelects(options, report, facts, impact, i);
    } else if impact != UnavailableImpact(options) {
      var fact :| fact in facts && Covers(options.resources[w.resource], fact, w);
      var k :| 0 <= k < |facts| && facts[k] == fact;
      CalculatorSound(options, db, facts, impact, i, j, k, w, input, scope);
    }
  }

  // ------------------------------------------------------------ the whole command

  /** Every visible write to an observed table is covered by what was drained. */
  ghost predicate DrainCovers(resources: Resources, observed: set<string>, drained: seq<WriteFact>, written: seq<RowWrite>) {
    forall w :: w in written && w.resource in resources && w.resource in observed && Visibly(w) ==>
      CoveredInLog(resources, drained, w)
  }

  /** Every resource is observed, or the endpoints that read it are unavailable. */
  ghost predicate Attended(options: Options, observed: set<string>, report: Report) {
    forall name :: name in options.resources ==> name in observed || ReadersUnavailable(options.manifest, report, name)
  }

  /**
   After COMMIT, for either adapter: fold the drained rows into the log and calculate. Every visible write of
   the committed transaction is accounted for by what the calculator saw.
   */
  method ImpactOfCommand(
      options: Options, rows: seq<ObserverRow>, log: WriteSet, report: Report, equality: set<string>,
      ghost observed: set<string>, ghost drained: seq<WriteFact>, ghost written: seq<RowWrite>)
      returns (assessed: Report, impact: Impact)
    requires log.Valid() && Complete(options.manifest, report)
    requires FitsBroad(options.sizes, ManifestEndpoints(options.manifest))
    requires AllReceived(drained, rows) && DrainCovers(options.resources, observed, drained, written)
    requires Attended(options, observed, report)
    modifies log
    ensures log.Valid() && log.closed && Worse(report, assessed)
    ensures Trusted(options.(assessment := Some(assessed)), assessed, log.Snapshot(), impact)
    ensures forall w :: w in written && w.resource in options.resources && Visibly(w) ==>
      WriteAccounted(options, log.Snapshot(), assessed, w)
  {
    hide WriteSet.Valid, ImpactBytes, WriteAccounted, DrainCovers, Accounted, AllReceived, Isolated, Blames, Loggable, BoundsTo;
    ghost var aside;
    assessed, aside := Fold(rows, log, options.manifest, options.resources.Keys, report, equality);
    FoldAccounts(rows, log.added, options.manifest, options.resources.Keys, assessed, equality, aside);
    var final := options.(assessment := Some(assessed));
    var calculated := CalculateImpact(final, log.Snapshot());
    impact := if calculated.Some? then calculated.value else UnavailableImpact(final);
    BoundedIsReturned(final, log.Snapshot(), calculated, impact);
    log.Close();
    forall w | w in written && w.resource in options.resources && Visibly(w)
      ensures WriteAccounted(options, log.Snapshot(), assessed, w)
    {
      DrainedIsAccounted(options, observed, drained, written, rows, log, equality, report, assessed, w);
    }
  }

  lemma BoundedIsReturned(options: Options, facts: seq<WriteFact>, calculated: Option<Impact>, impact: Impact)
    requires calculated.Some? ==> Calculate.Registered(options, facts) && exists exact ::
      AllReported(options, AllHits(options, facts), exact) && BoundsTo(options.sizes, exact, calculated.value)
    requires impact == if calculated.Some? then calculated.value else UnavailableImpact(options)
    ensures ReturnedFor(options, facts, impact)
  {
    hide ImpactBytes, GoesFirst, EarlierIsOver;
    if calculated.Some? {
      var exact :| AllReported(options, AllHits(options, facts), exact) && BoundsTo(options.sizes, exact, calculated.value);
      assert ImpactWidened(exact, impact);
    }
  }

  lemma DrainedIsAccounted(
      options: Options, observed: set<string>, drained: seq<WriteFact>, written: seq<RowWrite>, rows: seq<ObserverRow>,
      log: WriteSet, equality: set<string>, before: Report, report: Report, w: RowWrite)
    requires log.Valid() && Complete(options.manifest, report) && Worse(before, report)
    requires AllReceived(drained, rows) && DrainCovers(options.resources, observed, drained, written)
    requires Attended(options, observed, before)
    requires forall row :: row in rows ==>
      Accounted(row, log.added, options.manifest, options.resources.Keys, report, equality)
    requires w in written && w.resource in options.resources && Visibly(w)
    ensures WriteAccounted(options, log.Snapshot(), report, w)
  {
    if ReadersUnavailable(options.manifest, before, w.resource) {
      assert ReadersUnavailable(options.manifest, report, w.resource);
    } else {
      WriteIsAccounted(options, drained, rows, log, options.resources.Keys, equality, report, w);
    }
  }

  /** The manifest lists what the compiler derived from the plans. */
  ghost predicate CompiledFrom(options: Options, world: World, rank: Ranking, id: string, i: nat)
    requires Ranked(world.queries, rank) && id in world.queries
  {
    && i < |options.manifest|
    && options.manifest[i] == EndpointReads(id, ManifestReads(world.queries, rank, id))
    && options.resources == world.resources && options.coerce == world.db.coerce
  }

  /** Rows of a scoped resource never show in another scope than the command's. */
  ghost predicate StaysInScope(options: Options, scope: Scalar, written: seq<RowWrite>) {
    scope == options.scope
    || forall w, resource ::
         w in written && w.resource in options.resources && resource == options.resources[w.resource]
         && resource.scopeColumn.Some? ==>
           (w.before.Some? ==> !Visible(resource, scope, w.before.value))
           && (w.after.Some? ==> !Visible(resource, scope, w.after.value))
  }

  lemma OutOfScope(options: Options, db: Database, read: Read, input: Input, scope: Scalar, written: seq<RowWrite>, w: RowWrite)
    requires StaysInScope(options, scope, written) && w in written
    requires Affects(db, options.resources, read, input, scope, w)
    ensures scope == options.scope || options.resources[w.resource].scopeColumn.None?
  {
  }

  /** What both adapters have to provide about a committed transaction. */
  ghost predicate Accounts(
    options: Options, world: World, written: seq<RowWrite>, after: Tables, facts: seq<WriteFact>, report: Report)
  {
    && Sequential(world.tables, written) && after == ApplyAll(world.tables, written)
    && StaysInScope(options, world.scope, written)
    && forall w :: w in written && w.resource in options.resources && Visibly(w) ==> WriteAccounted(options, facts, report, w)
  }

  /**
   Result changed, therefore input selected. Run any query of any caller before and after a committed
   transaction whose visible writes are accounted for, with arbitrary plan callbacks. If the two runs differ in
   anything they return or execute, the impact selects the caller's input for that endpoint.
   */
  lemma DifferenceIsSelected(
      options: Options, world: World, rank: Ranking, written: seq<RowWrite>, after: Tables,
      report: Report, facts: seq<WriteFact>, impact: Impact, id: string, raw: Raw, i: nat)
    requires Lawful(world.db)
    requires Ranked(world.queries, rank) && id in world.queries && Noninterference.Registered(world, rank, id)
    requires CompiledFrom(options, world, rank, id, i)
    requires Trusted(options, report, facts, impact)
    requires Accounts(options, world, written, after, facts, report)
    requires RunQuery(world, rank, id, raw) != RunQuery(world.(tables := after), rank, id, raw)
    ensures i < |impact| && impact[i].endpoint == id
    ensures Selects(options.coerce, impact[i], CallerInput(raw), world.scope == options.scope)
  {
    hide RunQuery, Affects, Selects, Covers, Trusted, Covering, Ranked, StaysInScope;
    assert world.(tables := after) == AfterAll(world, written);
    var k, read := DifferenceHasCause(world, rank, id, raw, written);
    var w := written[k];
    var j :| 0 <= j < |options.manifest[i].dependencies| && options.manifest[i].dependencies[j] == read;
    AffectsVisibly(world.db, world.resources, read, CallerInput(raw), world.scope, w);
    OutOfScope(options, world.db, read, CallerInput(raw), world.scope, written, w);
    ImpactNames(options, report, facts, impact, i);
    AffectsWritten(world.db, world.resources, read, CallerInput(raw), world.scope, w);
    AccountedSelects(options, world.db, report, facts, impact, i, j, w, CallerInput(raw), world.scope);
  }

  /** Whoever asks again, any query with any input: what differs from before is selected. */
  ghost predicate SelectsChanges(options: Options, world: World, rank: Ranking, after: Tables, impact: Impact)
    requires Ranked(world.queries, rank)
  {
    forall id, raw, i: nat ::
      (id in world.queries && Noninterference.Registered(world, rank, id) && CompiledFrom(options, world, rank, id, i)
       && RunQuery(world, rank, id, raw) != RunQuery(world.(tables := after), rank, id, raw)) ==>
        && i < |impact| && impact[i].endpoint == id
        && Selects(options.coerce, impact[i], CallerInput(raw), world.scope == options.scope)
  }

  lemma AccountsFor(
      options: Options, world: World, written: seq<RowWrite>, after: Tables, facts: seq<WriteFact>, report: Report)
    requires Sequential(world.tables, written) && after == ApplyAll(world.tables, written)
    requires StaysInScope(options, world.scope, written)
    requires forall w :: w in written && w.resource in options.resources && Visibly(w) ==> WriteAccounted(options, facts, report, w)
    ensures Accounts(options.(assessment := Some(report)), world, written, after, facts, report)
  {
    hide Sequential, ApplyAll, Visibly, CoveredInLog, ReadersUnavailable, Visible;
  }

  lemma ChangesAreSelected(
      options: Options, world: World, rank: Ranking, written: seq<RowWrite>, after: Tables, report: Report,
      facts: seq<WriteFact>, impact: Impact)
    requires Lawful(world.db) && Ranked(world.queries, rank)
    requires Trusted(options.(assessment := Some(report)), report, facts, impact)
    requires Sequential(world.tables, written) && after == ApplyAll(world.tables, written)
    requires StaysInScope(options, world.scope, written)
    requires forall w :: w in written && w.resource in options.resources && Visibly(w) ==> WriteAccounted(options, facts, report, w)
    ensures SelectsChanges(options, world, rank, after, impact)
  {
    AccountsFor(options, world, written, after, facts, report);
    hide Accounts, RunQuery, Selects, Trusted, Ranked, Noninterference.Registered;
    var final := options.(assessment := Some(report));
    forall id, raw, i: nat |
      id in world.queries && Noninterference.Registered(world, rank, id) && CompiledFrom(options, world, rank, id, i)
      && RunQuery(world, rank, id, raw) != RunQuery(world.(tables := after), rank, id, raw)
      ensures i < |impact| && impact[i].endpoint == id
      ensures Selects(options.coerce, impact[i], CallerInput(raw), world.scope == options.scope)
    {
      DifferenceIsSelected(final, world, rank, written, after, report, facts, impact, id, raw, i);
    }
  }

  // ---------------------------------------------------------------- PostgreSQL

  ghost predicate Defines(observers: map<string, Observer>, resources: Resources) {
    forall name :: name in observers && name in resources ==> observers[name].resource == resources[name]
  }

  /** The facts drained before COMMIT cover every visible write of the transaction. */
  lemma CommitDrainCovers(
      resources: Resources, measure: Measure, observers: map<string, Observer>, tables: Tables, work: Program, settled: nat,
      finishing: nat)
    requires Honest(measure) && Defines(observers, resources)
    requires Commit(Collecting(measure, observers), tables, work, settled, finishing).Some?
    ensures var done := Commit(Collecting(measure, observers), tables, work, settled, finishing).value;
      && Sequential(tables, done.written) && done.tables == ApplyAll(tables, done.written)
      && DrainCovers(resources, observers.Keys, done.drained, done.written)
  {
    var config := Collecting(measure, observers);
    CollectingIsSane(measure, observers);
    NoSilentOmission(config, tables, work, settled, finishing);
    hide Commit, Covers, Visibly;
    var done := Commit(config, tables, work, settled, finishing).value;
    forall w | w in done.written && w.resource in resources && w.resource in observers.Keys && Visibly(w)
      ensures CoveredInLog(resources, done.drained, w)
    {
      assert Observed(config, w) && CoveredBy(config, done.drained, w);
    }
  }

  /**
   The PostgreSQL command from its first write to its impact: arbitrary work and triggers over the trigger's own
   compaction loop, COMMIT, the drained rows as the adapter received them, and the calculator. Every result that
   differs after the commit is selected, or its endpoint is unavailable.
   */
  method CommandSelectsChanges(
      options: Options, rows: seq<ObserverRow>, log: WriteSet, report: Report, equality: set<string>,
      ghost measure: Measure, ghost observers: map<string, Observer>, ghost world: World, ghost rank: Ranking,
      ghost work: Program, ghost settled: nat, ghost finishing: nat)
      returns (assessed: Report, impact: Impact)
    requires log.Valid() && Complete(options.manifest, report)
    requires FitsBroad(options.sizes, ManifestEndpoints(options.manifest))
    requires Lawful(world.db) && Ranked(world.queries, rank)
    requires Honest(measure) && Defines(observers, options.resources)
    requires Attended(options, observers.Keys, report)
    requires Commit(Collecting(measure, observers), world.tables, work, settled, finishing).Some?
    requires var done := Commit(Collecting(measure, observers), world.tables, work, settled, finishing).value;
      AllReceived(done.drained, rows) && StaysInScope(options, world.scope, done.written)
    modifies log
    ensures log.Valid() && log.closed && Worse(report, assessed)
    ensures var done := Commit(Collecting(measure, observers), world.tables, work, settled, finishing).value;
      SelectsChanges(options, world, rank, done.tables, impact)
  {
    ghost var done := Commit(Collecting(measure, observers), world.tables, work, settled, finishing).value;
    CommitDrainCovers(options.resources, measure, observers, world.tables, work, settled, finishing);
    hide *;
    assessed, impact := ImpactOfCommand(
      options, rows, log, report, equality, observers.Keys, done.drained, done.written);
    ChangesAreSelected(options, world, rank, done.written, done.tables, assessed, log.Snapshot(), impact);
  }

  // -------------------------------------------------------------------- SQLite

  /** Where a SQLite command ends: the tables it commits, its surviving writes, its collector. */
  ghost function SqliteEnd(
    measure: Measure, observers: map<string, Observer>, tables: Tables, events: seq<SqliteCollectors.Event>)
    : SqliteCollectors.Snapshot
    requires SqliteCollectors.CanRun(measure, observers, SqliteCollectors.Fresh(tables), events)
  {
    SqliteCollectors.RunEvents(measure, observers, SqliteCollectors.Fresh(tables), events).now
  }

  lemma SqliteDrainCovers(
      resources: Resources, measure: Measure, observers: map<string, Observer>, tables: Tables,
      events: seq<SqliteCollectors.Event>, drained: seq<WriteFact>)
    requires Defines(observers, resources)
    requires SqliteCollectors.CanRun(measure, observers, SqliteCollectors.Fresh(tables), events)
    requires SqliteCollectors.Drains(SqliteEnd(measure, observers, tables, events).collected, drained)
    ensures var end := SqliteEnd(measure, observers, tables, events);
      && Sequential(tables, end.written) && end.tables == ApplyAll(tables, end.written)
      && DrainCovers(resources, observers.Keys, drained, end.written)
  {
    hide SqliteCollectors.CanRun, SqliteCollectors.RunEvents, SqliteCollectors.Drains, Covers, Visibly;
    var end := SqliteEnd(measure, observers, tables, events);
    SqliteCollectors.CollectorIsTidy(measure, observers, tables, events);
    forall w | w in end.written && w.resource in resources && w.resource in observers.Keys && Visibly(w)
      ensures CoveredInLog(resources, drained, w)
    {
      SqliteCollectors.CollectorIsFaithful(measure, observers, tables, events, drained, w);
    }
  }

  /** The SQLite command from its first write to its impact, for every run of row writes and nested savepoints. */
  method SqliteCommandSelectsChanges(
      options: Options, rows: seq<ObserverRow>, log: WriteSet, report: Report, equality: set<string>,
      ghost measure: Measure, ghost observers: map<string, Observer>, ghost world: World, ghost rank: Ranking,
      ghost events: seq<SqliteCollectors.Event>, ghost drained: seq<WriteFact>)
      returns (assessed: Report, impact: Impact)
    requires log.Valid() && Complete(options.manifest, report)
    requires FitsBroad(options.sizes, ManifestEndpoints(options.manifest))
    requires Lawful(world.db) && Ranked(world.queries, rank)
    requires Defines(observers, options.resources) && Attended(options, observers.Keys, report)
    requires SqliteCollectors.CanRun(measure, observers, SqliteCollectors.Fresh(world.tables), events)
    requires var end := SqliteEnd(measure, observers, world.tables, events);
      && SqliteCollectors.Drains(end.collected, drained) && AllReceived(drained, rows)
      && StaysInScope(options, world.scope, end.written)
    modifies log
    ensures log.Valid() && log.closed && Worse(report, assessed)
    ensures SelectsChanges(options, world, rank, SqliteEnd(measure, observers, world.tables, events).tables, impact)
  {
    ghost var end := SqliteEnd(measure, observers, world.tables, events);
    SqliteDrainCovers(options.resources, measure, observers, world.tables, events, drained);
    hide *;
    assessed, impact := ImpactOfCommand(options, rows, log, report, equality, observers.Keys, drained, end.written);
    ChangesAreSelected(options, world, rank, end.written, end.tables, assessed, log.Snapshot(), impact);
  }

  lemma AffectsWritten(db: Database, resources: Resources, read: Read, input: Input, scope: Scalar, w: RowWrite)
    ensures Affects(db, resources, read, input, scope, w) ==> w.resource in resources && read.resource == w.resource
  {
  }
}
