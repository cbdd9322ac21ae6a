/** The adapter's side of a command: the commit state machine, and folding drained rows into the write log. */
module Commands {
  import opened Contracts
  import opened Facts
  import opened Reads
  import opened WriteSets
  import opened Assessments

  // ---------------------------------------------------- commit state machine

  /** A failed statement carries its SQLSTATE or driver code. */
  datatype Reply = Done | Failed(code: string)

  datatype Sql = Preamble | Setup | Work | Constraints | Drain | SealPhase | CommitSql | RollbackSql

  datatype Disposal = ToPool | Discarded

  datatype CommitState = BeforeCommit | CommitInFlight | Committed | CommitRejected | CommitUnknown

  datatype Result = Data | Error(code: string) | StateUnknown

  /** Everything the outside decides during one command. `undiscardable` sessions cannot be thrown away. */
  datatype Script = Script(
    preamble: Reply, setup: Reply, work: Reply, settle: Reply, constraints: Reply, drain: Reply, seal: Reply,
    commit: Reply, rollback: Reply, canDiscard: bool, disposal: Reply)

  predicate AlphaNumeric(c: char) {
    '0' <= c <= '9' || 'A' <= c <= 'Z'
  }

  /** Five characters of an SQLSTATE the server sent; connection failures and 40003 settle nothing. */
  predicate DefiniteRejection(code: string) {
    && |code| == 5 && (forall i :: 0 <= i < 5 ==> AlphaNumeric(code[i]))
    && code[..2] != "08" && code != "40003"
  }

  function Then(first: Option<string>, next: Reply): Option<string> {
    if first.Some? then first else if next.Failed? then Some(next.code) else None
  }

  /** What `command` throws before COMMIT: the first failure, the callback's own before that of settling. */
  function FirstFailure(script: Script): Option<string> {
    Then(Then(Then(Then(Then(Then(Then(
      None, script.preamble), script.setup), script.work), script.settle), script.constraints), script.drain), script.seal)
  }

  /** What happens before COMMIT, in the order in which a failure counts. */
  function Steps(script: Script): seq<Reply> {
    [script.preamble, script.setup, script.work, script.settle, script.constraints, script.drain, script.seal]
  }

  /** The failure thrown is that of the first step that failed. */
  lemma FailureExactly(script: Script, code: string)
    ensures FirstFailure(script) == Some(code) <==>
      exists k :: 0 <= k < 7 && Steps(script)[k] == Failed(code) && forall j :: 0 <= j < k ==> Steps(script)[j].Done?
  {
    var steps := Steps(script);
    assert forall k :: 0 <= k < 7 ==> steps[k].Done? || steps[k].Failed?;
    if k :| 0 <= k < 7 && steps[k] == Failed(code) && forall j :: 0 <= j < k ==> steps[j].Done? {
      assert forall j :: 0 <= j < k ==> steps[j] == Done;
      assert k == 0 || k == 1 || k == 2 || k == 3 || k == 4 || k == 5 || k == 6;
      assert steps[0] == script.preamble && steps[1] == script.setup && steps[2] == script.work && steps[3] == script.settle;
      assert steps[4] == script.constraints && steps[5] == script.drain && steps[6] == script.seal;
    }
    if FirstFailure(script) == Some(code) {
      var k := if steps[0].Failed? then 0 else if steps[1].Failed? then 1 else if steps[2].Failed? then 2
               else if steps[3].Failed? then 3 else if steps[4].Failed? then 4 else if steps[5].Failed? then 5 else 6;
      assert steps[k] == Failed(code);
    }
  }

  /** The callback ran, and what it left behind could not be settled. */
  predicate Unsettled(script: Script) {
    script.preamble.Done? && script.setup.Done? && script.settle.Failed?
  }

  /** One reserved session: what was sent on it, and how it was given back. */
  class Session {
    const script: Script
    var sent: seq<Sql>
    var disposals: seq<Disposal>
    /** The pool is no longer used once a session could not be given back safely. */
    var quarantined: bool

    constructor (script: Script)
      ensures this.script == script && sent == [] && disposals == [] && !quarantined
    {
      this.script := script;
      sent, disposals, quarantined := [], [], false;
    }

    method Send(sql: Sql, reply: Reply)
      modifies this`sent
      ensures sent == old(sent) + [sql]
    {
      sent := sent + [sql];
    }

    /** `releaseTransactionConnection` and the quarantine around it. */
    method Dispose(broken: bool)
      modifies this`disposals, this`quarantined
      ensures disposals == old(disposals) + if broken && !script.canDiscard then [] else [if broken then Discarded else ToPool]
      ensures quarantined <==> old(quarantined) || (broken && !script.canDiscard) || script.disposal.Failed?
    {
      if broken && !script.canDiscard {
        quarantined := true;
        return;
      }
      disposals := disposals + [if broken then Discarded else ToPool];
      if script.disposal.Failed? {
        quarantined := true;
      }
    }

    /** Every statement up to the seal; the first failure ends the attempt. */
    method Attempt() returns (failure: Option<string>, broken: bool)
      requires sent == []
      modifies this`sent
      ensures CommitSql !in sent && RollbackSql !in sent
      ensures failure == FirstFailure(script) && broken == Unsettled(script)
      ensures failure.None? ==> sent == [Preamble, Setup, Work, Constraints, Drain, SealPhase]
    {
      broken := false;
      Send(Preamble, script.preamble);
      if script.preamble.Failed? {
        return Some(script.preamble.code), false;
      }
      Send(Setup, script.setup);
      if script.setup.Failed? {
        return Some(script.setup.code), false;
      }
      Send(Work, script.work);
      if script.settle.Failed? {
        broken := true;
      }
      if script.work.Failed? {
        return Some(script.work.code), broken;
      }
      if script.settle.Failed? {
        return Some(script.settle.code), broken;
      }
      Send(Constraints, script.constraints);
      if script.constraints.Failed? {
        return Some(script.constraints.code), false;
      }
      Send(Drain, script.drain);
      if script.drain.Failed? {
        return Some(script.drain.code), false;
      }
      Send(SealPhase, script.seal);
      if script.seal.Failed? {
        return Some(script.seal.code), false;
      }
      return None, false;
    }

    /**
     `command`: exactly one of the three outcomes. Data only after the server confirmed COMMIT; an error
     only with a rollback attempted and no commit; the unknown state with no rollback sent and the session
     never returned to the pool.
     */
    method Command() returns (result: Result)
      requires sent == [] && disposals == [] && !quarantined
      modifies this
      ensures result.Data? <==> FirstFailure(script).None? && script.commit.Done?
      ensures FirstFailure(script).Some? ==> result == Error(FirstFailure(script).value)
      ensures FirstFailure(script).None? && script.commit.Failed? ==>
        var code := script.commit.code;
        if |code| == 5 && (forall i :: 0 <= i < 5 ==> '0' <= code[i] <= '9' || 'A' <= code[i] <= 'Z')
           && !(code[0] == '0' && code[1] == '8') && code != "40003"
        then result == Error(code) else result == StateUnknown
      ensures result.Data? ==>
        sent == [Preamble, Setup, Work, Constraints, Drain, SealPhase, CommitSql] && disposals == [ToPool]
      ensures result.Error? ==> sent != [] && sent[|sent| - 1] == RollbackSql && RollbackSql !in sent[..|sent| - 1]
      ensures CommitSql in sent <==> FirstFailure(script).None?
      ensures result.StateUnknown? ==> RollbackSql !in sent && ToPool !in disposals
      ensures |disposals| <= 1 && (disposals == [] ==> quarantined)
      ensures ToPool in disposals <==>
        || result.Data?
        || (result.Error? && script.rollback.Done?
            && !(script.preamble.Done? && script.setup.Done? && script.settle.Failed?))
      ensures quarantined ==> script.disposal.Failed? || (!script.canDiscard && ToPool !in disposals)
    {
      var state := BeforeCommit;
      var failure, broken := Attempt();
      if failure.None? {
        state := CommitInFlight;
        Send(CommitSql, script.commit);
        if script.commit.Done? {
          state := Committed;
        } else if DefiniteRejection(script.commit.code) {
          state := CommitRejected;
          failure := Some(script.commit.code);
        } else {
          state := CommitUnknown;
        }
      }
      if state.CommitUnknown? {
        broken := true;
      }
      if state.BeforeCommit? || state.CommitRejected? {
        assert RollbackSql !in sent;
        Send(RollbackSql, script.rollback);
        if script.rollback.Failed? {
          broken := true;
        }
      }
      Dispose(broken);
      result := if state.Committed? then Data else if state.CommitUnknown? then StateUnknown else Error(failure.value);
    }
  }

  // --------------------------------------------------- folding drained rows

  /** A drained row: a well-formed fact, or one that does not parse and may not even name a resource. */
  datatype ObserverRow = Readable(fact: WriteFact) | Unreadable(resource: Option<string>)

  function NamedResource(row: ObserverRow): Option<string> {
    match row
    case Readable(fact) => Some(fact.resource)
    case Unreadable(resource) => resource
  }

  function Loosen(state: RowState): RowState {
    if state.Known? then state.(equality := None) else state
  }

  /** Equality values are kept only for resources whose columns validation certified. */
  function Certified(equality: set<string>, fact: WriteFact): WriteFact {
    if fact.resource in equality then fact
    else fact.(before := Loosen(fact.before), after := Loosen(fact.after))
  }

  /** A certified resource's fact is kept as it is; of any other only the equality values go. */
  lemma CertifiedExactly(equality: set<string>, fact: WriteFact)
    ensures fact.resource in equality ==> Certified(equality, fact) == fact
    ensures fact.resource !in equality ==>
      var kept := Certified(equality, fact);
      && kept.resource == fact.resource && kept.operation == fact.operation && kept.changed == fact.changed
      && OnlyWithoutEquality(fact.before, kept.before) && OnlyWithoutEquality(fact.after, kept.after)
  {
  }

  predicate OnlyWithoutEquality(before: RowState, after: RowState) {
    if before.Known? then after == Known(before.scope, before.fields, None) else after == before
  }

  lemma CertifiedIsUpper(equality: set<string>, fact: WriteFact)
    ensures LeqFact(fact, Certified(equality, fact))
  {
  }

  predicate ReadsResource(entry: EndpointReads, resource: string) {
    exists i :: 0 <= i < |entry.dependencies| && entry.dependencies[i].resource == resource
  }

  ghost predicate Complete(manifest: Manifest, report: Report) {
    forall i :: 0 <= i < |manifest| ==> manifest[i].endpoint in report
  }

  ghost predicate Worse(before: Report, after: Report) {
    before.Keys == after.Keys && forall endpoint :: endpoint in before ==> Rank(before[endpoint]) <= Rank(after[endpoint])
  }

  ghost predicate ReadersUnavailable(manifest: Manifest, report: Report, resource: string) {
    forall i :: 0 <= i < |manifest| && ReadsResource(manifest[i], resource) ==>
      manifest[i].endpoint in report && report[manifest[i].endpoint].Unavailable?
  }

  ghost predicate AllUnavailable(report: Report) {
    forall endpoint :: endpoint in report ==> report[endpoint].Unavailable?
  }

  /** `assessResource`: every endpoint that reads the resource takes the assessment on. */
  method AssessResource(manifest: Manifest, report: Report, resource: string, assessment: Assessment) returns (assessed: Report)
    requires Complete(manifest, report)
    ensures Worse(report, assessed)
    ensures assessment.Unavailable? ==> ReadersUnavailable(manifest, assessed, resource)
    ensures forall i :: 0 <= i < |manifest| && ReadsResource(manifest[i], resource) ==>
      assessed[manifest[i].endpoint] == Merge(report[manifest[i].endpoint], assessment)
    ensures forall endpoint :: endpoint in report && assessed[endpoint] != report[endpoint] ==>
      && assessed[endpoint] == Merge(report[endpoint], assessment)
      && exists i :: 0 <= i < |manifest| && manifest[i].endpoint == endpoint && ReadsResource(manifest[i], resource)
  {
    assessed := report;
    hide Merge, ReadsResource;
    for i := 0 to |manifest|
      invariant assessed.Keys == report.Keys
      invariant forall k :: 0 <= k < i && ReadsResource(manifest[k], resource) ==>
        assessed[manifest[k].endpoint] == Merge(report[manifest[k].endpoint], assessment)
      invariant forall endpoint :: endpoint in report && assessed[endpoint] != report[endpoint] ==>
        assessed[endpoint] == Merge(report[endpoint], assessment)
        && exists k :: 0 <= k < i && manifest[k].endpoint == endpoint && ReadsResource(manifest[k], resource)
    {
      if ReadsResource(manifest[i], resource) {
        var endpoint := manifest[i].endpoint;
        MergeTwice(report[endpoint], assessment);
        assessed := assessed[endpoint := Merge(assessed[endpoint], assessment)];
      }
    }
    MergedIsWorse(report, assessed, assessment);
  }

  lemma MergeTwice(status: Assessment, assessment: Assessment)
    ensures Merge(Merge(status, assessment), assessment) == Merge(status, assessment)
  {
    MergeIsJoin(status, assessment, assessment);
  }

  lemma MergedIsWorse(before: Report, after: Report, assessment: Assessment)
    requires before.Keys == after.Keys
    requires forall endpoint :: endpoint in before && after[endpoint] != before[endpoint] ==>
      after[endpoint] == Merge(before[endpoint], assessment)
    ensures Worse(before, after)
    ensures assessment.Unavailable? ==> forall status :: Merge(status, assessment).Unavailable?
  {
  }

  method AssessAll(report: Report, assessment: Assessment) returns (assessed: Report)
    ensures Worse(report, assessed)
    ensures forall endpoint :: endpoint in report ==> assessed[endpoint] == Merge(report[endpoint], assessment)
    ensures assessment.Unavailable? ==> AllUnavailable(assessed)
  {
    assessed := map endpoint | endpoint in report :: Merge(report[endpoint], assessment);
  }

  /** The row names a resource this deployment knows. */
  predicate Identified(row: ObserverRow, registered: set<string>) {
    NamedResource(row).Some? && NamedResource(row).value in registered
  }

  /** What became of a drained row that is not in the log: its readers, or everybody, cannot trust the impact. */
  ghost predicate Isolated(row: ObserverRow, manifest: Manifest, registered: set<string>, report: Report) {
    if Identified(row, registered) then ReadersUnavailable(manifest, report, NamedResource(row).value)
    else AllUnavailable(report)
  }

  ghost predicate Accounted(
    row: ObserverRow, added: set<WriteFact>, manifest: Manifest, registered: set<string>, report: Report, equality: set<string>)
  {
    (row.Readable? && Certified(equality, row.fact) in added) || Isolated(row, manifest, registered, report)
  }

  lemma IsolatedKept(row: ObserverRow, manifest: Manifest, registered: set<string>, before: Report, after: Report)
    ensures Isolated(row, manifest, registered, before) && Worse(before, after) ==>
      Isolated(row, manifest, registered, after)
  {
  }

  /** Nothing about the row makes the log refuse it. */
  ghost predicate Loggable(row: ObserverRow, closed: bool, logged: Option<set<string>>, equality: set<string>) {
    row.Readable? && Welcome(closed, logged, [Certified(equality, row.fact)])
  }

  /** The endpoint suffers for a lost row only if it reads the row's resource, or if nobody can tell. */
  ghost predicate Blames(row: ObserverRow, manifest: Manifest, registered: set<string>, endpoint: string) {
    Identified(row, registered) ==>
      exists i :: 0 <= i < |manifest| && manifest[i].endpoint == endpoint && ReadsResource(manifest[i], NamedResource(row).value)
  }

  /** One row that stays out of the log: what it does to the report, and to whom. */
  ghost predicate SetAside(
    row: ObserverRow, manifest: Manifest, registered: set<string>, before: Report, after: Report)
  {
    && Worse(before, after) && Isolated(row, manifest, registered, after)
    && forall endpoint :: endpoint in before && after[endpoint] != before[endpoint] ==>
         && after[endpoint] == Merge(before[endpoint], Unavailable({ObservationFailed}))
         && Blames(row, manifest, registered, endpoint)
  }

  /**
   The loop after COMMIT. A row is either in the log or set aside; what is set aside makes exactly the readers
   of its resource unavailable, or every endpoint if its resource cannot be told, and nothing else in the
   report changes. The log refuses only what it has a reason to refuse.
   */
  method Fold(
      rows: seq<ObserverRow>, log: WriteSet, manifest: Manifest, registered: set<string>, report: Report,
      equality: set<string>) returns (assessed: Report, ghost aside: set<nat>)
    requires log.Valid() && Complete(manifest, report)
    modifies log`order, log`entries, log`added
    ensures log.Valid() && Worse(report, assessed) && old(log.added) <= log.added
    ensures forall k :: 0 <= k < |rows| && k !in aside ==> rows[k].Readable? && Certified(equality, rows[k].fact) in log.added
    ensures forall k :: k in aside ==>
      k < |rows| && Isolated(rows[k], manifest, registered, assessed) && !Loggable(rows[k], log.closed, log.registered, equality)
    ensures forall endpoint :: endpoint in report && assessed[endpoint] != report[endpoint] ==>
      && assessed[endpoint] == Merge(report[endpoint], Unavailable({ObservationFailed}))
      && exists k :: k in aside && Blames(rows[k], manifest, registered, endpoint)
  {
    assessed, aside := report, {};
    hide WriteSet.Valid, Isolated, Blames, Loggable, Merge;
    for i := 0 to |rows|
      invariant log.Valid() && Worse(report, assessed) && old(log.added) <= log.added
      invariant forall k :: 0 <= k < i && k !in aside ==> rows[k].Readable? && Certified(equality, rows[k].fact) in log.added
      invariant forall k :: k in aside ==>
        k < i && Isolated(rows[k], manifest, registered, assessed) && !Loggable(rows[k], log.closed, log.registered, equality)
      invariant forall endpoint :: endpoint in report && assessed[endpoint] != report[endpoint] ==>
        && assessed[endpoint] == Merge(report[endpoint], Unavailable({ObservationFailed}))
        && exists k :: k in aside && Blames(rows[k], manifest, registered, endpoint)
    {
      ghost var earlier, before := assessed, aside;
      var kept;
      assessed, kept := FoldRow(rows[i], log, manifest, registered, assessed, equality);
      if !kept {
        aside := aside + {i};
        forall k | k in before ensures Isolated(rows[k], manifest, registered, assessed) {
          IsolatedKept(rows[k], manifest, registered, earlier, assessed);
        }
        forall endpoint | endpoint in report && assessed[endpoint] != report[endpoint]
          ensures assessed[endpoint] == Merge(report[endpoint], Unavailable({ObservationFailed}))
          ensures exists k :: k in aside && Blames(rows[k], manifest, registered, endpoint)
        {
          MergeTwice(report[endpoint], Unavailable({ObservationFailed}));
          if assessed[endpoint] != earlier[endpoint] {
            assert i in aside;
          } else {
            var k :| k in before && Blames(rows[k], manifest, registered, endpoint);
            assert k in aside;
          }
        }
      }
    }
  }

  /** One row: in the log with the report untouched, or set aside. */
  method FoldRow(
      row: ObserverRow, log: WriteSet, manifest: Manifest, registered: set<string>, report: Report, equality: set<string>)
      returns (assessed: Report, kept: bool)
    requires log.Valid() && Complete(manifest, report)
    modifies log`order, log`entries, log`added
    ensures log.Valid() && Worse(report, assessed) && old(log.added) <= log.added
    ensures kept <==> row.Readable? && old(log.Refusal(Certified(equality, row.fact))).None?
    ensures kept ==> assessed == report && log.added == old(log.added) + {Certified(equality, row.fact)}
    ensures !kept ==> log.added == old(log.added) && log.entries == old(log.entries)
    ensures !kept ==> SetAside(row, manifest, registered, report, assessed)
    ensures !kept ==> !Loggable(row, log.closed, log.registered, equality)
  {
    hide WriteSet.Valid, Reclaimed, Climbed, OrderWith, Inserted;
    if row.Readable? {
      RefusedHasReason(row, log, equality);
      var refusal := log.AddOne(Certified(equality, row.fact));
      if refusal.None? {
        return report, true;
      }
    }
    kept := false;
    var name := NamedResource(row);
    if name.Some? && name.value in registered {
      assessed := AssessResource(manifest, report, name.value, Unavailable({ObservationFailed}));
    } else {
      assessed := AssessAll(report, Unavailable({ObservationFailed}));
    }
  }

  lemma RefusedHasReason(row: ObserverRow, log: WriteSet, equality: set<string>)
    requires log.Valid() && row.Readable?
    ensures Loggable(row, log.closed, log.registered, equality) ==> log.Refusal(Certified(equality, row.fact)).None?
  {
    if Loggable(row, log.closed, log.registered, equality) {
      log.WelcomeIsAccepted([Certified(equality, row.fact)], Certified(equality, row.fact));
    }
  }
}
