# Server-driven impact: a verified model

After a transaction the system answers one question: which cached query results may be stale? This project models
the path from a row written inside a command to the impact returned for it, and proves that nothing which can change
a cached result is lost on the way.

**From rows to facts.** A write fact describes what a physical row held before and after. `Facts` says which
concrete writes a fact stands for (`Covers`) and orders facts by how loose they are; everything else is stated
against that meaning. `WriteSets` is the transaction's bounded log, which joins facts into summaries when it runs over
its budgets. `Observers` and `Collectors` are the PostgreSQL trigger and its compaction loop, `SqliteCollectors` the
SQLite one, and `Recordings` says that what they record is no looser than it has to be. `Transactions` runs arbitrary work
and trigger programs with deferral and sub-transactions; `Courses` says what such a run comes to.

**From queries to read dependencies.** `SelectTrees` gives nested selects their meaning, with three-valued
predicates, and derives the reads of each table. `Plans` has the plan language, the derivation of manifest reads and
the interpreter; `Compile` is the walk over the call graph; `Noninterference` and `Preservation` are the agreement of
the interpreter with the reads. `SelectMeaning` and `Evaluation` say what selects and plans evaluate to, as witnesses and
derivations, and `Derivation` which reads a plan has. `ReadMerges` is the last step of the native query compiler.

**From facts to selectors.** `Calculate`, `Antichain` and `Assessments` compute each endpoint's selectors, keep them
as a bounded antichain and widen them to a byte budget. `Exactness` tells the outcome from the facts and the manifest
alone, over the comparisons of `Comparisons`; `Soundness`, `Statuses` and `Narrowing` say what it means.

**The command around it.** `Commands` is the commit state machine and the folding of drained rows, `Guards` the guard
around the transaction object with its savepoints and `Releases` what it keeps and what it undoes, `Validations` the
stored validation report, `Tokens` and `Pieces` the SQLite adapter's scanner. `EndToEnd` joins observation, collector, drain, log, calculator and interpreter into one statement
for each adapter: whatever a command writes, every result that differs after it is selected or its endpoint is
unavailable. The guard, the commit state machine and the stored report are separate results about the same command.

## Reading the model

- Numbers are `real`; parsing a string as a number is the parameter `Coerce`. Encoded sizes of names, scalars and
  records are the parameter `Sizes`; the constant parts of the encodings are counted. Upper-casing, the sort order of
  bindings and how SQLite breaks ties are parameters as well, so each statement holds for all of them.
- Database equality is a symmetric and transitive relation contained in `scalarMayEqual` (`Reads.Lawful`). Rows of a
  scoped resource are visible to a caller exactly when their scope is the caller's (`Reads.Visible`).
- A native query's declared reads see the columns their bindings constrain (`Plans.Covering`), as the native compiler
  emits them. A comparison whose operand is not a scalar fails before any statement is sent (`Plans.ValueAccepted`):
  SQLite's `value()` refuses it, while PostgreSQL hands it to the driver, where the captured column is not a scalar
  either and the observer's row state is unknown.
- A select's result is any function of its options, its input and the tree of selected rows seen through their
  projections (`World.render`). A native query's answer is any function of the input and of the rows each declared
  read lets through, seen through the columns of that read. Callbacks are arbitrary functions that may throw.
- Work and triggers are arbitrary programs over the whole database (`Transactions.Program`). Their collector is
  compacted by any function that keeps every fact below a remaining one; the trigger's own loop is one
  (`Transactions.CollectingIsSane`). Drained rows may reach the adapter looser than they were recorded, or unreadable
  (`EndToEnd.Received`). Programs do not themselves touch the collector table or the `sdi.*` settings, although the
  runtime role may delete from the collector (`packages/sdi-postgres/src/postgres/index.ts`).
- The manifest lists its endpoints in name order, as the impact does; of equally large selectors the earlier is widened.
- A transaction that keeps a snapshot sees the catalog of the instant it was taken, every other one the catalog of each
  statement's instant (`Validations.Session`). Any statement may fail, and any time may pass before it.
- Every row state admits the missing row, so joining with an absent row loses nothing.

Four findings came out of the proofs; the model keeps the code as it is, shows the run and says exactly when it happens.

- *A worse report can deselect an input.* Byte bounding widens the largest selectors of the whole impact. When one
  endpoint becomes unavailable its targets go, the rest may fit, and another endpoint is no longer widened
  (`NarrowingExample.BoundingMayNarrow`). It happens to an endpoint if and only if its list was widened and the impact
  would fit with every other endpoint unavailable or idle; for results cached under another scope, the endpoint's own
  caller target may be widened too where it goes first (`Narrowing.NeverLosesExactly`). It never happens while the
  better impact fits (`Narrowing.FittingNeverLoses`).
- *A failed rollback can misdirect a later one.* Savepoint numbers start again in every child. If `rollback to savepoint`
  fails and the session goes on, the savepoint left behind may have the number an enclosing release or rollback uses
  (`Guards.LostRollbackMisdirects`). A statement finds its own savepoint if and only if no lost savepoint of a deeper
  frame above it has its number (`Guards.SavepointsAreLifo`), and a passed `finish` is clean if and only if nothing such
  a rollback left behind failed or carries a fact (`Guards.FinishIsClean`).
- *A stored report can be pessimistic.* A validation that fails midway for a transient reason, while the catalog stands
  still, is recorded with the hash of that catalog (`Validations.PessimisticRowHappens`), although a comment in
  `packages/sdi-postgres/src/postgres/transaction-gate.ts` speaks of recording what a live validation proved. It happens
  if and only if a look of the accepted attempt fails and the catalog's own verdict is not to give up in the same way
  (`Validations.RecordableExactly`, `Validations.LooksFail`).
- *A later read can accept a report older than the adapter's decision.* Under `repeatable read`, the default, the hash a
  recorder compares comes from its snapshot, so the comparison in `record_validation` sees no DDL since then, while
  `validated_at` is the clock. A read without the catalog gate may therefore accept the report of a catalog that was gone
  when its adapter decided (`Validations.LateRecorder`). The report is of a catalog no older than the decision's if and
  only if the recorder's snapshot is no older or none of the covered schemas changed in between
  (`Validations.SinceExactly`). Gated reads always use the report of the catalog they see.

## Model

| member | source | states |
|---|---|---|
| EndToEnd.CommandSelectsChanges | packages/sdi-runtime/src/runtime/index.ts:80-115 | Result changed, therefore input selected, for the PostgreSQL command as a whole: from arbitrary work and triggers over the trigger's own compaction loop, through seal, COMMIT, the drained rows as received, the log and the calculator, to an impact that selects every raw input of every query whose answer or executed SQL differs afterwards, or marks the endpoint unavailable |
| EndToEnd.SqliteCommandSelectsChanges | packages/sdi-sqlite/src/sqlite/index.ts:459-513 | The same for the SQLite command as a whole, from every run of row writes and nested savepoints to the impact |
| EndToEnd.ChangesAreSelected | packages/sdi-runtime/src/runtime/index.ts:80-115 | What both rest on: an impact trusted for a log that accounts for the visible writes selects every result that changed |
| EndToEnd.DifferenceIsSelected | packages/sdi-runtime/src/runtime/index.ts:102-115 | For one query and one raw input, over any committed transaction whose visible writes are accounted for |
| EndToEnd.CommitDrainCovers | packages/sdi-postgres/src/postgres/index.ts:335-389 | What is drained before COMMIT covers every visible surviving write to an observed table, with the compaction loop as it is |
| EndToEnd.SqliteDrainCovers | packages/sdi-sqlite/src/sqlite/index.ts:425-493 | What is drained from the SQLite tables covers every visible write that was not undone |
| OtherScope.OtherScopeIsMissed | packages/sdi-core/src/calculate.ts:94-97 | Rows have to stay in the command's scope: a covered write of another scope changes that scope's result and its caller is not selected |
| EndToEnd.ImpactOfCommand | packages/sdi-runtime/src/runtime/index.ts:80-95 | After COMMIT every visible surviving write is covered by a fact in the closed log, or every endpoint reading its table is unavailable; the impact is the calculator's for that log, or all-unavailable if the calculator throws |
| EndToEnd.WriteIsAccounted | packages/sdi-postgres/src/postgres/index.ts:402-425 | A drained fact that covers a write still covers it in the log after parsing, certification and compaction, or the readers of the table are unavailable |
| EndToEnd.AccountedSelects | packages/sdi-core/src/calculate.ts:60-246 | An accounted write that reaches a manifest read for some input makes the endpoint's entry select that input |
| EndToEnd.UnavailableSelects | packages/sdi-core/src/assessment.ts:61-75 | An endpoint unavailable in the report is unavailable in the impact, whatever was written |
| Noninterference.PlanStable | packages/sdi-runtime/src/query/plan.ts:433-516 | Non-interference: a write that affects none of the plan's derived reads leaves the data, the errors and the SQL leaves executed by the interpreter unchanged |
| Noninterference.QueryStable | packages/sdi-runtime/src/runtime/index.ts:102-115 | The same for a requested query, with the manifest's reads and the caller's raw input |
| Noninterference.DifferenceHasCause | packages/sdi-runtime/src/runtime/index.ts:102-115 | Across a whole sequence of writes, a changed run exhibits one write and one manifest read of the endpoint that it affects |
| Noninterference.SelectLeafStable | packages/sdi-runtime/src/query/plan.ts:454-457 | A select or a count over unaffected reads returns what it returned |
| Noninterference.NativeLeafStable | packages/sdi-runtime/src/query/plan.ts:458-459 | A native query whose declared reads are unaffected answers the same |
| Noninterference.CallStable | packages/sdi-runtime/src/query/plan.ts:462-480 | Calls keep non-interference: identity hops carry the caller's bound fields or refuse, mapped and opaque hops have dropped their bindings |
| Noninterference.BindStable | packages/sdi-runtime/src/query/plan.ts:498-504 | A derived child input cannot disagree with a selector because the child's bindings were dropped |
| Noninterference.CountAligned | packages/sdi-runtime/src/query/plan.ts:200-206 | Leaving out the optional joins of a count does not change which root rows it counts |
| Evaluation.ExecuteExactly | packages/sdi-runtime/src/query/plan.ts:433-516 | The interpreter ends in a result, an error and a list of executed leaves exactly if a derivation shows it: which branch or named choice was taken, what was derived and projected, how a call mapped, parsed and checked its input, and which error stopped first |
| Evaluation.QueryExactly | packages/sdi-runtime/src/runtime/index.ts:102-115 | A query answers exactly so: it parses the raw input, insists that every field its manifest binds is handed on, and runs the endpoint's plan |
| SelectMeaning.EvalExactly | packages/sdi-sqlite/src/sqlite/select.ts:34-60 | A predicate holds exactly if all of a conjunction, one of a disjunction or none of a negation does, fails dually, and is undetermined elsewhere; a comparison with a null says nothing |
| SelectMeaning.SelectedExactly | packages/sdi-sqlite/src/sqlite/select.ts:23-93 | A row is selected exactly if there are rows to show for it: visible, joined to its parent, every condition true, and for each required join as many distinct child rows as its offset skips and one more |
| SelectMeaning.TreeExactly | packages/sdi-sqlite/src/sqlite/select.ts:61-72 | A selected row has exactly its projected and sorting columns and, per join, the selected child rows that join to it |
| Derivation.CompilesExactly | packages/sdi-sqlite/src/sqlite/select.ts:4-96 | A select or a count is rendered exactly if every table of it is: all names registered, every operand of a kind the statement carries, page numbers in range |
| Derivation.SelectReadsExactly | packages/sdi-runtime/src/query/plan.ts:259-333 | The reads of a select or a count are those of its tables: a table's read binds a column to an input field if and only if its conditions say so on every way they can come true, or the column joins on one of the parent that is so bound; its columns and filters are exactly those the result depends on |
| Derivation.ManifestReadsExactly | packages/sdi-runtime/src/query/plan.ts:334-360 | An endpoint's reads are exactly those of the leaves its plan can reach through any calls, with bindings exactly where every step hands the caller's input on |
| SelectSound.SelectStable | packages/sdi-runtime/src/query/plan.ts:259-333 | A select over a nested join tree returns the same rows, projections and children when the write affects none of the reads derived for it, in any table of the tree |
| SelectSound.AcceptedReaches | packages/sdi-runtime/src/query/plan.ts:308-332 | Any row a table of the tree accepts satisfies every binding, inherited or own, and every filter kept after truncation, of that table's read |
| SelectSound.GuaranteedHold | packages/sdi-runtime/src/query/plan.ts:271-307 | When a predicate is true under three-valued AND, OR and NOT, every guaranteed binding and filter holds of the row |
| SelectSound.GuaranteedExactly | packages/sdi-runtime/src/query/plan.ts:271-307 | The equalities kept are exactly those that stand on every conjunction of the predicate's disjunctive normal form: none invented, none missed |
| SelectSound.UnchangedMeansSame | packages/sdi-runtime/src/query/plan.ts:313-324 | Versions of a row equal on the columns of the read are accepted alike, shown alike and joined alike |
| SelectSound.PropagatedSupplied | packages/sdi-runtime/src/query/plan.ts:326-331 | Bindings on a join's local column give the child inputs equal to the value it joins on; transitivity of database equality in AcceptedReaches carries them to the foreign column |
| SelectSound.ChildrenStable | packages/sdi-sqlite/src/sqlite/select.ts:61-72 | The child rows of an accepted parent row are what they were |
| Compile.CompileAll | packages/sdi-runtime/src/query/plan.ts:213-252 | Compilation succeeds if and only if the call graph can be ranked and every plan names registered resources; a failure names the closed chain of calls, the missing query or the unregistered resource it met |
| Compile.Compiler.Endpoint | packages/sdi-runtime/src/query/plan.ts:216-224 | One endpoint of the depth-first walk: finished endpoints stay finished; a failure returns the chain of calls that closes, or the missing name and its caller |
| Compile.Compiler.Walk | packages/sdi-runtime/src/query/plan.ts:229-251 | The walk of one plan collects the resources of its own leaves and of the endpoints it calls |
| Compile.ExplainedIsBroken | packages/sdi-runtime/src/query/plan.ts:216-228 | A closed chain of calls, a missing query or an unregistered resource each rules out any successful compilation |
| Compile.SourcesMatchReads | packages/sdi-runtime/src/query/plan.ts:225-253 | The collected sources of an endpoint are exactly the resources of the reads derived for it on a separate traversal |
| Reads.DroppedIsWider | packages/sdi-runtime/src/query/plan.ts:342-350 | A read without its bindings is affected by whatever affects the read, for any input |
| Preservation.ExecutedLeafPreserves | packages/sdi-runtime/src/query/plan.ts:462-503 | At every executed leaf whose read keeps a binding in the requested endpoint's manifest, the SQL input carries the caller's raw value of the bound field; every other leaf lies below a mapped, opaque or derived hop and its bindings were dropped |
| Preservation.LeafAccounted | packages/sdi-runtime/src/query/plan.ts:343-350 | Along any depth of calls, a leaf is reached by identity hops alone exactly where its bindings are kept |
| Soundness.CalculatorSound | packages/sdi-core/src/calculate.ts:60-246 | A fact that covers a write which reaches a read for an input makes the returned impact select that input; writes to unscoped resources do so for every scope |
| Soundness.DecideHits | packages/sdi-core/src/calculate.ts:89-147 | The side of the write that reaches the read passes every exclusion rule and contributes a partial input that the caller's input matches |
| Soundness.BoundInputMatches | packages/sdi-core/src/calculate.ts:134-147 | Captured fields bind to values the input matches, also when contradictory bindings collapse to everything |
| Soundness.NotProvedOut | packages/sdi-core/src/calculate.ts:109-120 | A row that satisfies a read's filters is never excluded by certified equality values |
| Soundness.NotUntouched | packages/sdi-core/src/calculate.ts:98-108 | A changed column the read is sensitive to, or a move between scopes, stops the changed-columns exclusion |
| Soundness.ContributionSelects | packages/sdi-core/src/calculate.ts:148-220 | A contributed input stays selected whatever else is contributed before or after |
| Soundness.WidenedSelects | packages/sdi-core/src/assessment.ts:77-102 | Byte bounding never deselects |
| Calculate.CalculateImpact | packages/sdi-core/src/calculate.ts:60-246 | Fails exactly on an unregistered resource; otherwise each endpoint's status and selectors are the antichain of all contributions, bounded by the byte budget |
| Calculate.Calculator.Run | packages/sdi-core/src/calculate.ts:83-225 | The nested loops produce exactly the contributions of every fact, side and read, in order |
| Calculate.Calculator.ProcessRow | packages/sdi-core/src/calculate.ts:86-224 | One side of one fact against all reads of its resource |
| Calculate.Calculator.Consider | packages/sdi-core/src/calculate.ts:90-147 | The exclusion rules and the binding loop for one read decide as the pure rule does |
| Calculate.Calculator.Note | packages/sdi-core/src/calculate.ts:148-221 | One contribution: the target table abstracts to the absorbed contributions and the endpoint is reduced exactly when it was imprecise or limited |
| Calculate.BindRow | packages/sdi-core/src/calculate.ts:134-147 | The binding loop with its early exit on a contradiction |
| Calculate.IndexReads | packages/sdi-core/src/calculate.ts:45-54 | The index lists the reads of every resource in manifest order |
| Calculate.Assemble | packages/sdi-core/src/calculate.ts:226-242 | Each endpoint reports its merged status and one target per scope that received a contribution |
| Exactness.InputsExactly | packages/sdi-core/src/calculate.ts:83-150 | The partial inputs of a target are exactly those of the causes that have to be answered: a side of a fact on a table of a read, in scope, not an update of nothing that matters, not contradicted by a certified value |
| Exactness.TargetsExactly | packages/sdi-core/src/calculate.ts:83-96 | An endpoint has a target of a kind exactly if such a cause exists on a resource of that kind |
| Exactness.SelectorExactly | packages/sdi-core/src/calculate.ts:134-176 | With at most 100 distinct partial inputs a target is `all` exactly if one of them is empty, and otherwise lists exactly those no other one subsumes |
| Exactness.StatusExactly | packages/sdi-core/src/calculate.ts:121-147 | Then an endpoint is verified exactly if the report says so and every cause is exact; it is unavailable exactly if the report says so or leaves it out |
| Exactness.DoubtedTakesAll | packages/sdi-core/src/calculate.ts:92-97 | Where the report calls an endpoint conservative, any fact with a row on a table of one of its reads makes its target `all`, whatever the row's scope, columns or values, unless it is an update that lists no changed column; bounding keeps that |
| Exactness.BoundExactly | packages/sdi-core/src/calculate.ts:134-147 | A row's partial input has every captured field, or nothing where two captures disagree |
| Antichain.Contribute | packages/sdi-core/src/calculate.ts:148-219 | The incremental update refines absorption into an antichain: alternatives, byte count and field bounds stay exact, and the limit is hit exactly when absorption overflows |
| Antichain.IsCovered | packages/sdi-core/src/calculate.ts:153-158 | The shortcuts over keys and field counts decide subsumption exactly |
| Antichain.RemoveSubsumed | packages/sdi-core/src/calculate.ts:164-169 | Exactly the strictly narrower alternatives go, and their bytes are what is freed |
| Antichain.Extend | packages/sdi-core/src/calculate.ts:160-219 | Adding an uncovered input, with the limit of 100 |
| Antichain.Widened | packages/sdi-core/src/calculate.ts:177-204 | Past the limit only the constraints every alternative shares remain |
| Antichain.AbsorbKeepsAntichain | packages/sdi-core/src/calculate.ts:148-220 | At most 100 alternatives, none empty, no one subsuming another |
| Antichain.AbsorbAllSound | packages/sdi-core/src/calculate.ts:148-220 | Every contribution is subsumed by a final alternative, or the selector is everything |
| Antichain.AbsorbAllIsMinimal | packages/sdi-core/src/calculate.ts:153-176 | While the limit is never hit the alternatives are exactly the subsumption-minimal contributions |
| Antichain.OrderDoesNotMatter | packages/sdi-core/src/calculate.ts:148-176 | While the limit is never hit the order of contributions does not matter |
| Antichain.SharedIsGreatest | packages/sdi-core/src/calculate.ts:178-183 | The shared constraints subsume every alternative and are the most that does |
| Antichain.OverflowKeepsShared | packages/sdi-core/src/calculate.ts:177-204 | Past the limit a target is `all` if its alternatives share nothing, and otherwise the one record of exactly what they share |
| Contracts.BroaderMatches | packages/sdi-core/src/contracts.ts:120-130 | Dropping constraints from an alternative never deselects an input |
| Contracts.MayEqualIsNotTransitive | packages/sdi-core/src/contracts.ts:131-152 | The comparison is reflexive and symmetric but not transitive, which is why join propagation needs database equality |
| Contracts.FilterIsWeaker | packages/sdi-core/src/calculate.ts:247-255 | Whatever the comparison admits, the filter comparison admits |
| Comparisons.MayEqualExactly | packages/sdi-core/src/contracts.ts:131-152 | Two scalars may be equal exactly if they are, as text up to ASCII case or trailing spaces, as numbers, or as a truth value and its name |
| Comparisons.ExcludesExactly | packages/sdi-core/src/calculate.ts:250-255 | A filter excludes exactly where no conversion or rounding can make the two values equal |
| Statuses.VerifiedIsExact | packages/sdi-core/src/calculate.ts:121-147 | For a verified endpoint every listed value is the complete binding map of a known written row in scope that satisfies all filters exactly |
| Statuses.WorseNeverDeselects | packages/sdi-core/src/calculate.ts:89-147 | Before byte bounding, a pointwise worse report never deselects an input |
| Narrowing.WorseKeepsExactly | packages/sdi-core/src/assessment.ts:61-102 | With byte bounding, for any two pointwise ordered reports: the worse one keeps every input of an endpoint if and only if it takes everything whenever the better one does |
| Narrowing.FittingNeverLoses | packages/sdi-core/src/assessment.ts:77-78 | When the impact under the better report fits the budget no worse report loses an input |
| Narrowing.NeverLosesExactly | packages/sdi-core/src/assessment.ts:61-102 | Over all worse reports: an input can be lost if and only if the endpoint's list was widened and there is room for it once every other endpoint is unavailable or idle and, for results cached under another scope, once the endpoint's own caller target is widened if that one goes first |
| Narrowing.StarvingLoses | packages/sdi-core/src/assessment.ts:77-101 | The report that gives up on every other endpoint is the one that loses it |
| Narrowing.SameEntry | packages/sdi-core/src/calculate.ts:226-242 | Reports that both call an endpoint verified give it the same status, scopes and kinds of selector, and targets of the same size |
| NarrowingExample.BoundingMayNarrow | packages/sdi-core/src/assessment.ts:77-101 | It happens: one inserted row, two endpoints, two reports, and the input that is lost, from facts the log accepts |
| Assessments.BoundImpact | packages/sdi-core/src/assessment.ts:76-102 | Always ends within the byte budget, never finds nothing to widen, keeps every endpoint, only widens selectors, larger and then earlier ones first, marks every widened endpoint conservative, and every earlier stage of the widening was over the budget |
| Assessments.BoundsToIsUnique | packages/sdi-core/src/assessment.ts:76-102 | An impact has one bounded form: budget, order of widening and the rule to stop at the first stage that fits determine it |
| Assessments.Merge | packages/sdi-core/src/assessment.ts:23-41 | The worse of two statuses with the codes of both |
| Assessments.MergeIsJoin | packages/sdi-core/src/assessment.ts:23-41 | Merging is commutative, associative and idempotent |
| Assessments.FindLargest | packages/sdi-core/src/assessment.ts:79-90 | The largest listed target, the earliest of equals; none only if every selector is everything |
| Assessments.NoDetailIsBroad | packages/sdi-core/src/contracts.ts:205-216 | A fully widened impact is no larger than what the manifest was validated against |
| Facts.LeqFactSound | packages/sdi-core/src/contracts.ts:2-18 | A looser fact stands for every concrete write a tighter one stands for |
| Facts.JoinRow | packages/sdi-core/src/write-set.ts:92-109 | The join is above both states |
| Facts.JoinRowIsLeast | packages/sdi-core/src/write-set.ts:92-109 | No state above both is below the join: every shared constraint is kept |
| WriteSets.Summarize | packages/sdi-core/src/write-set.ts:110-142 | The summary loop computes the fold of joins and truncations |
| WriteSets.SummaryCovers | packages/sdi-core/src/write-set.ts:110-142 | A summary is above every fact it replaces |
| WriteSets.SummaryClimbs | packages/sdi-core/src/write-set.ts:126-139 | One more fact only raises a summary: a lost constraint is never restored |
| WriteSets.SummaryIsLeast | packages/sdi-core/src/write-set.ts:118-125 | A summary that never had to shrink is the least upper bound of its facts |
| WriteSets.SummaryFits | packages/sdi-core/src/write-set.ts:126-139 | A summary fits 768 bytes, or what is left once fields and scopes are gone |
| WriteSets.ShrinkExactly | packages/sdi-core/src/write-set.ts:126-139 | Over 768 bytes a summary loses fields, certified values and changed columns; it keeps the scopes exactly if it fits then |
| WriteSets.WriteSet.constructor | packages/sdi-core/src/write-set.ts:8-10 | A new log is empty, open and within its budgets |
| WriteSets.WriteSet.RefusalExactly | packages/sdi-core/src/write-set.ts:20-47 | A fact is accepted exactly if the log is open, its resource is registered and has a usable name, and there is room; otherwise the first of these that fails is the error |
| WriteSets.WriteSet.AddOne | packages/sdi-core/src/write-set.ts:20-68 | Refuses for exactly the listed reasons and then changes nothing; otherwise inserts the fact, summarizes its own resource first and then the largest until both budgets hold |
| WriteSets.WriteSet.Add | packages/sdi-core/src/write-set.ts:18-69 | A closed log refuses; otherwise every fact before the first refusal is taken in, bounds only rise, and facts of registered resources are never refused |
| WriteSets.WriteSet.Reclaim | packages/sdi-core/src/write-set.ts:57-67 | The resource just written is summarized first; the rest of the log is compacted, larger and then earlier entries first, only while the budgets are exceeded |
| WriteSets.ReclaimedIsUnique | packages/sdi-core/src/write-set.ts:57-67 | The budgets and the order determine what the log holds after an accepted fact |
| WriteSets.OwnIsReclaimedFirst | packages/sdi-core/src/write-set.ts:57-67 | Within the budgets nothing is lost; over them the resource just written is summarized first, and if that suffices no other is touched |
| WriteSets.OverBudgetExactly | packages/sdi-core/src/write-set.ts:70-78 | Over budget means more than 200 facts or more than 131072 bytes of the snapshot |
| WriteSets.WriteSet.CompactLargest | packages/sdi-core/src/write-set.ts:61-67 | The loop ends with both budgets held, every earlier stage exceeded them, and RESOURCE_LIMIT cannot be raised in it |
| WriteSets.WriteSet.Compact | packages/sdi-core/src/write-set.ts:79-83 | One entry becomes its summary, with the exact size recorded |
| WriteSets.WriteSet.MeasureOverBudget | packages/sdi-core/src/write-set.ts:70-78 | The two sums decide the two budgets |
| WriteSets.WriteSet.FindLargest | packages/sdi-core/src/write-set.ts:62-64 | The detailed entry with the most bytes, the earliest of equals, or none if all are summaries |
| WriteSets.WriteSet.Merge | packages/sdi-core/src/write-set.ts:15-17 | Everything a child accepted is covered by its parent afterwards; a fork is only refused by a closed parent |
| WriteSets.WriteSet.Fork | packages/sdi-core/src/write-set.ts:11-14 | An empty open log over the same resources, unless closed |
| WriteSets.WriteSet.Close | packages/sdi-core/src/write-set.ts:87-89 | Closing keeps everything else |
| WriteSets.SnapshotKeepsWrites | packages/sdi-core/src/write-set.ts:84-86 | Every concrete write any accepted fact stands for is covered by a fact of the snapshot |
| WriteSets.SnapshotWithinBudget | packages/sdi-core/src/write-set.ts:70-86 | A snapshot has at most 200 facts and at most 131072 encoded bytes |
| Observers.StatementIsCovered | packages/sdi-postgres/src/postgres/observer.ts:124-182 | Every visible row effect of an insert, update, delete or truncate is covered by one of the facts its trigger records, in the per-row and in the batch form |
| Observers.BatchAdmits | packages/sdi-postgres/src/postgres/observer.ts:79-114 | A batch summary admits every row of the batch |
| Observers.UpdateFactCovers | packages/sdi-postgres/src/postgres/observer.ts:152-180 | An update pairs rows on the key and records one-sided facts for key changes, with every changed column listed |
| Observers.BatchIsLeast | packages/sdi-postgres/src/postgres/observer.ts:79-114 | No tighter state over the batch's columns admits every row: common scope, fields and certified values are all kept |
| Observers.RowStateMeans | packages/sdi-postgres/src/postgres/observer.ts:59-76 | A captured row state stands for exactly the rows that agree on scope, observed columns and certified filter columns |
| Observers.ChangedColumnsAll | packages/sdi-postgres/src/postgres/observer.ts:160-173 | The changed columns listed are exactly the registered columns that differ |
| Recordings.StatementExactly | packages/sdi-postgres/src/postgres/observer.ts:124-182 | A small statement leaves exactly one kind of fact per visible row effect, each standing for exactly the rows that agree where the observer looks; a large one leaves one fact of what its rows share; a truncation or rows without identity leave the fact that stands for anything |
| Collectors.Compact | packages/sdi-postgres/src/postgres/observer.ts:194-204 | The compaction loop ends with both budgets held, SDI_COLLECTOR_LIMIT is unreachable for at most 128 resources, and each group keeps its rows or becomes one row that stands for anything |
| Collectors.Choose | packages/sdi-postgres/src/postgres/observer.ts:196-199 | The heaviest group with more than one row or more than 64 bytes |
| Collectors.SettledAbsorbs | packages/sdi-postgres/src/postgres/observer.ts:194-204 | What the loop leaves stands for everything it was given |
| Recordings.SettledExactly | packages/sdi-postgres/src/postgres/observer.ts:194-204 | The loop goes in rounds, each over a limit, and each replaces the heaviest replaceable group, the earliest of equals |
| Collectors.IrreducibleFits | packages/sdi-postgres/src/postgres/observer.ts:198-200 | With no such group left both budgets already hold |
| Collectors.ReplacedShrinks | packages/sdi-postgres/src/postgres/observer.ts:201-203 | A replaced group can never be chosen again: the loop's measure |
| Transactions.NoSilentOmission | packages/sdi-postgres/src/postgres/index.ts:335-389 | For arbitrary work and trigger programs that re-defer, write late, catch errors or roll back, every visible surviving write to an observed table of a committed command is covered by the facts drained before COMMIT |
| Transactions.RunKeeps | packages/sdi-postgres/src/postgres/observer.ts:187-205 | Every program keeps rows and collected facts together until the seal, and adds no observed row after it |
| Transactions.SealedTablesStand | packages/sdi-postgres/src/postgres/observer.ts:187-189 | After the seal no program, whatever it catches, defers or retries, changes a row of an observed table or what was collected |
| Transactions.CommittedAsDrained | packages/sdi-postgres/src/postgres/index.ts:371-377 | The observed tables of a committed command are those the drain looked at |
| Transactions.CollectingIsSane | packages/sdi-postgres/src/postgres/observer.ts:194-204 | The compaction loop as it is keeps every fact below a remaining row, on every collector it meets |
| Courses.RunExactly | packages/sdi-postgres/src/postgres/observer.ts:187-205 | A program ends in a state, or fails, exactly if a course of events leads there: an error is caught by the innermost handler, a deferred trigger runs now or is queued, and a rolled-back part leaves nothing |
| Courses.StatementExactly | packages/sdi-postgres/src/postgres/observer.ts:187-205 | A statement fails exactly if it touches a row twice or its observed table refuses it, and otherwise leaves exactly its rows, its effects and the compacted collector |
| Courses.QueueExactly | packages/sdi-postgres/src/postgres/index.ts:354-366 | Queued programs run in order, each on what the one before left, until none is left, the steps are used up or one fails |
| Courses.CommitExactly | packages/sdi-postgres/src/postgres/index.ts:335-389 | A command commits exactly if its work, its queue and what COMMIT still runs succeed and leave nothing queued, and it drains what was collected before the seal |
| Courses.SettledCommits | packages/sdi-postgres/src/postgres/index.ts:335-389 | Work that succeeds and leaves nothing queued commits, with what it had written and collected |
| Commands.Session.Command | packages/sdi-postgres/src/postgres/index.ts:288-401 | The result is decided by the first failure and the reply to COMMIT, and exactly one holds: data after a confirmed commit, an error with a rollback attempted and no commit, or the unknown state with no rollback sent; the session is disposed of at most once and never pooled when its state is unknown |
| Commands.Session.Attempt | packages/sdi-postgres/src/postgres/index.ts:294-373 | Statements are sent in order up to the first failure, the callback's own error before that of settling; neither COMMIT nor ROLLBACK is among them |
| Commands.FailureExactly | packages/sdi-postgres/src/postgres/index.ts:294-373 | The error thrown is that of the first step that failed, settling counting after the callback |
| Commands.Session.Dispose | packages/sdi-postgres/src/postgres/connection.ts:5-16 | A broken session is discarded or the database is quarantined, never returned |
| Commands.Fold | packages/sdi-postgres/src/postgres/index.ts:402-425 | Every drained row is in the log or set aside; what is set aside makes the readers of its resource unavailable, or every endpoint if the resource cannot be told, and changes nothing else; the log refuses only for a reason |
| Commands.FoldRow | packages/sdi-postgres/src/postgres/index.ts:403-424 | An accepted row leaves the report as it was; any other leaves the log as it was and is merged into exactly the endpoints to blame |
| Commands.AssessResource | packages/sdi-core/src/assessment.ts:42-51 | The assessment of every endpoint that reads the resource is merged once, and no other endpoint changes |
| Commands.AssessAll | packages/sdi-postgres/src/postgres/index.ts:419-423 | Every endpoint takes the assessment on |
| Commands.CertifiedIsUpper | packages/sdi-postgres/src/postgres/index.ts:405-408 | Dropping uncertified equality values only loosens a fact |
| Guards.SavepointsAreLifo | packages/sdi-postgres/src/postgres/tracked-db.ts:129-145 | On every interleaving of calls, settlements and statements, failed ones included: pending counts what is in flight, an active savepoint is all of it, the open savepoints are those of the frames, outermost first, and a release or rollback names the one its own call opened if and only if no lost deeper savepoint of the same number lies above it |
| Guards.NamesOwnExactly | packages/sdi-postgres/src/postgres/tracked-db.ts:130-140 | The statement in flight finds its own savepoint exactly unless a lost one of a deeper frame, opened inside it, has its number |
| Guards.FinishIsClean | packages/sdi-runtime/src/runtime/guard.ts:131-136 | finish passes at the root, on any run, exactly if nothing is in flight at any depth and of the effects meant to stay none failed; the log then has exactly their facts, and the transaction is clean if and only if no effect a rollback left behind failed or has a fact |
| Releases.PassedIsReleased | packages/sdi-postgres/src/postgres/tracked-db.ts:129-137 | Whatever else happens meanwhile: once a child's callback returned with nothing pending or failed, it settles clean and the release succeeds, nothing of the transaction is undone or doomed and the parent's facts are its own followed by those of the child's part |
| Releases.UndoneAfterFailure | packages/sdi-postgres/src/postgres/tracked-db.ts:138-145 | On every run, what was in the transaction stays as it was unless a callback or its guard failed, a child did not settle clean or a release failed |
| Releases.RollbackBecause | packages/sdi-postgres/src/postgres/tracked-db.ts:133-141 | A rollback follows exactly such a failure |
| Releases.CalmStands | packages/sdi-runtime/src/runtime/guard.ts:22-64 | While a passed child waits or a savepoint statement is out, no call, settlement or callback changes the transaction |
| Guards.DoomedByRollback | packages/sdi-postgres/src/postgres/tracked-db.ts:138-141 | Effects are left behind only by a rollback that failed or that a lost savepoint shadowed |
| Guards.ReliableIsClean | packages/sdi-postgres/src/postgres/tracked-db.ts:129-145 | While rollbacks succeed nothing is lost, no statement is shadowed and a passed finish is clean |
| Guards.NothingAfterFinish | packages/sdi-runtime/src/runtime/guard.ts:137-147 | After a passed finish no event changes anything before the drain |
| Guards.LostRollbackMisdirects | packages/sdi-postgres/src/postgres/tracked-db.ts:138-141 | Shadowing happens: a rollback fails, the session goes on, the enclosing rollback undoes too little, and finish passes with a row in the transaction of which the command reports no fact |
| Guards.StepKeeps | packages/sdi-runtime/src/runtime/guard.ts:22-147 | Every step keeps the counts, the stack of savepoints and the account of failures and facts |
| Guards.OwnIsThere | packages/sdi-postgres/src/postgres/tracked-db.ts:130-140 | The savepoint of the call in flight is always in the session, with its number and depth, and the name never resolves below it |
| Guards.RollbackCuts | packages/sdi-postgres/src/postgres/tracked-db.ts:138-139 | An unshadowed rollback cuts the transaction where its own savepoint was opened |
| Guards.GuardedTransaction.constructor | packages/sdi-runtime/src/runtime/guard.ts:7-14 | A new guard is open with nothing pending |
| Guards.GuardedTransaction.Call | packages/sdi-runtime/src/runtime/guard.ts:22-64 | Refused when closed, under an active savepoint, or as a savepoint beside pending work; otherwise counted |
| Guards.GuardedTransaction.Settled | packages/sdi-runtime/src/runtime/guard.ts:69-119 | A settled operation or ended stream leaves the count and is remembered if it failed |
| Guards.GuardedTransaction.CallbackDone | packages/sdi-runtime/src/runtime/guard.ts:131-140 | finish, then close of the guard and every guard beneath it |
| Guards.GuardedTransaction.ChildDone | packages/sdi-runtime/src/runtime/guard.ts:36-48 | A child that passed is released with its facts, any other is rolled back |
| Guards.GuardedTransaction.StatementReturns | packages/sdi-postgres/src/postgres/tracked-db.ts:129-145 | The savepoint, release and rollback statements, with what each failure leads to |
| SqliteCollectors.CollectorIsFaithful | packages/sdi-sqlite/src/sqlite/index.ts:252-302 | Over every run of row writes and nested savepoints the drained facts cover every observed write that was not undone |
| SqliteCollectors.CollectorIsTidy | packages/sdi-sqlite/src/sqlite/index.ts:252-265 | At the end of every such run the tables are within both budgets, widened resources hold no rows, and the surviving writes in order are what changed the database |
| SqliteCollectors.Collector.Fire | packages/sdi-sqlite/src/sqlite/index.ts:252-265 | One firing: record, widen the largest group if over a limit, delete its rows |
| SqliteCollectors.Collector.FindLargest | packages/sdi-sqlite/src/sqlite/index.ts:257-260 | The group with the most bytes |
| SqliteCollectors.OneWideningFits | packages/sdi-sqlite/src/sqlite/index.ts:257-264 | Dropping the largest group makes up for any one added row |
| SqliteCollectors.FiringIsTidy | packages/sdi-sqlite/src/sqlite/index.ts:252-265 | A single widening per firing re-establishes both budgets |
| SqliteCollectors.FiringKeeps | packages/sdi-sqlite/src/sqlite/index.ts:253-264 | What was recorded stays recorded or its resource is widened |
| SqliteCollectors.TriggerFactCovers | packages/sdi-sqlite/src/sqlite/index.ts:234-251 | The fact of one firing covers its row effect |
| Recordings.TriggerFactExactly | packages/sdi-sqlite/src/sqlite/index.ts:234-251 | That fact is of the effect's kind, stands for exactly the rows that agree where the observer looks, and lists exactly the columns that differ |
| Recordings.FiringExactly | packages/sdi-sqlite/src/sqlite/index.ts:252-265 | Within the limits a firing adds its fact and changes nothing else; over them exactly the chosen group goes and exactly its resource is widened |
| SqliteCollectors.StepKeeps | packages/sdi-sqlite/src/sqlite/index.ts:425-437 | Savepoints and rollbacks restore rows and collector together |
| SqliteCollectors.SavepointsRestore | packages/sdi-sqlite/src/sqlite/index.ts:425-437 | Whatever is written and nested inside a savepoint, rolling back to it restores rows, collector and open savepoints, and releasing it keeps what was written and collected |
| Tokens.IdentRoundTrip | packages/sdi-sqlite/src/sqlite/index.ts:52-55 | A quoted identifier reads back as exactly its upper-cased name |
| Tokens.QuotedIsSilent | packages/sdi-sqlite/src/sqlite/index.ts:192-194 | A quoted literal contributes no token |
| Tokens.LexConcat | packages/sdi-sqlite/src/sqlite/index.ts:56-126 | Reading closed fragments joined by whitespace concatenates their tokens, errors and statement ends |
| Pieces.PiecesAreRead | packages/sdi-sqlite/src/sqlite/index.ts:56-126 | SQL written from quoted names, words, literals, comments, semicolons and signs with spaces between is read as exactly those: the tokens are the names and words in order, and a single statement refuses exactly content after a semicolon |
| Tokens.NameIsSeen | packages/sdi-sqlite/src/sqlite/index.ts:327-332 | A quoted name between closed fragments always yields its token in between |
| Tokens.NextLocal | packages/sdi-sqlite/src/sqlite/index.ts:59-124 | What follows a space never changes a closed lexeme |
| Tokens.SqlTokens | packages/sdi-sqlite/src/sqlite/index.ts:56-126 | The scanner with its moving index computes the specification |
| Tokens.NextAt | packages/sdi-sqlite/src/sqlite/index.ts:59-124 | Every branch moves the index strictly forward |
| Tokens.QuotedName | packages/sdi-sqlite/src/sqlite/index.ts:98-116 | Quoted names with doubled quotes, brackets without |
| Tokens.StringEnd | packages/sdi-sqlite/src/sqlite/index.ts:83-97 | String literals with doubled quotes |
| Validations.ComputeIsRecordable | packages/sdi-postgres/src/postgres/validation.ts:194-221 | A snapshot that may be recorded has the hash of a catalog its session saw, and unless a look failed its verdict is the one on every catalog with that hash, also after widening to schemas first seen during validation |
| Validations.RecordableExactly | packages/sdi-postgres/src/postgres/validation.ts:164-187 | A recordable verdict is the one on the catalog its hash denotes if and only if no look of the accepted attempt failed, or that catalog's verdict is to give up in the same way |
| Validations.LooksFail | packages/sdi-postgres/src/postgres/validation.ts:164-187 | A validation gives up if and only if one of its own looks fails |
| Validations.PessimisticRowHappens | packages/sdi-postgres/src/postgres/validation.ts:170-187 | A run over a catalog that stands still records a report that trusts nobody because one look timed out |
| Validations.ComputeExactly | packages/sdi-postgres/src/postgres/validation.ts:205-221 | The answer is the last of at most three attempts, each over the seeds and everything the ones before it read; it is recordable exactly if that attempt read nothing outside and both its hashes were read and agree |
| Validations.StillIsRecordable | packages/sdi-postgres/src/postgres/validation.ts:205-218 | Over one snapshot, or a catalog that stands still, and without failures, the second attempt is recordable whatever the seeds: over exactly the seeds and what the validator reads, with the verdict on that catalog |
| Validations.MovingIsNeverRecordable | packages/sdi-postgres/src/postgres/validation.ts:205-218 | Over a catalog that keeps moving no number of attempts need suffice |
| Validations.Database.ComputeValidation | packages/sdi-postgres/src/postgres/validation.ts:194-221 | The loop of three attempts computes the specification |
| Validations.Database.ValidateOnce | packages/sdi-postgres/src/postgres/validation.ts:157-187 | One look after the other at its own instant, until one fails |
| Validations.Database.CatalogHash | packages/sdi-postgres/src/postgres/validation.ts:143-155 | The hash of the catalog the session sees, or none |
| Validations.Database.RecordValidation | packages/sdi-postgres/src/postgres/transaction-gate.ts:89-102 | A row is stored if and only if there is a hash, no other recorder and the session still sees that hash; the row carries the snapshot and where it came from |
| Validations.Adapter.Resolve | packages/sdi-postgres/src/postgres/index.ts:213-232 | A gated read accepts exactly a matching row with the hash of the catalog it sees, and the verdict fits that catalog; a later read accepts exactly what the decision covers, and the verdict fits a catalog no older than the decision's whenever the recorder saw one or its schemas had not changed |
| Validations.SinceExactly | packages/sdi-postgres/src/postgres/index.ts:220-229 | A row denotes a catalog no older than the decision's if and only if its recorder saw none older or none of its schemas changed in between |
| Validations.LateRecorder | packages/sdi-postgres/src/postgres/index.ts:220-229 | That condition is needed: a recorder with an older snapshot stores after the decision and a later read accepts the report of a catalog gone before it |
| Validations.SeenIsTrail | packages/sdi-postgres/src/postgres/validation.ts:205-218 | Equal hashes before and after pin everything read in between |
| ReadMerges.MergeKeepsInputs | packages/sdi-postgres/src/postgres/query-compiler.ts:420-438 | For every written row the merged reads contribute exactly the partial inputs the alternatives did |
| ReadMerges.MergeReads | packages/sdi-postgres/src/postgres/query-compiler.ts:425-438 | One read per resource and binding path, with exactly the columns its alternatives observe |
| ReadMerges.BindingOrderIsFree | packages/sdi-postgres/src/postgres/query-compiler.ts:427-428 | Sorting the bindings does not change what a row contributes |
| ReadMerges.UnitedBindingsMiss | packages/sdi-postgres/src/postgres/query-compiler.ts:420-424 | Uniting the bindings of self-join alternatives would miss an input |

## Left out

- EndToEnd.CommandSelectsChanges: compares a query on the tables before the command with the same query on the tables after it; concurrent transactions are not modelled, and rows visible in a scope other than the command's are outside it, because the calculator answers for the command's scope (`OtherScope.OtherScopeIsMissed` shows that they have to be).
- Guards.SavepointsAreLifo: a failed statement is taken to have had no effect of its own on the savepoint stack.
- Validations.Adapter.Resolve: the live fallback cached per adapter is not modelled; time is one strictly increasing counter, so two rows never share an instant; a malformed stored row is not modelled.
- Guards.GuardedTransaction.Call: the closure's sets of child guards are one stack of frames, since an active savepoint admits no second child; calls on a guard that has left the stack are refused by its closed flag and not modelled. Re-entrant synchronous methods and factories are single events.
- Transactions.NoSilentOmission: a statement fires its observer once, with the rows it touched keyed by identity; partition topology, materialized views and tables reached by other triggers' definitions are ordinary observed resources or not observed at all.
- Noninterference.PlanStable: the interpreter is a recursive function that also returns the leaves it executed, so that two runs can be compared; the loop that fills the object of a combined plan is the recursion over its children.
- Observers.StatementIsCovered: rows differ in registered columns only, and text comparison of values is equality of scalars; SQL type tests are the parameter `certified`.
- Commands.Session.Command: the statements before the work (preamble, role checks and setup) are two steps, each of which may fail.
- Compile.CompileAll: column, identifier and page validation of plans is not part of compilation here, and which of several unregistered resources is named first is left open.
- SqliteCollectors.CollectorIsFaithful: the SQLite statement guard, pragmas and `REPLACE` handling are not part of it.
- Collectors.Choose: of equally heavy groups the first is replaced, where SQL leaves the choice open; `Transactions.NoSilentOmission` holds for any choice.
- Tokens.NameIsSeen: text is a sequence of characters rather than UTF-16 code units, and the list of forbidden leading keywords is not modelled.
- The rest of the native SQL compiler, catalog resolution, row security analysis and policy proofs: they depend on an external parser and on live catalogs.
- `requiresNoStore`, `queryUncached`, dependents, plan freezing and schema adapters: they only add members that are read off one body.
- Drivers, ORM bridges, COPY, cursors over the wire and release of connections beyond returning and discarding them.
- JSON text, UTF-8, floating point, hashes and UUIDs: sizes are parameters, numbers are reals, hashes are injective, tokens are fresh.
- The order of entries in the returned impact and of values in a selector, and the `explain` callback.
- Shape checks on malformed arguments, except the limits that the budget proofs need.
- The installation of triggers, grants and migration statements.
