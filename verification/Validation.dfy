/**
 Stored validation: a report is recorded with the hash of the catalog it was computed from, while other
 sessions change that catalog.
 */
module Validations {
  import opened Contracts
  import opened Assessments

  // ----------------------------------------------------------------- catalogs

  /** The version of every schema's catalog rows. A version stands for one content for ever. */
  type Catalog = string -> nat

  /** Casts, extensions, roles and settings, which every hash covers. */
  const GLOBAL := ""

  /** DDL only ever moves a version forward: no catalog state comes back. */
  ghost predicate NeverRepeats(timeline: nat -> Catalog) {
    forall schema, early, late :: early <= late ==> timeline(early)(schema) <= timeline(late)(schema)
  }

  /** The catalog hash, taken to be injective. */
  type Hash = map<string, nat>

  function HashOf(catalog: Catalog, schemas: set<string>): Hash {
    map schema | schema in schemas + {GLOBAL} :: catalog(schema)
  }

  datatype Seen = Seen(schema: string, version: nat)

  datatype Verdict = Verdict(report: Report, equality: set<string>)

  /**
   A validation looks at catalog rows of schemas of its own choosing and then concludes; `noted` is what it
   holds against an endpoint so far.
   */
  datatype Validator = Validator(
    looks: nat, choose: seq<Seen> -> string, conclude: seq<Seen> -> Verdict, noted: (seq<Seen>, string) -> Assessment,
    endpoints: set<string>)

  /** What the validator sees of a catalog that stands still. */
  function Trail(v: Validator, catalog: Catalog, count: nat): seq<Seen> {
    if count == 0 then []
    else
      var before := Trail(v, catalog, count - 1);
      var schema := v.choose(before);
      before + [Seen(schema, catalog(schema))]
  }

  /** The verdict on one catalog. */
  function VerdictAt(v: Validator, catalog: Catalog): Verdict {
    v.conclude(Trail(v, catalog, v.looks))
  }

  /** `validateOnce` after an error: every endpoint is unavailable, on top of what was noted. */
  function GiveUp(v: Validator, seen: seq<Seen>, code: Code): (verdict: Verdict)
    ensures verdict.equality == {} && verdict.report.Keys == v.endpoints
    ensures forall endpoint :: endpoint in verdict.report ==>
      verdict.report[endpoint].Unavailable? && Codes(verdict.report[endpoint]) == Codes(v.noted(seen, endpoint)) + {code}
  {
    Verdict(map endpoint | endpoint in v.endpoints :: Merge(v.noted(seen, endpoint), Unavailable({code})), {})
  }

  /** The hash determines the verdict: it is the one on every catalog that has this hash over these schemas. */
  ghost predicate Stands(v: Validator, verdict: Verdict, hash: Hash, schemas: set<string>) {
    forall catalog :: HashOf(catalog, schemas) == hash ==> verdict == VerdictAt(v, catalog)
  }

  // ----------------------------------------------------------- statements in time

  /** The catalog over time, how long passes before each statement, and which statements fail. */
  datatype Env = Env(timeline: nat -> Catalog, pause: nat -> nat, failing: nat -> Option<Code>)

  /** When the next statement runs. */
  function Tick(env: Env, now: nat): (next: nat)
    ensures next > now
  {
    now + 1 + env.pause(now)
  }

  function Clock(env: Env, now: nat, count: nat): nat {
    if count == 0 then now else Tick(env, Clock(env, now, count - 1))
  }

  /**
   A transaction. From `repeatable read` on, every statement sees the catalog of the instant its snapshot was
   taken; below that, each statement sees the catalog of its own instant.
   */
  datatype Session = Session(snapshot: Option<nat>)

  function Instant(session: Session, now: nat): nat {
    if session.snapshot.Some? then session.snapshot.value else now
  }

  predicate Begun(session: Session, now: nat) {
    session.snapshot.Some? ==> session.snapshot.value <= now
  }

  /** `catalogHash` at its instant: none if the statement failed. */
  function HashSeen(env: Env, session: Session, now: nat, schemas: set<string>): Option<Hash> {
    if env.failing(now).Some? then None else Some(HashOf(env.timeline(Instant(session, now)), schemas))
  }

  /** How far a validation got. */
  datatype Looked = Looked(seen: seq<Seen>, failure: Option<Code>, now: nat)

  function Looks(env: Env, session: Session, v: Validator, now: nat, count: nat): Looked {
    if count == 0 then Looked([], None, now)
    else
      var before := Looks(env, session, v, now, count - 1);
      if before.failure.Some? then before
      else
        var next := Tick(env, before.now);
        if env.failing(next).Some? then Looked(before.seen, env.failing(next), next)
        else
          var schema := v.choose(before.seen);
          Looked(before.seen + [Seen(schema, env.timeline(Instant(session, next))(schema))], None, next)
  }

  function VerdictOf(v: Validator, looked: Looked): Verdict {
    if looked.failure.Some? then GiveUp(v, looked.seen, looked.failure.value) else v.conclude(looked.seen)
  }

  function Visited(seen: seq<Seen>): set<string> {
    set look | look in seen && look.schema != GLOBAL :: look.schema
  }

  /** A validation gives up exactly when one of its own looks fails. */
  lemma {:induction false} LooksFail(env: Env, session: Session, v: Validator, now: nat, count: nat)
    ensures var looked := Looks(env, session, v, now, count);
      && (looked.failure.Some? <==> exists k :: 1 <= k <= count && env.failing(Clock(env, now, k)).Some?)
      && (looked.failure.None? ==> |looked.seen| == count && looked.now == Clock(env, now, count))
  {
    if count > 0 {
      LooksFail(env, session, v, now, count - 1);
      var before := Looks(env, session, v, now, count - 1);
      if before.failure.None? {
        assert Clock(env, now, count) == Tick(env, before.now);
      }
    }
  }

  // --------------------------------------------------------- stable catalogs

  ghost predicate Follows(v: Validator, seen: seq<Seen>) {
    forall i :: 0 <= i < |seen| ==> seen[i].schema == v.choose(seen[..i])
  }

  /** Versions read while the catalog moved from one state to another. */
  ghost predicate ReadBetween(seen: seq<Seen>, early: Catalog, late: Catalog) {
    forall i :: 0 <= i < |seen| ==> early(seen[i].schema) <= seen[i].version <= late(seen[i].schema)
  }

  ghost predicate Inside(seen: seq<Seen>, schemas: set<string>) {
    forall i :: 0 <= i < |seen| ==> seen[i].schema in schemas + {GLOBAL}
  }

  lemma {:induction false} LooksRead(env: Env, session: Session, v: Validator, now: nat, count: nat)
    requires NeverRepeats(env.timeline)
    ensures var looked := Looks(env, session, v, now, count);
      && looked.now >= now && Follows(v, looked.seen)
      && ReadBetween(looked.seen, env.timeline(Instant(session, now)), env.timeline(Instant(session, looked.now)))
  {
    if count > 0 {
      LooksRead(env, session, v, now, count - 1);
      var before := Looks(env, session, v, now, count - 1);
      var looked := Looks(env, session, v, now, count);
      hide Follows, ReadBetween, NeverRepeats;
      var early := env.timeline(Instant(session, now));
      ReadLater(before.seen, early, env.timeline, Instant(session, before.now), Instant(session, looked.now));
      if looked.seen != before.seen {
        var late := Instant(session, looked.now);
        LooksOneMore(v, before.seen, env.timeline, Instant(session, now), late, v.choose(before.seen));
      }
    }
  }

  lemma ReadLater(seen: seq<Seen>, early: Catalog, timeline: nat -> Catalog, before: nat, after: nat)
    requires NeverRepeats(timeline) && before <= after && ReadBetween(seen, early, timeline(before))
    ensures ReadBetween(seen, early, timeline(after))
  {
    forall i | 0 <= i < |seen| ensures seen[i].version <= timeline(after)(seen[i].schema) {
      assert timeline(before)(seen[i].schema) <= timeline(after)(seen[i].schema);
    }
  }

  lemma LooksOneMore(v: Validator, seen: seq<Seen>, timeline: nat -> Catalog, early: nat, late: nat, schema: string)
    requires NeverRepeats(timeline) && early <= late && schema == v.choose(seen)
    requires Follows(v, seen) && ReadBetween(seen, timeline(early), timeline(late))
    ensures Follows(v, seen + [Seen(schema, timeline(late)(schema))])
    ensures ReadBetween(seen + [Seen(schema, timeline(late)(schema))], timeline(early), timeline(late))
  {
    var more := seen + [Seen(schema, timeline(late)(schema))];
    assert forall i :: 0 <= i < |seen| ==> more[i] == seen[i] && more[..i] == seen[..i];
    assert more[..|seen|] == seen;
    assert timeline(early)(schema) <= timeline(late)(schema);
  }

  lemma SameHash(left: Catalog, right: Catalog, schemas: set<string>, schema: string)
    requires HashOf(left, schemas) == HashOf(right, schemas) && schema in schemas + {GLOBAL}
    ensures left(schema) == right(schema)
  {
    assert HashOf(left, schemas)[schema] == left(schema);
    assert HashOf(right, schemas)[schema] == right(schema);
  }

  lemma AllButLast(v: Validator, seen: seq<Seen>, early: Catalog, late: Catalog, schemas: set<string>)
    requires Follows(v, seen) && ReadBetween(seen, early, late) && Inside(seen, schemas) && seen != []
    ensures var before := seen[..|seen| - 1]; var last := seen[|seen| - 1];
      && Follows(v, before) && ReadBetween(before, early, late) && Inside(before, schemas)
      && last.schema == v.choose(before) && early(last.schema) <= last.version <= late(last.schema)
      && last.schema in schemas + {GLOBAL}
  {
    var before := seen[..|seen| - 1];
    assert forall i :: 0 <= i < |before| ==> before[i] == seen[i] && before[..i] == seen[..i];
  }

  /** Equal hashes before and after pin everything read in between. */
  lemma {:induction false} SeenIsTrail(
      v: Validator, seen: seq<Seen>, early: Catalog, late: Catalog, schemas: set<string>, catalog: Catalog)
    requires Follows(v, seen) && ReadBetween(seen, early, late) && Inside(seen, schemas)
    requires HashOf(early, schemas) == HashOf(late, schemas) == HashOf(catalog, schemas)
    ensures seen == Trail(v, catalog, |seen|)
  {
    hide HashOf, Follows, ReadBetween, Inside;
    if seen != [] {
      var last := |seen| - 1;
      var before := seen[..last];
      AllButLast(v, seen, early, late, schemas);
      SeenIsTrail(v, before, early, late, schemas, catalog);
      var schema := seen[last].schema;
      SameHash(early, late, schemas, schema);
      SameHash(early, catalog, schemas, schema);
      assert seen == before + [Seen(schema, catalog(schema))];
    }
  }

  // ------------------------------------------------------------ the computation

  /** A snapshot, with the hash that makes it recordable if there is one, and how it was come by. */
  datatype Computed = Computed(verdict: Verdict, catalog: Option<(Hash, set<string>)>, looked: Looked, now: nat)

  /** `computeValidation` with some attempts left. */
  function Compute(env: Env, session: Session, v: Validator, candidate: set<string>, attempts: nat, now: nat): Computed
    requires attempts > 0
    decreases attempts
  {
    var started := Tick(env, now);
    var before := HashSeen(env, session, started, candidate);
    var looked := Looks(env, session, v, started, v.looks);
    var visited := Visited(looked.seen);
    if !(visited <= candidate) then
      if attempts == 1 then Computed(VerdictOf(v, looked), None, looked, looked.now)
      else Compute(env, session, v, candidate + visited, attempts - 1, looked.now)
    else if before.None? then Computed(VerdictOf(v, looked), None, looked, looked.now)
    else
      var after := HashSeen(env, session, Tick(env, looked.now), candidate);
      Computed(
        VerdictOf(v, looked), if before == after then Some((before.value, candidate)) else None, looked,
        Tick(env, looked.now))
  }

  /** What a recordable snapshot is worth: the verdict its hash determines, unless one of its looks failed. */
  ghost predicate Recordable(env: Env, v: Validator, computed: Computed, instant: nat) {
    computed.catalog.Some? ==>
      var (hash, schemas) := computed.catalog.value;
      && HashOf(env.timeline(instant), schemas) == hash
      && (computed.looked.failure.None? ==> Stands(v, computed.verdict, hash, schemas))
      && computed.verdict == VerdictOf(v, computed.looked)
  }

  lemma {:induction false} ComputeIsRecordable(
      env: Env, session: Session, v: Validator, candidate: set<string>, attempts: nat, now: nat)
    requires NeverRepeats(env.timeline) && attempts > 0
    ensures var computed := Compute(env, session, v, candidate, attempts, now);
      && computed.now > now && Recordable(env, v, computed, Instant(session, computed.now))
      && (computed.catalog.Some? ==> candidate <= computed.catalog.value.1)
    decreases attempts
  {
    hide HashOf, Stands, Looks, VerdictOf;
    var started := Tick(env, now);
    var looked := Looks(env, session, v, started, v.looks);
    LooksRead(env, session, v, started, v.looks);
    var visited := Visited(looked.seen);
    if !(visited <= candidate) {
      if attempts > 1 {
        ComputeIsRecordable(env, session, v, candidate + visited, attempts - 1, looked.now);
      }
    } else if looked.failure.None? {
      var ended := Tick(env, looked.now);
      if HashSeen(env, session, started, candidate) == HashSeen(env, session, ended, candidate)
         && HashSeen(env, session, started, candidate).Some? {
        LooksFail(env, session, v, started, v.looks);
        Pinned(env, session, v, looked, candidate, started, ended);
      }
    }
  }

  lemma Pinned(env: Env, session: Session, v: Validator, looked: Looked, schemas: set<string>, started: nat, ended: nat)
    requires NeverRepeats(env.timeline) && started <= looked.now <= ended && looked.failure.None?
    requires |looked.seen| == v.looks && Follows(v, looked.seen) && Visited(looked.seen) <= schemas
    requires ReadBetween(looked.seen, env.timeline(Instant(session, started)), env.timeline(Instant(session, looked.now)))
    requires HashOf(env.timeline(Instant(session, started)), schemas) == HashOf(env.timeline(Instant(session, ended)), schemas)
    ensures Stands(v, VerdictOf(v, looked), HashOf(env.timeline(Instant(session, started)), schemas), schemas)
  {
    var early, late := env.timeline(Instant(session, started)), env.timeline(Instant(session, ended));
    forall i | 0 <= i < |looked.seen|
      ensures early(looked.seen[i].schema) <= looked.seen[i].version <= late(looked.seen[i].schema)
      ensures looked.seen[i].schema in schemas + {GLOBAL}
    {
      assert env.timeline(Instant(session, looked.now))(looked.seen[i].schema) <= late(looked.seen[i].schema);
      assert looked.seen[i] in looked.seen;
      assert looked.seen[i].schema == GLOBAL || looked.seen[i].schema in Visited(looked.seen);
    }
    forall catalog | HashOf(catalog, schemas) == HashOf(early, schemas)
      ensures VerdictOf(v, looked) == VerdictAt(v, catalog)
    {
      SeenIsTrail(v, looked.seen, early, late, schemas, catalog);
    }
  }

  /**
   Exactly when a recordable verdict is the one on the catalogs its hash denotes: no look of the accepted
   attempt failed, or that catalog's verdict is to give up in just this way.
   */
  lemma RecordableExactly(
      env: Env, session: Session, v: Validator, seeds: set<string>, attempts: nat, now: nat, catalog: Catalog)
    requires NeverRepeats(env.timeline) && attempts > 0
    requires var computed := Compute(env, session, v, seeds, attempts, now);
      computed.catalog.Some? && HashOf(catalog, computed.catalog.value.1) == computed.catalog.value.0
    ensures var computed := Compute(env, session, v, seeds, attempts, now);
      && (computed.looked.failure.Some? ==>
            computed.verdict == GiveUp(v, computed.looked.seen, computed.looked.failure.value))
      && (computed.verdict == VerdictAt(v, catalog) <==>
            || computed.looked.failure.None?
            || VerdictAt(v, catalog) == GiveUp(v, computed.looked.seen, computed.looked.failure.value))
  {
    ComputeIsRecordable(env, session, v, seeds, attempts, now);
    hide Compute, HashOf;
  }

  /** One attempt: the schemas its hashes cover, the instant it follows, and how far its looks got. */
  datatype Attempt = Attempt(schemas: set<string>, began: nat, looked: Looked)

  /** It read a schema its hash did not cover. */
  predicate Strays(attempt: Attempt) {
    exists look :: look in attempt.looked.seen && look.schema != GLOBAL && look.schema !in attempt.schemas
  }

  /** Read by one of the first attempts. */
  ghost predicate ReadEarlier(history: seq<Attempt>, count: nat, schema: string) {
    exists m, look ::
      0 <= m < |history| && m < count && look in history[m].looked.seen && look.schema == schema && schema != GLOBAL
  }

  /** It follows the one before it, and covers the seeds and whatever all of those before it read. */
  ghost predicate InPlace(
    env: Env, session: Session, v: Validator, seeds: set<string>, now: nat, history: seq<Attempt>, k: nat)
    requires k < |history|
  {
    && history[k].began == (if k == 0 then now else history[k - 1].looked.now)
    && history[k].looked == Looks(env, session, v, Tick(env, history[k].began), v.looks)
    && forall schema :: schema in history[k].schemas <==> schema in seeds || ReadEarlier(history, k, schema)
  }

  /** Attempts one after the other, with a next one only after an attempt that strayed. */
  ghost predicate Attempted(
    env: Env, session: Session, v: Validator, seeds: set<string>, now: nat, history: seq<Attempt>)
  {
    && (forall k :: 0 <= k < |history| ==> InPlace(env, session, v, seeds, now, history, k))
    && forall k :: 0 <= k < |history| - 1 ==> Strays(history[k])
  }

  /** The statements around the looks that read the hash. */
  function HashBefore(env: Env, session: Session, attempt: Attempt): Option<Hash> {
    HashSeen(env, session, Tick(env, attempt.began), attempt.schemas)
  }

  function HashAfter(env: Env, session: Session, attempt: Attempt): Option<Hash> {
    HashSeen(env, session, Tick(env, attempt.looked.now), attempt.schemas)
  }

  /** Confirmed by the same hash on both sides. */
  ghost predicate Confirmed(env: Env, session: Session, attempt: Attempt) {
    && !Strays(attempt) && HashBefore(env, session, attempt).Some?
    && HashBefore(env, session, attempt) == HashAfter(env, session, attempt)
  }

  /**
   What `computeValidation` answers: the last of at most that many attempts, recordable over the schemas of
   that attempt exactly if it did not stray and both its hashes were read and agree.
   */
  lemma {:induction false} ComputeExactly(
      env: Env, session: Session, v: Validator, seeds: set<string>, attempts: nat, now: nat)
      returns (history: seq<Attempt>)
    requires attempts > 0
    ensures Attempted(env, session, v, seeds, now, history) && 1 <= |history| <= attempts
    ensures var last := history[|history| - 1]; var computed := Compute(env, session, v, seeds, attempts, now);
      && (Strays(last) ==> |history| == attempts)
      && computed.looked == last.looked && computed.verdict == VerdictOf(v, last.looked)
      && (computed.catalog.Some? <==> Confirmed(env, session, last))
      && (computed.catalog.Some? ==> computed.catalog == Some((HashBefore(env, session, last).value, last.schemas)))
    decreases attempts
  {
    var first := Attempt(seeds, now, Looks(env, session, v, Tick(env, now), v.looks));
    StraysExactly(first);
    hide Looks, HashSeen, VerdictOf, Strays, ReadEarlier;
    if Strays(first) && attempts > 1 {
      hide Attempted;
      var visited := Visited(first.looked.seen);
      var rest := ComputeExactly(env, session, v, seeds + visited, attempts - 1, first.looked.now);
      history := [first] + rest;
      AttemptedThen(env, session, v, seeds, now, first, rest);
    } else {
      history := [first];
      NothingEarlier(history);
    }
  }

  lemma StraysExactly(attempt: Attempt)
    ensures Strays(attempt) <==> !(Visited(attempt.looked.seen) <= attempt.schemas)
  {
    if Strays(attempt) {
      var look :| look in attempt.looked.seen && look.schema != GLOBAL && look.schema !in attempt.schemas;
      assert look.schema in Visited(attempt.looked.seen);
    }
  }

  lemma AttemptedThen(
      env: Env, session: Session, v: Validator, seeds: set<string>, now: nat, first: Attempt, rest: seq<Attempt>)
    requires first == Attempt(seeds, now, Looks(env, session, v, Tick(env, now), v.looks)) && Strays(first)
    requires Attempted(env, session, v, seeds + Visited(first.looked.seen), first.looked.now, rest)
    ensures Attempted(env, session, v, seeds, now, [first] + rest)
  {
    hide Looks, Strays, InPlace;
    var history := [first] + rest;
    forall k | 0 <= k < |history| ensures InPlace(env, session, v, seeds, now, history, k) {
      InPlaceThen(env, session, v, seeds, now, first, rest, k);
    }
    assert forall k :: 0 < k < |history| ==> history[k] == rest[k - 1];
  }

  lemma InPlaceThen(
      env: Env, session: Session, v: Validator, seeds: set<string>, now: nat, first: Attempt, rest: seq<Attempt>, k: nat)
    requires first == Attempt(seeds, now, Looks(env, session, v, Tick(env, now), v.looks)) && k <= |rest|
    requires k > 0 ==> InPlace(env, session, v, seeds + Visited(first.looked.seen), first.looked.now, rest, k - 1)
    ensures InPlace(env, session, v, seeds, now, [first] + rest, k)
  {
    hide Looks, ReadEarlier, Visited;
    var history := [first] + rest;
    if k > 0 {
      assert history[k] == rest[k - 1] && history[k - 1] == if k == 1 then first else rest[k - 2];
      forall schema ensures schema in history[k].schemas <==> schema in seeds || ReadEarlier(history, k, schema) {
        EarlierThen(first, rest, k - 1, schema);
      }
    } else {
      NothingEarlier(history);
    }
  }

  lemma NothingEarlier(history: seq<Attempt>)
    ensures forall schema :: !ReadEarlier(history, 0, schema)
  {
  }

  lemma EarlierThen(first: Attempt, rest: seq<Attempt>, count: nat, schema: string)
    ensures ReadEarlier([first] + rest, count + 1, schema) <==>
      schema in Visited(first.looked.seen) || ReadEarlier(rest, count, schema)
  {
    var history := [first] + rest;
    if m, look :| 0 <= m < |history| && m < count + 1 && look in history[m].looked.seen && look.schema == schema
                  && schema != GLOBAL {
      if m > 0 {
        assert history[m] == rest[m - 1];
      }
    }
    if schema in Visited(first.looked.seen) {
      var look :| look in first.looked.seen && look.schema != GLOBAL && look.schema == schema;
      assert look in history[0].looked.seen;
    }
    if m, look :| 0 <= m < |rest| && m < count && look in rest[m].looked.seen && look.schema == schema && schema != GLOBAL {
      assert history[m + 1] == rest[m];
    }
  }

  /** No statement from here on fails, and each sees the same versions. */
  ghost predicate Still(env: Env, session: Session, catalog: Catalog, now: nat) {
    forall t :: now <= t ==> env.failing(t).None? && forall schema :: env.timeline(Instant(session, t))(schema) == catalog(schema)
  }

  /**
   Over a catalog that stands still, or is seen through one snapshot, and without failures, the second
   attempt is recordable whatever the seeds were: over exactly the seeds and the schemas the validator reads, with
   the verdict on that catalog. A single attempt is not, unless the seeds cover what it reads.
   */
  lemma StillIsRecordable(
      env: Env, session: Session, v: Validator, seeds: set<string>, attempts: nat, now: nat, catalog: Catalog)
    requires attempts > 0 && Still(env, session, catalog, now)
    ensures var computed := Compute(env, session, v, seeds, attempts, now);
      var visited := Visited(Trail(v, catalog, v.looks)); var schemas := seeds + visited;
      && computed.looked.failure.None? && computed.verdict == VerdictAt(v, catalog)
      && computed.catalog == if attempts == 1 && !(visited <= seeds) then None else Some((HashOf(catalog, schemas), schemas))
    decreases attempts
  {
    var started := Tick(env, now);
    StillLooks(env, session, v, catalog, started, v.looks);
    var looked := Looks(env, session, v, started, v.looks);
    var visited := Visited(looked.seen);
    StillHash(env, session, catalog, started, seeds);
    StillHash(env, session, catalog, Tick(env, looked.now), seeds);
    hide HashOf, Trail, Looks, HashSeen;
    if visited <= seeds {
      assert seeds + visited == seeds;
    } else if attempts > 1 {
      assert seeds + visited + visited == seeds + visited;
      StillIsRecordable(env, session, v, seeds + visited, attempts - 1, looked.now, catalog);
    }
  }

  lemma StillHash(env: Env, session: Session, catalog: Catalog, now: nat, schemas: set<string>)
    requires Still(env, session, catalog, now)
    ensures HashSeen(env, session, now, schemas) == Some(HashOf(catalog, schemas))
  {
    assert HashOf(env.timeline(Instant(session, now)), schemas) == HashOf(catalog, schemas);
  }

  lemma {:induction false} StillLooks(env: Env, session: Session, v: Validator, catalog: Catalog, now: nat, count: nat)
    requires Still(env, session, catalog, now)
    ensures var looked := Looks(env, session, v, now, count);
      looked.failure.None? && looked.seen == Trail(v, catalog, count) && looked.now >= now
  {
    if count > 0 {
      StillLooks(env, session, v, catalog, now, count - 1);
    }
  }

  // ------------------------------------------------------------ the protocol

  datatype StoredRow = StoredRow(fingerprint: string, verdict: Verdict, hash: Hash, schemas: set<string>, validatedAt: nat)

  /** Where a row came from: the instant its recorder saw, and whether its validation had given up. */
  datatype Provenance = Provenance(instant: nat, gaveUp: bool)

  /** What the first read of an adapter settled: the row it accepted, if any, and when. */
  datatype Decision = Decision(validatedAt: Option<nat>, at: nat)

  /** The recorded verdict against one catalog. */
  ghost predicate Fits(v: Validator, verdict: Verdict, catalog: Catalog, gaveUp: bool) {
    if gaveUp then exists seen, code :: verdict == GiveUp(v, seen, code) else verdict == VerdictAt(v, catalog)
  }

  ghost predicate Timely(validators: map<string, Validator>, timeline: nat -> Catalog, row: StoredRow, from: Provenance) {
    && from.instant <= row.validatedAt
    && HashOf(timeline(from.instant), row.schemas) == row.hash
    && (row.fingerprint in validators ==>
          forall catalog :: HashOf(catalog, row.schemas) == row.hash ==>
            Fits(validators[row.fingerprint], row.verdict, catalog, from.gaveUp))
  }

  lemma RecordableIsTimely(
      validators: map<string, Validator>, env: Env, fingerprint: string, computed: Computed, instant: nat, now: nat)
    requires fingerprint in validators && computed.catalog.Some? && instant <= now
    requires exists earlier :: Recordable(env, validators[fingerprint], computed, earlier)
    requires HashOf(env.timeline(instant), computed.catalog.value.1) == computed.catalog.value.0
    ensures Timely(
      validators, env.timeline,
      StoredRow(fingerprint, computed.verdict, computed.catalog.value.0, computed.catalog.value.1, now),
      Provenance(instant, computed.looked.failure.Some?))
  {
    hide HashOf;
    var v := validators[fingerprint];
    var earlier :| Recordable(env, v, computed, earlier);
    if computed.looked.failure.Some? {
      assert computed.verdict == GiveUp(v, computed.looked.seen, computed.looked.failure.value);
    }
  }

  /** Whether `record_validation` stores: the session it runs in still sees the snapshot's hash. */
  predicate Stores(env: Env, session: Session, computed: Computed, locked: bool, now: nat) {
    && computed.catalog.Some? && !locked
    && HashSeen(env, session, Tick(env, now), computed.catalog.value.1) == Some(computed.catalog.value.0)
  }

  /** The database and its validation table. Several sessions take turns; each statement takes time. */
  class Database {
    const env: Env
    const validators: map<string, Validator>
    var now: nat
    /** The one row of the validation table. */
    var row: Option<StoredRow>
    /** Every row there ever was, and where each came from. */
    ghost var recorded: seq<StoredRow>
    ghost var origins: map<nat, Provenance>

    ghost predicate Valid()
      reads this
    {
      && NeverRepeats(env.timeline)
      && (row.Some? ==> row.value in recorded)
      && (forall r :: r in recorded ==>
            r.validatedAt <= now && r.validatedAt in origins
            && Timely(validators, env.timeline, r, origins[r.validatedAt]))
      && forall r, s :: r in recorded && s in recorded && r.validatedAt == s.validatedAt ==> r == s
    }

    constructor (env: Env, validators: map<string, Validator>)
      requires NeverRepeats(env.timeline)
      ensures Valid() && row.None? && recorded == [] && now == 0
      ensures this.env == env && this.validators == validators
    {
      this.env, this.validators := env, validators;
      now, row, recorded, origins := 0, None, [], map[];
    }

    method Wait()
      requires Valid()
      modifies this`now
      ensures Valid() && now == Tick(env, old(now))
    {
      now := Tick(env, now);
    }

    /** `begin`: the first statement takes the snapshot, if the isolation level keeps one. */
    method Begin(repeatable: bool) returns (session: Session)
      requires Valid()
      modifies this`now
      ensures Valid() && now == Tick(env, old(now))
      ensures session == Session(if repeatable then Some(now) else None)
    {
      Wait();
      session := Session(if repeatable then Some(now) else None);
    }

    /** `catalogHash`. */
    method CatalogHash(session: Session, schemas: set<string>) returns (hash: Option<Hash>)
      requires Valid()
      modifies this`now
      ensures Valid() && now == Tick(env, old(now)) && hash == HashSeen(env, session, now, schemas)
    {
      Wait();
      hash := if env.failing(now).Some? then None else Some(HashOf(env.timeline(Instant(session, now)), schemas));
    }

    /** `validateOnce`: one look after the other, until one fails. */
    method ValidateOnce(session: Session, v: Validator) returns (looked: Looked, visited: set<string>)
      requires Valid()
      modifies this`now
      ensures Valid() && now == looked.now
      ensures looked == Looks(env, session, v, old(now), v.looks) && visited == Visited(looked.seen)
    {
      var seen: seq<Seen> := [];
      visited := {};
      for i := 0 to v.looks
        invariant Valid() && Looks(env, session, v, old(now), i) == Looked(seen, None, now)
        invariant visited == Visited(seen)
      {
        Wait();
        if env.failing(now).Some? {
          looked := Looked(seen, env.failing(now), now);
          GivenUpStays(env, session, v, old(now), i + 1, v.looks);
          return;
        }
        var schema := v.choose(seen);
        VisitedStep(seen, Seen(schema, env.timeline(Instant(session, now))(schema)));
        seen := seen + [Seen(schema, env.timeline(Instant(session, now))(schema))];
        if schema != GLOBAL {
          visited := visited + {schema};
        }
      }
      looked := Looked(seen, None, now);
    }

    /** `computeValidation`: at most three attempts, each over every schema the earlier ones visited. */
    method ComputeValidation(session: Session, v: Validator, seeds: set<string>) returns (computed: Computed)
      requires Valid()
      modifies this`now
      ensures Valid() && now == computed.now > old(now)
      ensures computed == Compute(env, session, v, seeds, 3, old(now))
      ensures Recordable(env, v, computed, Instant(session, now))
    {
      hide Valid, Looks, HashSeen, Visited, VerdictOf, Recordable;
      ghost var began := now;
      KeepsForever();
      ComputeIsRecordable(env, session, v, seeds, 3, now);
      var candidate, attempt := seeds, 0;
      while true
        invariant Valid() && attempt < 3
        invariant Compute(env, session, v, candidate, 3 - attempt, now) == Compute(env, session, v, seeds, 3, began)
        decreases 3 - attempt
      {
        var before := CatalogHash(session, candidate);
        var looked, visited := ValidateOnce(session, v);
        var verdict := VerdictOf(v, looked);
        if visited <= candidate {
          if before.None? {
            return Computed(verdict, None, looked, now);
          }
          var after := CatalogHash(session, candidate);
          return Computed(verdict, if before == after then Some((before.value, candidate)) else None, looked, now);
        }
        attempt := attempt + 1;
        if attempt == 3 {
          return Computed(verdict, None, looked, now);
        }
        candidate := candidate + visited;
      }
    }

    lemma KeepsForever()
      ensures Valid() ==> NeverRepeats(env.timeline)
    {
    }

    /** `record_validation`: only while its session sees the snapshot's hash, and one recorder at a time. */
    method RecordValidation(session: Session, fingerprint: string, computed: Computed, locked: bool) returns (stored: bool)
      requires Valid() && Begun(session, now) && fingerprint in validators
      requires exists instant :: Recordable(env, validators[fingerprint], computed, instant)
      modifies this
      ensures Valid() && now >= old(now) && old(recorded) <= recorded
      ensures stored <==>
        && computed.catalog.Some? && !locked && env.failing(Tick(env, old(now))).None?
        && HashOf(env.timeline(Instant(session, Tick(env, old(now)))), computed.catalog.value.1) == computed.catalog.value.0
      ensures stored ==>
        && now == Tick(env, old(now))
        && row == Some(
             StoredRow(fingerprint, computed.verdict, computed.catalog.value.0, computed.catalog.value.1, now))
        && origins == old(origins)[now := Provenance(Instant(session, now), computed.looked.failure.Some?)]
      ensures !stored ==> row == old(row) && recorded == old(recorded) && origins == old(origins)
    {
      hide Timely, Recordable;
      if computed.catalog.None? || locked {
        return false;
      }
      var (hash, schemas) := computed.catalog.value;
      var current := CatalogHash(session, schemas);
      if current != Some(hash) {
        return false;
      }
      var made := StoredRow(fingerprint, computed.verdict, hash, schemas, now);
      RecordableIsTimely(validators, env, fingerprint, computed, Instant(session, now), now);
      row := Some(made);
      recorded := recorded + [made];
      origins := origins[now := Provenance(Instant(session, now), computed.looked.failure.Some?)];
      stored := true;
    }
  }

  lemma VisitedStep(seen: seq<Seen>, look: Seen)
    ensures Visited(seen + [look]) == Visited(seen) + if look.schema == GLOBAL then {} else {look.schema}
  {
  }

  lemma {:induction false} GivenUpStays(env: Env, session: Session, v: Validator, now: nat, early: nat, late: nat)
    requires early <= late && Looks(env, session, v, now, early).failure.Some?
    ensures Looks(env, session, v, now, late) == Looks(env, session, v, now, early)
    decreases late
  {
    if early < late {
      GivenUpStays(env, session, v, now, early, late - 1);
    }
  }

  // ------------------------------------------------------- accepting a row

  /**
   Exactly when a row denotes a catalog no older than the one a decision saw: its recorder saw no older one,
   or none of the schemas it covers had changed in between.
   */
  lemma SinceExactly(timeline: nat -> Catalog, schemas: set<string>, hash: Hash, instant: nat, decided: nat)
    requires NeverRepeats(timeline) && HashOf(timeline(instant), schemas) == hash
    ensures (exists t :: decided <= t && HashOf(timeline(t), schemas) == hash) <==>
      (decided <= instant || HashOf(timeline(decided), schemas) == hash)
  {
    if t :| decided <= t && HashOf(timeline(t), schemas) == hash && instant < decided {
      forall schema | schema in schemas + {GLOBAL} ensures timeline(decided)(schema) == timeline(instant)(schema) {
        SameHash(timeline(instant), timeline(t), schemas, schema);
        assert timeline(instant)(schema) <= timeline(decided)(schema) <= timeline(t)(schema);
      }
      assert HashOf(timeline(decided), schemas) == HashOf(timeline(instant), schemas);
    }
  }

  /** The verdict of some catalog no older than the decision's. */
  ghost predicate FitsSince(v: Validator, verdict: Verdict, timeline: nat -> Catalog, decided: nat, gaveUp: bool) {
    exists t :: decided <= t && Fits(v, verdict, timeline(t), gaveUp)
  }

  /** The row's catalog is no older than the decision's, or its schemas had not changed by then. */
  ghost predicate Recent(timeline: nat -> Catalog, row: StoredRow, from: Provenance, decided: nat) {
    decided <= from.instant || HashOf(timeline(decided), row.schemas) == row.hash
  }

  lemma RecentFits(
      validators: map<string, Validator>, fingerprint: string, timeline: nat -> Catalog, row: StoredRow, from: Provenance,
      decided: nat)
    requires NeverRepeats(timeline) && fingerprint in validators && row.fingerprint == fingerprint
    requires Timely(validators, timeline, row, from)
    ensures Recent(timeline, row, from, decided) ==>
      FitsSince(validators[fingerprint], row.verdict, timeline, decided, from.gaveUp)
    ensures HashOf(timeline(decided), row.schemas) == row.hash ==>
      Fits(validators[fingerprint], row.verdict, timeline(decided), from.gaveUp)
  {
    hide Fits, HashOf;
    SinceExactly(timeline, row.schemas, row.hash, from.instant, decided);
  }

  /** A bound adapter: what its first, gated read decided. */
  class Adapter {
    const database: Database
    const fingerprint: string
    var decision: Option<Decision>
    /** The instant of the catalog that read saw. */
    ghost var decided: nat

    constructor (database: Database, fingerprint: string)
      requires database.Valid() && fingerprint in database.validators
      ensures this.database == database && this.fingerprint == fingerprint && decision.None? && Valid()
    {
      this.database, this.fingerprint, decision, decided := database, fingerprint, None, 0;
    }

    /** The row the decision accepted had the hash of the catalog it saw. */
    ghost predicate Valid()
      reads this, database
    {
      && database.Valid() && fingerprint in database.validators
      && (decision.Some? ==> decided <= decision.value.at <= database.now)
      && (decision.Some? && decision.value.validatedAt.Some? ==>
            exists r :: r in database.recorded && r.validatedAt == decision.value.validatedAt.value
              && HashOf(database.env.timeline(decided), r.schemas) == r.hash)
    }

    /**
     `resolveSnapshot` up to the live fallback, for whichever version of the row the session sees. A gated read
     accepts exactly a row with the hash of the catalog it sees, and the verdict fits that catalog. A later one
     accepts what the decision accepted or anything recorded after it; the verdict fits a catalog no older
     than the decision's, provided the recorder saw one or its schemas had not changed.
     */
    method Resolve(session: Session, visible: Option<StoredRow>, gated: bool) returns (accepted: Option<Verdict>)
      requires Valid() && Begun(session, database.now) && (!gated ==> decision.Some?)
      requires visible.Some? ==> visible.value in database.recorded
      modifies this`decision, this`decided, database`now
      ensures Valid() && database.now == Tick(database.env, old(database.now))
      ensures accepted.Some? <==>
        && visible.Some? && visible.value.fingerprint == fingerprint
        && if gated then HashOf(database.env.timeline(Instant(session, database.now)), visible.value.schemas) == visible.value.hash
           else Some(visible.value.validatedAt) == old(decision).value.validatedAt
                || visible.value.validatedAt > old(decision).value.at
      ensures accepted.Some? ==> accepted.value == visible.value.verdict
      ensures !gated ==> decision == old(decision) && decided == old(decided)
      ensures gated ==> decided == Instant(session, database.now)
      ensures gated ==>
        decision == Some(Decision(if accepted.Some? then Some(visible.value.validatedAt) else None, database.now))
      ensures gated && accepted.Some? ==>
        Fits(database.validators[fingerprint], accepted.value, database.env.timeline(decided),
             database.origins[visible.value.validatedAt].gaveUp)
      ensures accepted.Some? && Recent(database.env.timeline, visible.value, database.origins[visible.value.validatedAt], decided) ==>
        FitsSince(database.validators[fingerprint], accepted.value, database.env.timeline, decided,
                  database.origins[visible.value.validatedAt].gaveUp)
      ensures accepted.Some? && Some(visible.value.validatedAt) == decision.value.validatedAt ==>
        Recent(database.env.timeline, visible.value, database.origins[visible.value.validatedAt], decided)
    {
      hide Fits;
      database.Wait();
      var now := database.now;
      var stored := visible.Some? && visible.value.fingerprint == fingerprint
        && (gated ==> HashOf(database.env.timeline(Instant(session, now)), visible.value.schemas) == visible.value.hash);
      if gated {
        decision := Some(Decision(if stored then Some(visible.value.validatedAt) else None, now));
        decided := Instant(session, now);
      } else if stored
                && Some(visible.value.validatedAt) != decision.value.validatedAt
                && !(visible.value.validatedAt > decision.value.at) {
        stored := false;
      }
      accepted := None;
      if stored {
        var r := visible.value;
        assert Timely(database.validators, database.env.timeline, r, database.origins[r.validatedAt]);
        RecentFits(database.validators, fingerprint, database.env.timeline, r, database.origins[r.validatedAt], decided);
        accepted := Some(r.verdict);
      }
    }
  }

  // --------------------------------------------------- what the conditions exclude

  /** One schema, one look, one endpoint: available exactly as long as the schema is in its first version. */
  function OneLook(): Validator {
    Validator(
      1,
      (seen: seq<Seen>) => "s",
      (seen: seq<Seen>) =>
        Verdict(map["q" := if seen != [] && seen[0].version == 0 then Verified else Unavailable({CatalogDrift})], {}),
      (seen: seq<Seen>, endpoint: string) => Verified,
      {"q"})
  }

  lemma OneLookVerdict(catalog: Catalog)
    ensures Trail(OneLook(), catalog, 1) == [Seen("s", catalog("s"))]
    ensures VerdictAt(OneLook(), catalog).report["q"].Verified? <==> catalog("s") == 0
    ensures Visited(Trail(OneLook(), catalog, 1)) == {"s"}
  {
    assert Trail(OneLook(), catalog, 0) == [];
    assert [] + [Seen("s", catalog("s"))] == [Seen("s", catalog("s"))];
    assert Visited([Seen("s", catalog("s"))]) == {"s"};
  }

  function Letters(count: nat): (name: string)
    ensures |name| == count
  {
    seq(count, i => 'a')
  }

  /** Every statement sees new global rows, and the validator follows them to a schema of that version. */
  function Moving(): Env {
    Env((t: nat) => (schema: string) => t, (t: nat) => 0, (t: nat) => None)
  }

  function Follower(): Validator {
    Validator(
      2,
      (seen: seq<Seen>) => if seen == [] then GLOBAL else Letters(seen[0].version),
      (seen: seq<Seen>) => Verdict(map[], {}),
      (seen: seq<Seen>, endpoint: string) => Verified,
      {})
  }

  /** Without failures, but over a catalog that keeps moving, no number of attempts need be enough. */
  lemma {:induction false} MovingIsNeverRecordable(seeds: set<string>, attempts: nat, now: nat)
    requires attempts > 0 && forall schema :: schema in seeds ==> |schema| <= now
    ensures NeverRepeats(Moving().timeline)
    ensures Compute(Moving(), Session(None), Follower(), seeds, attempts, now).catalog.None?
    decreases attempts
  {
    hide Looks, Letters, HashSeen, Visited;
    FollowerLooks(now + 1);
    assert Letters(now + 2) !in seeds;
    if attempts > 1 {
      MovingIsNeverRecordable(seeds + {Letters(now + 2)}, attempts - 1, now + 3);
    }
  }

  lemma FollowerLooks(now: nat)
    ensures var looked := Looks(Moving(), Session(None), Follower(), now, 2);
      && looked.failure.None? && looked.now == now + 2 && Visited(looked.seen) == {Letters(now + 1)}
  {
    var env, v, session := Moving(), Follower(), Session(None);
    var first, second := Seen(GLOBAL, now + 1), Seen(Letters(now + 1), now + 2);
    assert Looks(env, session, v, now, 0) == Looked([], None, now);
    assert Looks(env, session, v, now, 1) == Looked([] + [first], None, now + 1);
    hide Letters;
    assert Letters(now + 1) != GLOBAL;
    assert Looks(env, session, v, now, 2) == Looked([] + [first] + [second], None, now + 2);
    VisitedStep([], first);
    VisitedStep([] + [first], second);
    assert Visited([]) == {};
  }

  /**
   A pessimistic row: the catalog stands still throughout, one look times out, and the report that trusts
   nobody is recorded with the hash of a catalog whose verdict is different.
   */
  lemma PessimisticRowHappens() returns (env: Env, session: Session, computed: Computed)
    ensures NeverRepeats(env.timeline) && forall early, late, schema :: env.timeline(early)(schema) == env.timeline(late)(schema)
    ensures computed == Compute(env, session, OneLook(), {"s"}, 3, 0) && Stores(env, session, computed, false, computed.now)
    ensures forall t :: computed.verdict != VerdictAt(OneLook(), env.timeline(t))
  {
    env, session := BadSecond(), Session(None);
    computed := Compute(env, session, OneLook(), {"s"}, 3, 0);
    StoredUnavailable();
    hide Compute, Stores, Looks, VerdictAt;
    forall t ensures computed.verdict != VerdictAt(OneLook(), env.timeline(t)) {
      OneLookVerdict(env.timeline(t));
      assert computed.verdict.report["q"].Unavailable?;
    }
  }

  /** Nothing ever changes, and the statement at the second instant fails. */
  function BadSecond(): Env {
    Env((t: nat) => (schema: string) => 0, (t: nat) => 0, (t: nat) => if t == 2 then Some(ValidationFailed) else None)
  }

  lemma StoredUnavailable()
    ensures NeverRepeats(BadSecond().timeline)
    ensures var computed := Compute(BadSecond(), Session(None), OneLook(), {"s"}, 3, 0);
      && Stores(BadSecond(), Session(None), computed, false, computed.now)
      && "q" in computed.verdict.report && computed.verdict.report["q"].Unavailable?
  {
    var env, session := BadSecond(), Session(None);
    assert Looks(env, session, OneLook(), 1, 0) == Looked([], None, 1);
    assert Looks(env, session, OneLook(), 1, 1) == Looked([], Some(ValidationFailed), 2);
    assert Visited([]) == {};
  }

  /**
   A row older than the decision: a recorder's snapshot predates some DDL, that DDL predates the decision of
   another adapter, and the recorder, still seeing its own snapshot, records afterwards. A later read of
   that adapter accepts the report of a catalog that no instant since its decision has.
   */
  method LateRecorder() returns (timeline: nat -> Catalog, decided: nat, accepted: Option<Verdict>)
    ensures NeverRepeats(timeline) && accepted.Some?
    ensures forall t :: decided <= t ==> accepted.value != VerdictAt(OneLook(), timeline(t))
  {
    var env, v := LateEnv(), OneLook();
    timeline := env.timeline;
    LateVerdicts();
    hide NeverRepeats, VerdictAt, Trail, OneLook, Compute, Recordable, Timely, Fits, Visited;
    var database := new Database(env, map["f" := v]);
    var recorder := database.Begin(true);
    var reader := database.Begin(false);
    var adapter := new Adapter(database, "f");
    var first := adapter.Resolve(reader, None, true);
    decided := database.now;
    assert recorder == Session(Some(1)) && decided == 13;
    StillIsRecordable(env, recorder, v, {"s"}, 3, database.now, env.timeline(1));
    var computed := database.ComputeValidation(recorder, v, {"s"});
    var stored := database.RecordValidation(recorder, "f", computed, false);
    assert stored && database.row.Some?;
    var later := database.Begin(false);
    accepted := adapter.Resolve(later, database.row, false);
  }

  /** DDL changes the schema between instants 4 and 5; the second statement comes after it. */
  function LateEnv(): Env {
    Env(
      (t: nat) => (schema: string) => if schema == "s" && t >= 5 then 1 else 0,
      (t: nat) => if t == 1 then 10 else 0,
      (t: nat) => None)
  }

  lemma LateVerdicts()
    ensures var timeline := LateEnv().timeline;
      && NeverRepeats(timeline) && Visited(Trail(OneLook(), timeline(1), OneLook().looks)) <= {"s"}
      && forall t :: 13 <= t ==> VerdictAt(OneLook(), timeline(1)) != VerdictAt(OneLook(), timeline(t))
  {
    var timeline := LateEnv().timeline;
    OneLookVerdict(timeline(1));
    forall t | 13 <= t ensures VerdictAt(OneLook(), timeline(1)) != VerdictAt(OneLook(), timeline(t)) {
      OneLookVerdict(timeline(t));
    }
  }
}
