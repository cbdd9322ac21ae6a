/**
 The SQLite observer: one trigger firing per row effect, one widening per firing, and tables that roll back
 with their savepoints.
 */
module SqliteCollectors {
  import opened Contracts
  import opened Facts
  import opened Reads
  import opened SelectTrees
  import opened SelectSound
  import opened Observers
  import opened Collectors

  /** The two temporary tables. A resource maps to whether it has been widened. */
  datatype Collected = Collected(rows: seq<WriteFact>, resources: map<string, bool>)

  predicate IsWidened(c: Collected, resource: string) {
    resource in c.resources && c.resources[resource]
  }

  // ---------------------------------------------------------------- a firing

  /** `insert or ignore` of the resource, then the row unless the resource is widened. */
  function Inserted(c: Collected, fact: WriteFact): Collected {
    var resources := if fact.resource in c.resources then c.resources else c.resources[fact.resource := false];
    Collected(if resources[fact.resource] then c.rows else c.rows + [fact], resources)
  }

  /** The group the aggregate query puts first; which of several equal groups is up to SQLite. */
  ghost predicate Largest(measure: Measure, rows: seq<WriteFact>, resource: string) {
    && (exists row :: row in rows && row.resource == resource)
    && forall row :: row in rows ==> Weight(measure, rows, row.resource) <= Weight(measure, rows, resource)
  }

  /** `update ... set widened=1`, guarded by the two totals. */
  function WidenedBy(measure: Measure, c: Collected, chosen: string): Collected {
    if Over(measure, c.rows) then c.(resources := c.resources[chosen := true]) else c
  }

  function NotWidened(c: Collected, rows: seq<WriteFact>): (kept: seq<WriteFact>)
    ensures forall row :: row in kept <==> row in rows && !IsWidened(c, row.resource)
    ensures |kept| <= |rows|
  {
    if rows == [] then []
    else (if IsWidened(c, rows[0].resource) then [] else [rows[0]]) + NotWidened(c, rows[1..])
  }

  /** One firing of the trigger. */
  function Fired(measure: Measure, c: Collected, fact: WriteFact, chosen: string): Collected {
    var widened := WidenedBy(measure, Inserted(c, fact), chosen);
    widened.(rows := NotWidened(widened, widened.rows))
  }

  /** Both budgets hold, every row belongs to a listed resource, and widened resources have no rows. */
  predicate Tidy(measure: Measure, c: Collected) {
    && !Over(measure, c.rows)
    && forall row :: row in c.rows ==> row.resource in c.resources && !c.resources[row.resource]
  }

  lemma {:induction false} BytesAppend(measure: Measure, rows: seq<WriteFact>, row: WriteFact)
    ensures Bytes(measure, rows + [row]) == Bytes(measure, rows) + measure(row)
  {
    if rows == [] {
      assert [row][1..] == [];
    } else {
      assert (rows + [row])[1..] == rows[1..] + [row];
      BytesAppend(measure, rows[1..], row);
    }
  }

  lemma {:induction false} BytesSplit(measure: Measure, rows: seq<WriteFact>, resource: string)
    ensures Bytes(measure, rows) == Bytes(measure, Group(rows, resource)) + Bytes(measure, Others(rows, resource))
    ensures |rows| == |Group(rows, resource)| + |Others(rows, resource)|
  {
    if rows != [] {
      BytesSplit(measure, rows[1..], resource);
      if rows[0].resource == resource {
        assert Group(rows, resource) == [rows[0]] + Group(rows[1..], resource);
        assert Others(rows, resource) == Others(rows[1..], resource);
      } else {
        assert Others(rows, resource) == [rows[0]] + Others(rows[1..], resource);
        assert Group(rows, resource) == Group(rows[1..], resource);
      }
    }
  }

  lemma {:induction false} BytesAtLeast(measure: Measure, rows: seq<WriteFact>, row: WriteFact)
    requires row in rows
    ensures measure(row) <= Bytes(measure, rows)
  {
    if row != rows[0] {
      BytesAtLeast(measure, rows[1..], row);
    }
  }

  lemma {:induction false} NotWidenedAll(c: Collected, rows: seq<WriteFact>)
    requires forall row :: row in rows ==> !IsWidened(c, row.resource)
    ensures NotWidened(c, rows) == rows
  {
    if rows != [] {
      assert rows[0] in rows;
      assert forall row :: row in rows[1..] ==> row in rows;
      NotWidenedAll(c, rows[1..]);
    }
  }

  lemma {:induction false} NotWidenedOne(c: Collected, rows: seq<WriteFact>, chosen: string)
    requires IsWidened(c, chosen)
    requires forall row :: row in rows && row.resource != chosen ==> !IsWidened(c, row.resource)
    ensures NotWidened(c, rows) == Others(rows, chosen)
  {
    if rows != [] {
      assert rows[0] in rows;
      assert forall row :: row in rows[1..] ==> row in rows;
      NotWidenedOne(c, rows[1..], chosen);
    }
  }

  /** Dropping the heaviest group makes up for any one row that was just added. */
  lemma OneWideningFits(measure: Measure, rows: seq<WriteFact>, fact: WriteFact, chosen: string)
    requires !Over(measure, rows) && Largest(measure, rows + [fact], chosen)
    ensures !Over(measure, Others(rows + [fact], chosen))
  {
    hide Bytes, Group, Others;
    var all := rows + [fact];
    BytesAppend(measure, rows, fact);
    BytesSplit(measure, all, chosen);
    assert fact in all && fact in Group(all, fact.resource);
    BytesAtLeast(measure, Group(all, fact.resource), fact);
    var row :| row in all && row.resource == chosen;
    assert row in Group(all, chosen);
  }

  /** A single widening per firing is enough. */
  lemma FiringIsTidy(measure: Measure, c: Collected, fact: WriteFact, chosen: string)
    requires Tidy(measure, c)
    requires Over(measure, Inserted(c, fact).rows) ==> Largest(measure, Inserted(c, fact).rows, chosen)
    ensures Tidy(measure, Fired(measure, c, fact, chosen))
  {
    hide Over, Largest, NotWidened;
    var inserted := Inserted(c, fact);
    var widened := WidenedBy(measure, inserted, chosen);
    if Over(measure, inserted.rows) {
      assert inserted.rows == c.rows + [fact];
      NotWidenedOne(widened, inserted.rows, chosen);
      OneWideningFits(measure, c.rows, fact, chosen);
    } else {
      NotWidenedAll(widened, widened.rows);
    }
  }

  /** Nothing recorded is dropped without its resource being widened, and widening lasts. */
  lemma FiringKeeps(measure: Measure, c: Collected, fact: WriteFact, chosen: string, low: WriteFact)
    requires low == fact || low in c.rows || IsWidened(c, low.resource)
    ensures var after := Fired(measure, c, fact, chosen); low in after.rows || IsWidened(after, low.resource)
  {
  }

  ghost predicate Leads(measure: Measure, rows: seq<WriteFact>, count: nat, resource: string) {
    && (exists row :: row in rows && row.resource == resource)
    && forall k :: 0 <= k < |rows| && k < count ==> Weight(measure, rows, rows[k].resource) <= Weight(measure, rows, resource)
  }

  lemma LargestSoFar(measure: Measure, rows: seq<WriteFact>, count: nat, resource: string)
    requires count < |rows| && (count == 0 ==> resource == rows[0].resource)
    requires count == 0 || Leads(measure, rows, count, resource)
    ensures Leads(
      measure, rows, count + 1,
      if Weight(measure, rows, rows[count].resource) > Weight(measure, rows, resource) then rows[count].resource else resource)
  {
    hide Weight;
    assert rows[count] in rows;
  }

  lemma LeadsAll(measure: Measure, rows: seq<WriteFact>, resource: string)
    requires Leads(measure, rows, |rows|, resource)
    ensures Largest(measure, rows, resource)
  {
    hide Weight;
  }

  class Collector {
    const measure: Measure
    var rows: seq<WriteFact>
    var resources: map<string, bool>

    function Current(): Collected
      reads this
    {
      Collected(rows, resources)
    }

    constructor (measure: Measure)
      ensures this.measure == measure && Tidy(measure, Current()) && Current() == Collected([], map[])
    {
      this.measure := measure;
      rows, resources := [], map[];
    }

    method FindLargest() returns (chosen: string)
      requires rows != []
      ensures Largest(measure, rows, chosen)
    {
      hide *;
      chosen := rows[0].resource;
      LargestSoFar(measure, rows, 0, chosen);
      for i := 1 to |rows|
        invariant Leads(measure, rows, i, chosen)
      {
        var next := rows[i].resource;
        LargestSoFar(measure, rows, i, chosen);
        if Weight(measure, rows, next) > Weight(measure, rows, chosen) {
          chosen := next;
        }
      }
      LeadsAll(measure, rows, chosen);
    }

    /** The trigger body for one row effect. */
    method Fire(fact: WriteFact) returns (chosen: string)
      requires Tidy(measure, Current())
      modifies this
      ensures Tidy(measure, Current())
      ensures Current() == Fired(measure, old(Current()), fact, chosen)
      ensures var inserted := Inserted(old(Current()), fact).rows; Over(measure, inserted) ==> Largest(measure, inserted, chosen)
    {
      ghost var before := Current();
      hide Tidy, Largest, Over;
      if fact.resource !in resources {
        resources := resources[fact.resource := false];
      }
      if !resources[fact.resource] {
        rows := rows + [fact];
      }
      chosen := fact.resource;
      if Over(measure, rows) {
        OverHasRows(measure, rows);
        chosen := FindLargest();
        resources := resources[chosen := true];
      }
      rows := NotWidened(Collected(rows, resources), rows);
      FiringIsTidy(measure, before, fact, chosen);
    }
  }

  lemma OverHasRows(measure: Measure, rows: seq<WriteFact>)
    ensures Over(measure, rows) ==> rows != []
  {
  }

  // ------------------------------------------------------------- transactions

  /** Everything a savepoint restores. */
  datatype Snapshot = Snapshot(tables: Tables, written: seq<RowWrite>, collected: Collected)

  /** A session with the states its open savepoints return to. */
  datatype Session = Session(now: Snapshot, saved: seq<Snapshot>)

  /** `chosen` is the group SQLite would widen, if the firing goes over a limit. */
  datatype Event =
    | Write(w: RowWrite, chosen: string)
    | OpenSavepoint
    | ReleaseSavepoint
    | RollbackToSavepoint

  /** `observedFacts` of the row one trigger inserts. */
  function TriggerFact(observer: Observer, w: RowWrite): WriteFact {
    match (w.before, w.after)
    case (Some(before), Some(after)) =>
      WriteFact(w.resource, Facts.Update, RowStateOf(observer, before), RowStateOf(observer, after),
        Some(ChangedColumns(observer.resource.columns, before, after)))
    case (Some(before), None) => WriteFact(w.resource, Delete, RowStateOf(observer, before), Absent, None)
    case (None, Some(after)) => WriteFact(w.resource, Insert, Absent, RowStateOf(observer, after), None)
    case (None, None) => Blank(w.resource)
  }

  ghost predicate Triggers(observers: map<string, Observer>, w: RowWrite) {
    w.resource in observers && Visibly(w)
  }

  ghost predicate Possible(measure: Measure, observers: map<string, Observer>, s: Session, e: Event) {
    match e
    case Write(w, chosen) =>
      && Current(s.now.tables, w)
      && (w.resource in observers ==> Typed(observers[w.resource].resource, w))
      && (Triggers(observers, w) ==>
            var rows := Inserted(s.now.collected, TriggerFact(observers[w.resource], w)).rows;
            Over(measure, rows) ==> Largest(measure, rows, chosen))
    case OpenSavepoint => true
    case ReleaseSavepoint => s.saved != []
    case RollbackToSavepoint => s.saved != []
  }

  ghost function Written(measure: Measure, observers: map<string, Observer>, s: Snapshot, w: RowWrite, chosen: string): Snapshot {
    Snapshot(
      Apply(s.tables, w),
      s.written + [w],
      if Triggers(observers, w) then Fired(measure, s.collected, TriggerFact(observers[w.resource], w), chosen) else s.collected)
  }

  ghost function Step(measure: Measure, observers: map<string, Observer>, s: Session, e: Event): Session
    requires Possible(measure, observers, s, e)
  {
    match e
    case Write(w, chosen) => s.(now := Written(measure, observers, s.now, w, chosen))
    case OpenSavepoint => Session(s.now, s.saved + [s.now])
    case ReleaseSavepoint => Session(s.now, s.saved[..|s.saved| - 1])
    case RollbackToSavepoint => Session(s.saved[|s.saved| - 1], s.saved[..|s.saved| - 1])
  }

  /** `collectRows` and `observedFacts`. */
  ghost predicate Drains(c: Collected, facts: seq<WriteFact>) {
    && (forall row :: row in c.rows ==> row in facts)
    && forall resource :: IsWidened(c, resource) ==> Blank(resource) in facts
  }

  ghost predicate Kept(c: Collected, fact: WriteFact) {
    fact in c.rows || IsWidened(c, fact.resource)
  }

  /** Every surviving observed write is a row, or its resource is widened. */
  ghost predicate Faithful(measure: Measure, observers: map<string, Observer>, start: Tables, s: Snapshot) {
    && Tidy(measure, s.collected)
    && Sequential(start, s.written) && s.tables == ApplyAll(start, s.written)
    && forall w :: w in s.written && w.resource in observers && Visibly(w) ==>
         Typed(observers[w.resource].resource, w) && Kept(s.collected, TriggerFact(observers[w.resource], w))
  }

  ghost predicate AllFaithful(measure: Measure, observers: map<string, Observer>, start: Tables, s: Session) {
    Faithful(measure, observers, start, s.now)
    && forall i :: 0 <= i < |s.saved| ==> Faithful(measure, observers, start, s.saved[i])
  }

  lemma WriteKeeps(
      measure: Measure, observers: map<string, Observer>, start: Tables, s: Session, w: RowWrite, chosen: string)
    requires Faithful(measure, observers, start, s.now) && Possible(measure, observers, s, Write(w, chosen))
    ensures Faithful(measure, observers, start, Written(measure, observers, s.now, w, chosen))
  {
    var before, after := s.now, Written(measure, observers, s.now, w, chosen);
    hide Tidy, Fired, Inserted, Over, Largest, Visibly, Typed, TriggerFact, SelectSound.Current;
    SequentialConcat(start, before.written, [w]);
    SequentialOne(before.tables, w);
    if Triggers(observers, w) {
      var fact := TriggerFact(observers[w.resource], w);
      FiringIsTidy(measure, before.collected, fact, chosen);
      forall v | v in after.written && v.resource in observers && Visibly(v)
        ensures Typed(observers[v.resource].resource, v) && Kept(after.collected, TriggerFact(observers[v.resource], v))
      {
        FiringKeeps(measure, before.collected, fact, chosen, TriggerFact(observers[v.resource], v));
      }
    }
  }

  lemma SequentialOne(tables: Tables, w: RowWrite)
    requires SelectSound.Current(tables, w)
    ensures Sequential(tables, [w]) && ApplyAll(tables, [w]) == Apply(tables, w)
  {
    assert [w][1..] == [];
  }

  lemma StepKeeps(measure: Measure, observers: map<string, Observer>, start: Tables, s: Session, e: Event)
    requires AllFaithful(measure, observers, start, s) && Possible(measure, observers, s, e)
    ensures AllFaithful(measure, observers, start, Step(measure, observers, s, e))
  {
    hide Faithful, Written;
    match e
    case Write(w, chosen) => WriteKeeps(measure, observers, start, s, w, chosen);
    case OpenSavepoint =>
    case ReleaseSavepoint =>
    case RollbackToSavepoint =>
  }

  ghost predicate CanRun(measure: Measure, observers: map<string, Observer>, s: Session, events: seq<Event>)
    decreases events
  {
    events == []
    || (Possible(measure, observers, s, events[0])
        && CanRun(measure, observers, Step(measure, observers, s, events[0]), events[1..]))
  }

  ghost function RunEvents(measure: Measure, observers: map<string, Observer>, s: Session, events: seq<Event>): Session
    requires CanRun(measure, observers, s, events)
    decreases events
  {
    if events == [] then s
    else RunEvents(measure, observers, Step(measure, observers, s, events[0]), events[1..])
  }

  lemma {:induction false} RunKeeps(
      measure: Measure, observers: map<string, Observer>, start: Tables, s: Session, events: seq<Event>)
    requires AllFaithful(measure, observers, start, s) && CanRun(measure, observers, s, events)
    ensures AllFaithful(measure, observers, start, RunEvents(measure, observers, s, events))
    decreases events
  {
    hide AllFaithful, Possible, Step;
    if events != [] {
      StepKeeps(measure, observers, start, s, events[0]);
      RunKeeps(measure, observers, start, Step(measure, observers, s, events[0]), events[1..]);
    }
  }

  /** The events open and close only savepoints of their own. */
  ghost predicate Nested(measure: Measure, observers: map<string, Observer>, s: Session, events: seq<Event>, floor: nat)
    requires CanRun(measure, observers, s, events)
    decreases events
  {
    && |s.saved| >= floor
    && if events == [] then |s.saved| == floor else Nested(measure, observers, Step(measure, observers, s, events[0]), events[1..], floor)
  }

  lemma {:induction false} NestedKeepsSaved(
      measure: Measure, observers: map<string, Observer>, s: Session, events: seq<Event>, floor: nat)
    requires CanRun(measure, observers, s, events) && Nested(measure, observers, s, events, floor)
    ensures RunEvents(measure, observers, s, events).saved == s.saved[..floor]
    decreases events
  {
    hide Possible, Written;
    if events != [] {
      var next := Step(measure, observers, s, events[0]);
      NestedKeepsSaved(measure, observers, next, events[1..], floor);
      NestedStep(measure, observers, s, events[0], events[1..], floor);
    }
  }

  lemma NestedStep(
      measure: Measure, observers: map<string, Observer>, s: Session, e: Event, rest: seq<Event>, floor: nat)
    requires Possible(measure, observers, s, e) && |s.saved| >= floor
    requires |Step(measure, observers, s, e).saved| >= floor
    ensures Step(measure, observers, s, e).saved[..floor] == s.saved[..floor]
  {
    hide Possible, Written;
  }

  /**
   Whatever is written and nested inside a savepoint: rolling back to it restores rows, collector and open savepoints
   as they were; releasing it keeps what was written and collected, and restores the open savepoints alone.
   */
  lemma SavepointsRestore(measure: Measure, observers: map<string, Observer>, s: Session, inside: seq<Event>)
    requires CanRun(measure, observers, Session(s.now, s.saved + [s.now]), inside)
    requires Nested(measure, observers, Session(s.now, s.saved + [s.now]), inside, |s.saved| + 1)
    ensures Step(measure, observers, s, OpenSavepoint) == Session(s.now, s.saved + [s.now])
    ensures var end := RunEvents(measure, observers, Session(s.now, s.saved + [s.now]), inside);
      && Possible(measure, observers, end, RollbackToSavepoint) && Step(measure, observers, end, RollbackToSavepoint) == s
      && Possible(measure, observers, end, ReleaseSavepoint)
      && Step(measure, observers, end, ReleaseSavepoint) == Session(end.now, s.saved)
  {
    var entered := Session(s.now, s.saved + [s.now]);
    NestedKeepsSaved(measure, observers, entered, inside, |s.saved| + 1);
    assert entered.saved[..|s.saved| + 1] == entered.saved;
    hide RunEvents, CanRun, Nested;
    assert entered.saved[..|s.saved|] == s.saved;
  }

  lemma TriggerFactCovers(observer: Observer, w: RowWrite)
    requires Typed(observer.resource, w)
    ensures Covers(observer.resource, TriggerFact(observer, w), w)
  {
    if w.before.Some? {
      RowStateAdmits(observer, w.before.value);
    }
    if w.after.Some? {
      RowStateAdmits(observer, w.after.value);
    }
    if w.before.Some? && w.after.Some? {
      ChangedColumnsAll(observer.resource.columns, w.before.value, w.after.value);
    }
  }

  function Fresh(start: Tables): Session {
    Session(Snapshot(start, [], Collected([], map[])), [])
  }

  lemma EndIsFaithful(measure: Measure, observers: map<string, Observer>, start: Tables, events: seq<Event>)
    requires CanRun(measure, observers, Fresh(start), events)
    ensures Faithful(measure, observers, start, RunEvents(measure, observers, Fresh(start), events).now)
  {
    hide RunEvents, CanRun, Visibly, Bytes;
    assert Faithful(measure, observers, start, Fresh(start).now) by {
      EmptyFits(measure);
    }
    RunKeeps(measure, observers, start, Fresh(start), events);
  }

  /**
   Over every run of row writes and nested savepoints: the two tables stay within both budgets, a widened
   resource holds no rows, and the surviving writes, in order, are what turned the old tables into the new ones.
   */
  lemma CollectorIsTidy(measure: Measure, observers: map<string, Observer>, start: Tables, events: seq<Event>)
    requires CanRun(measure, observers, Fresh(start), events)
    ensures var end := RunEvents(measure, observers, Fresh(start), events).now;
      && |end.collected.rows| <= FACT_LIMIT && Bytes(measure, end.collected.rows) <= FACT_BYTES
      && (forall row :: row in end.collected.rows ==> !IsWidened(end.collected, row.resource))
      && Sequential(start, end.written) && end.tables == ApplyAll(start, end.written)
  {
    hide RunEvents, CanRun, Bytes, Sequential, ApplyAll;
    EndIsFaithful(measure, observers, start, events);
  }

  /** Over every such run, whatever the drain reads covers every observed write that was not undone. */
  lemma CollectorIsFaithful(
      measure: Measure, observers: map<string, Observer>, start: Tables, events: seq<Event>, facts: seq<WriteFact>, w: RowWrite)
    requires CanRun(measure, observers, Fresh(start), events)
    requires var end := RunEvents(measure, observers, Fresh(start), events).now;
      Drains(end.collected, facts) && w in end.written && w.resource in observers && Visibly(w)
    ensures exists fact :: fact in facts && Covers(observers[w.resource].resource, fact, w)
  {
    hide RunEvents, CanRun, Visibly, Covers, Typed, TriggerFact, Bytes, Sequential, ApplyAll;
    EndIsFaithful(measure, observers, start, events);
    var end := RunEvents(measure, observers, Fresh(start), events).now;
    var observer := observers[w.resource];
    var fact := TriggerFact(observer, w);
    TriggerFactCovers(observer, w);
    if fact !in end.collected.rows {
      assert Blank(fact.resource) in facts;
      BlankCovers(observer, fact, w);
    }
  }

  lemma EmptyFits(measure: Measure)
    ensures Bytes(measure, []) == 0
  {
  }

  lemma BlankCovers(observer: Observer, fact: WriteFact, w: RowWrite)
    ensures Covers(observer.resource, fact, w) ==> Covers(observer.resource, Blank(fact.resource), w)
  {
  }
}
