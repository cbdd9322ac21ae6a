/**
 Write facts as an abstract domain. A concrete write replaces one physical row; a fact stands for
 a set of such writes. `Covers` is that concretisation and `LeqFact` the order that refines it.
 */
module Facts {
  import opened Contracts

  /** `identity` is empty for a resource without a key. */
  datatype Resource = Resource(scopeColumn: Option<string>, columns: seq<string>, identity: seq<string>)

  type Resources = map<string, Resource>

  type Row = map<string, Scalar>

  function Col(row: Row, column: string): Scalar {
    if column in row then row[column] else Null
  }

  predicate Differs(before: Row, after: Row, column: string) {
    Col(before, column) != Col(after, column)
  }

  /** One row-level effect: what physical row `id` of `resource` held before and holds after. */
  datatype RowWrite = RowWrite(resource: string, id: int, before: Option<Row>, after: Option<Row>)

  datatype RowState = Absent | Unknown | Known(scope: Scalar, fields: Record, equality: Option<Record>)

  datatype Operation = Insert | Update | Delete | UnknownOperation

  datatype WriteFact = WriteFact(
    resource: string, operation: Operation, before: RowState, after: RowState, changed: Option<seq<string>>)

  predicate Agrees(fields: Record, row: Row) {
    forall column :: column in fields ==> Col(row, column) == fields[column]
  }

  /** The rows a state stands for. Every state admits the missing row, so joining with Absent loses nothing. */
  predicate InState(resource: Resource, state: RowState, row: Option<Row>) {
    match state
    case Absent => row.None?
    case Unknown => true
    case Known(scope, fields, equality) =>
      row.None? || (
        && (resource.scopeColumn.Some? ==> Col(row.value, resource.scopeColumn.value) == scope)
        && Agrees(fields, row.value)
        && (equality.Some? ==> Agrees(equality.value, row.value)))
  }

  /** An update that lists its changed columns speaks of a row present on both sides. */
  ghost predicate ChangedCovers(changed: seq<string>, w: RowWrite) {
    && w.before.Some? && w.after.Some?
    && forall column :: Differs(w.before.value, w.after.value, column) ==> column in changed
  }

  ghost predicate Covers(resource: Resource, fact: WriteFact, w: RowWrite) {
    && fact.resource == w.resource
    && InState(resource, fact.before, w.before)
    && InState(resource, fact.after, w.after)
    && (fact.operation.Update? && fact.changed.Some? ==> ChangedCovers(fact.changed.value, w))
  }

  predicate LeqRow(low: RowState, high: RowState) {
    || high.Unknown?
    || low.Absent?
    || (
      && low.Known? && high.Known?
      && low.scope == high.scope
      && Subsumes(high.fields, low.fields)
      && (high.equality.Some? ==> low.equality.Some? && Subsumes(high.equality.value, low.equality.value)))
  }

  predicate LeqFact(low: WriteFact, high: WriteFact) {
    && low.resource == high.resource
    && LeqRow(low.before, high.before)
    && LeqRow(low.after, high.after)
    && (high.operation == low.operation || high.operation.UnknownOperation?)
    && (high.changed.Some? ==>
          low.changed.Some? && forall column :: column in low.changed.value ==> column in high.changed.value)
  }

  lemma LeqRowTransitive(a: RowState, b: RowState, c: RowState)
    ensures LeqRow(a, b) && LeqRow(b, c) ==> LeqRow(a, c)
  {
  }

  lemma LeqFactTransitive(a: WriteFact, b: WriteFact, c: WriteFact)
    requires LeqFact(a, b) && LeqFact(b, c)
    ensures LeqFact(a, c)
  {
    LeqRowTransitive(a.before, b.before, c.before);
    LeqRowTransitive(a.after, b.after, c.after);
  }

  lemma LeqRowSound(resource: Resource, low: RowState, high: RowState, row: Option<Row>)
    ensures LeqRow(low, high) && InState(resource, low, row) ==> InState(resource, high, row)
  {
  }

  /** The order is sound: a higher fact stands for every write a lower one stands for. */
  lemma LeqFactSound(resource: Resource, low: WriteFact, high: WriteFact, w: RowWrite)
    requires LeqFact(low, high) && Covers(resource, low, w)
    ensures Covers(resource, high, w)
  {
    LeqRowSound(resource, low.before, high.before, w.before);
    LeqRowSound(resource, low.after, high.after, w.after);
  }

  /** `commonRow`: the join of two row states. */
  function JoinRow(left: RowState, right: RowState): (joined: RowState)
    ensures LeqRow(left, joined) && LeqRow(right, joined)
  {
    if left.Absent? then right
    else if right.Absent? then left
    else if !left.Known? || !right.Known? || left.scope != right.scope then Unknown
    else
      Known(
        left.scope,
        CommonFields(left.fields, right.fields),
        if left.equality.Some? && right.equality.Some?
        then Some(CommonFields(left.equality.value, right.equality.value))
        else None)
  }

  function CommonFields(left: Record, right: Record): (common: Record)
    ensures Subsumes(common, left) && Subsumes(common, right)
    ensures forall broad: Record :: Subsumes(broad, left) && Subsumes(broad, right) ==> Subsumes(broad, common)
  {
    map name | name in left && name in right && left[name] == right[name] :: left[name]
  }

  /** `JoinRow` keeps every constraint the two states share: it is their least upper bound. */
  lemma JoinRowIsLeast(left: RowState, right: RowState, high: RowState)
    requires LeqRow(left, high) && LeqRow(right, high)
    ensures LeqRow(JoinRow(left, right), high)
  {
    if left.Known? && right.Known? && high.Known? {
      assert Subsumes(high.fields, CommonFields(left.fields, right.fields));
    }
  }
}
