/** Read dependencies, and what it means for one row-level write to reach a cached result through one. */
module Reads {
  import opened Contracts
  import opened Facts

  datatype Columns = Every | Only(names: seq<string>)

  datatype Binding = Binding(column: string, input: string)

  datatype Filter = Filter(column: string, value: Scalar)

  datatype Read = Read(resource: string, columns: Columns, bindings: seq<Binding>, filters: seq<Filter>)

  datatype EndpointReads = EndpointReads(endpoint: string, dependencies: seq<Read>)

  /** `manifest.reads`, in the order of its keys. */
  type Manifest = seq<EndpointReads>

  /** What a database decides: equality and order of two non-null scalars, and which scalars it accepts. */
  datatype Database = Database(
    coerce: Coerce,
    equal: (Scalar, Scalar) -> bool,
    less: (Scalar, Scalar) -> bool,
    accepts: Scalar -> bool)

  /** Equality is symmetric and transitive and stays inside `scalarMayEqual`. */
  ghost predicate Lawful(db: Database) {
    && (forall a, b :: db.equal(a, b) ==> db.equal(b, a))
    && (forall a, b, c :: db.equal(a, b) && db.equal(b, c) ==> db.equal(a, c))
    && (forall a, b :: db.equal(a, b) ==> ScalarMayEqual(db.coerce, a, b))
  }

  /** SQL `=` is true of two non-null values the database calls equal. */
  predicate SqlEqual(db: Database, left: Scalar, right: Scalar) {
    !left.Null? && !right.Null? && db.equal(left, right)
  }

  predicate BindingHolds(db: Database, binding: Binding, input: Input, row: Row) {
    && binding.input in input
    && input[binding.input].Single?
    && SqlEqual(db, Col(row, binding.column), input[binding.input].scalar)
  }

  predicate FilterHolds(db: Database, filter: Filter, row: Row) {
    SqlEqual(db, Col(row, filter.column), filter.value)
  }

  predicate Satisfies(db: Database, read: Read, input: Input, row: Row) {
    && (forall i :: 0 <= i < |read.bindings| ==> BindingHolds(db, read.bindings[i], input, row))
    && (forall i :: 0 <= i < |read.filters| ==> FilterHolds(db, read.filters[i], row))
  }

  /** A scoped resource shows a caller exactly the rows of its scope. */
  predicate Visible(resource: Resource, scope: Scalar, row: Row) {
    resource.scopeColumn.Some? ==> Col(row, resource.scopeColumn.value) == scope
  }

  predicate Reaches(db: Database, resource: Resource, read: Read, input: Input, scope: Scalar, row: Option<Row>) {
    row.Some? && Visible(resource, scope, row.value) && Satisfies(db, read, input, row.value)
  }

  predicate Sensitive(resource: Resource, read: Read, column: string) {
    || read.columns.Every?
    || column in read.columns.names
    || (exists i :: 0 <= i < |read.filters| && read.filters[i].column == column)
    || resource.scopeColumn == Some(column)
  }

  /** The row appeared, disappeared, or changed in a column the read is sensitive to. */
  ghost predicate ReadChanged(resource: Resource, read: Read, w: RowWrite) {
    || w.before.None?
    || w.after.None?
    || exists column :: Differs(w.before.value, w.after.value, column) && Sensitive(resource, read, column)
  }

  /** The write may move a result that used this read with this input in this scope. */
  ghost predicate Affects(
    db: Database, resources: Resources, read: Read, input: Input, scope: Scalar, w: RowWrite)
  {
    && read.resource == w.resource
    && read.resource in resources
    && ReadChanged(resources[read.resource], read, w)
    && (Reaches(db, resources[read.resource], read, input, scope, w.before)
        || Reaches(db, resources[read.resource], read, input, scope, w.after))
  }

  function DropBindings(list: seq<Read>): (dropped: seq<Read>)
    ensures |dropped| == |list|
    ensures forall i :: 0 <= i < |list| ==> dropped[i] == list[i].(bindings := [])
  {
    seq(|list|, i requires 0 <= i < |list| => list[i].(bindings := []))
  }

  /** A read without its bindings is affected by everything the read is affected by, for any input. */
  lemma DroppedIsWider(
      db: Database, resources: Resources, read: Read, input: Input, other: Input, scope: Scalar, w: RowWrite)
    requires Affects(db, resources, read, input, scope, w)
    ensures Affects(db, resources, read.(bindings := []), other, scope, w)
  {
    var bare := read.(bindings := []);
    var resource := resources[read.resource];
    if w.before.Some? && w.after.Some? {
      var column :| Differs(w.before.value, w.after.value, column) && Sensitive(resource, read, column);
      assert Sensitive(resource, bare, column);
    }
    if Reaches(db, resource, read, input, scope, w.before) {
      assert Reaches(db, resource, bare, other, scope, w.before);
    } else {
      assert Reaches(db, resource, bare, other, scope, w.after);
    }
  }
}
