/**
 The derived read dependencies are enough: a row-level write that affects none of them leaves the
 select's result unchanged, through any nesting of joins and three-valued predicates.
 */
module SelectSound {
  import opened Contracts
  import opened Facts
  import opened Reads
  import opened SelectTrees

  // -------------------------------------------------- guaranteed conditions

  ghost predicate AllHold(db: Database, bindings: seq<Binding>, input: Input, row: Row) {
    forall binding :: binding in bindings ==> BindingHolds(db, binding, input, row)
  }

  ghost predicate AllMatch(db: Database, filters: seq<Filter>, row: Row) {
    forall filter :: filter in filters ==> FilterHolds(db, filter, row)
  }

  /** A row a predicate accepts satisfies every binding and filter read off the predicate. */
  lemma {:induction false} GuaranteedHold(db: Database, condition: Predicate, input: Input, row: Row)
    requires Eval(db, condition, input, row).Holds?
    ensures AllHold(db, GuaranteedBindings(condition), input, row)
    ensures AllMatch(db, GuaranteedFilters(condition), row)
    decreases condition, 1
  {
    match condition
    case Atomic(_, _, _) =>
    case And(all) => GuaranteedOfAll(db, all, input, row);
    case Or(any) => GuaranteedOfEach(db, any, input, row);
    case Not(_) =>
  }

  lemma {:induction false} GuaranteedOfAll(db: Database, conditions: seq<Predicate>, input: Input, row: Row)
    requires EvalAll(db, conditions, input, row).Holds?
    ensures AllHold(db, BindingsOfAll(conditions), input, row)
    ensures AllMatch(db, FiltersOfAll(conditions), row)
    decreases conditions, 0
  {
    if conditions != [] {
      GuaranteedHold(db, conditions[0], input, row);
      GuaranteedOfAll(db, conditions[1..], input, row);
    }
  }

  lemma {:induction false} GuaranteedOfEach(db: Database, conditions: seq<Predicate>, input: Input, row: Row)
    requires conditions != [] && EvalAny(db, conditions, input, row).Holds?
    ensures AllHold(db, BindingsOfEach(conditions), input, row)
    ensures AllMatch(db, FiltersOfEach(conditions), row)
    decreases conditions, 0
  {
    if Eval(db, conditions[0], input, row).Holds? {
      GuaranteedHold(db, conditions[0], input, row);
    } else {
      GuaranteedOfEach(db, conditions[1..], input, row);
    }
  }

  // ------------------------------------------------- nothing guaranteed is missed

  /** A fact the compiler may read off a predicate. */
  datatype Mark = Bound(binding: Binding) | Fixed(filter: Filter)

  /** The literal states the fact on its own. */
  predicate States(literal: Predicate, mark: Mark) {
    && literal.Atomic? && literal.op.Eq? && literal.value.Some?
    && match mark
       case Bound(binding) => literal.field == binding.column && literal.value.value == InputField(binding.input)
       case Fixed(filter) => literal.field == filter.column && literal.value.value == Literal(Single(filter.value))
  }

  ghost predicate Has(path: seq<Predicate>, mark: Mark) {
    exists k :: 0 <= k < |path| && States(path[k], mark)
  }

  ghost predicate OnEvery(paths: set<seq<Predicate>>, mark: Mark) {
    forall path :: path in paths ==> Has(path, mark)
  }

  /**
   The ways a predicate can come true, each a conjunction of comparisons and negations: its disjunctive
   normal form. Nothing is known of an empty disjunction, which never does.
   */
  ghost function Paths(condition: Predicate): set<seq<Predicate>>
    decreases condition, 1
  {
    match condition
    case Atomic(_, _, _) => {[condition]}
    case And(all) => PathsOfAll(all)
    case Or(any) => if any == [] then {[]} else PathsOfEach(any)
    case Not(_) => {[condition]}
  }

  ghost function PathsOfAll(conditions: seq<Predicate>): set<seq<Predicate>>
    decreases conditions, 0
  {
    if conditions == [] then {[]}
    else
      var first, rest := Paths(conditions[0]), PathsOfAll(conditions[1..]);
      set left, right | left in first && right in rest :: left + right
  }

  ghost function PathsOfEach(conditions: seq<Predicate>): set<seq<Predicate>>
    decreases conditions, 0
  {
    if conditions == [] then {} else Paths(conditions[0]) + PathsOfEach(conditions[1..])
  }

  predicate Listed(bindings: seq<Binding>, filters: seq<Filter>, mark: Mark) {
    match mark
    case Bound(binding) => binding in bindings
    case Fixed(filter) => filter in filters
  }

  lemma HasConcat(left: seq<Predicate>, right: seq<Predicate>, mark: Mark)
    ensures Has(left + right, mark) <==> Has(left, mark) || Has(right, mark)
  {
    if Has(left, mark) {
      var k :| 0 <= k < |left| && States(left[k], mark);
      assert (left + right)[k] == left[k];
    }
    if Has(right, mark) {
      var k :| 0 <= k < |right| && States(right[k], mark);
      assert (left + right)[|left| + k] == right[k];
    }
  }

  lemma OnEveryProduct(first: set<seq<Predicate>>, rest: set<seq<Predicate>>, mark: Mark)
    ensures OnEvery(set left, right | left in first && right in rest :: left + right, mark)
      <==> OnEvery(first, mark) || OnEvery(rest, mark)
  {
    var product := set left, right | left in first && right in rest :: left + right;
    forall left, right ensures Has(left + right, mark) <==> Has(left, mark) || Has(right, mark) {
      HasConcat(left, right, mark);
    }
    if !OnEvery(first, mark) && !OnEvery(rest, mark) {
      var left :| left in first && !Has(left, mark);
      var right :| right in rest && !Has(right, mark);
      assert left + right in product;
    }
  }

  /**
   The compiler keeps exactly the equalities that stand on every way the predicate can come true: none
   is invented, and none that a conjunction or all branches of a disjunction state is missed.
   */
  lemma {:induction false} GuaranteedExactly(condition: Predicate, mark: Mark)
    ensures Listed(GuaranteedBindings(condition), GuaranteedFilters(condition), mark) <==> OnEvery(Paths(condition), mark)
    decreases condition, 1
  {
    match condition
    case Atomic(_, _, _) => SinglePath(condition, mark);
    case And(all) => GuaranteedOnAll(all, mark);
    case Or(any) =>
      if any == [] {
        assert [] in Paths(condition) && !Has([], mark);
      } else {
        GuaranteedOnEach(any, mark);
      }
    case Not(_) => SinglePath(condition, mark);
  }

  lemma SinglePath(literal: Predicate, mark: Mark)
    ensures OnEvery({[literal]}, mark) <==> States(literal, mark)
  {
    assert [literal] in {[literal]};
    assert Has([literal], mark) <==> States([literal][0], mark);
  }

  lemma {:induction false} GuaranteedOnAll(conditions: seq<Predicate>, mark: Mark)
    ensures Listed(BindingsOfAll(conditions), FiltersOfAll(conditions), mark) <==> OnEvery(PathsOfAll(conditions), mark)
    decreases conditions, 0
  {
    if conditions == [] {
      assert [] in PathsOfAll(conditions) && !Has([], mark);
    } else {
      GuaranteedExactly(conditions[0], mark);
      GuaranteedOnAll(conditions[1..], mark);
      OnEveryProduct(Paths(conditions[0]), PathsOfAll(conditions[1..]), mark);
    }
  }

  lemma {:induction false} GuaranteedOnEach(conditions: seq<Predicate>, mark: Mark)
    requires conditions != []
    ensures Listed(BindingsOfEach(conditions), FiltersOfEach(conditions), mark) <==> OnEvery(PathsOfEach(conditions), mark)
    decreases conditions, 0
  {
    GuaranteedExactly(conditions[0], mark);
    var first, rest := Paths(conditions[0]), PathsOfEach(conditions[1..]);
    assert OnEvery(first + rest, mark) <==> OnEvery(first, mark) && OnEvery(rest, mark);
    if |conditions| > 1 {
      GuaranteedOnEach(conditions[1..], mark);
    } else {
      assert PathsOfEach(conditions[1..]) == {};
    }
  }

  // ------------------------------------------------------------- congruence

  ghost predicate SameOn(columns: seq<string>, left: Row, right: Row) {
    forall column :: column in columns ==> Col(left, column) == Col(right, column)
  }

  lemma {:induction false} EvalSame(db: Database, condition: Predicate, input: Input, left: Row, right: Row)
    requires SameOn(Atoms(condition), left, right)
    ensures Eval(db, condition, input, left) == Eval(db, condition, input, right)
    decreases condition, 1
  {
    match condition
    case Atomic(field, _, _) => assert field in Atoms(condition);
    case And(all) => EvalAllSame(db, all, input, left, right);
    case Or(any) => EvalAllSame(db, any, input, left, right);
    case Not(negated) => EvalSame(db, negated, input, left, right);
  }

  lemma {:induction false} EvalAllSame(db: Database, conditions: seq<Predicate>, input: Input, left: Row, right: Row)
    requires SameOn(AllAtoms(conditions), left, right)
    ensures EvalAll(db, conditions, input, left) == EvalAll(db, conditions, input, right)
    ensures EvalAny(db, conditions, input, left) == EvalAny(db, conditions, input, right)
    decreases conditions, 0
  {
    if conditions != [] {
      assert SameOn(Atoms(conditions[0]), left, right);
      assert SameOn(AllAtoms(conditions[1..]), left, right);
      EvalSame(db, conditions[0], input, left, right);
      EvalAllSame(db, conditions[1..], input, left, right);
    }
  }

  // --------------------------------------------------------- one table's read

  /** What the inherited bindings promise about the parent's side of the join. */
  ghost predicate Supplied(db: Database, inherited: seq<Binding>, link: Option<Link>, input: Input) {
    forall b :: b in inherited ==>
      && link.Some? && b.column == link.value.foreign
      && b.input in input && input[b.input].Single?
      && SqlEqual(db, link.value.value, input[b.input].scalar)
  }

  function ForeignOf(link: Option<Link>): Option<string> {
    if link.Some? then Some(link.value.foreign) else None
  }

  /** Any row the table accepts reaches the table's own read, with all bindings and any kept filters. */
  lemma AcceptedReaches(
      env: Env, resource: string, options: SelectOptions, inherited: seq<Binding>, link: Option<Link>, row: Row)
    requires Lawful(env.db) && resource in env.resources
    requires Supplied(env.db, inherited, link, env.input)
    requires Accepts(env, resource, options, link, row)
    ensures AllHold(env.db, OwnRead(resource, options, inherited, ForeignOf(link)).bindings, env.input, row)
    ensures Reaches(
      env.db, env.resources[resource], OwnRead(resource, options, inherited, ForeignOf(link)), env.input, env.scope, Some(row))
  {
    GuaranteedOfAll(env.db, options.where, env.input, row);
    forall b | b in inherited ensures BindingHolds(env.db, b, env.input, row) {
      assert env.db.equal(Col(row, b.column), link.value.value);
      assert env.db.equal(link.value.value, env.input[b.input].scalar);
    }
    var own := OwnRead(resource, options, inherited, ForeignOf(link));
    assert forall i :: 0 <= i < |own.bindings| ==> own.bindings[i] in own.bindings;
    assert forall i :: 0 <= i < |own.filters| ==> own.filters[i] in own.filters;
  }

  lemma {:induction false} LocalsHas(joins: seq<Join>, i: nat)
    requires i < |joins|
    ensures joins[i].local in Locals(joins)
  {
    if i > 0 {
      LocalsHas(joins[1..], i - 1);
    }
  }

  /** Everything a table's part of the result depends on is among the columns of its read. */
  lemma UnchangedMeansSame(
      env: Env, resource: string, options: SelectOptions, inherited: seq<Binding>, link: Option<Link>, w: RowWrite)
    requires resource in env.resources && w.before.Some? && w.after.Some?
    requires !ReadChanged(env.resources[resource], OwnRead(resource, options, inherited, ForeignOf(link)), w)
    ensures Accepts(env, resource, options, link, w.before.value) <==> Accepts(env, resource, options, link, w.after.value)
    ensures Shown(env.resources, resource, options, w.before.value) == Shown(env.resources, resource, options, w.after.value)
    ensures SameOn(Locals(options.joins), w.before.value, w.after.value)
  {
    var own := OwnRead(resource, options, inherited, ForeignOf(link));
    var left, right := w.before.value, w.after.value;
    forall column | Sensitive(env.resources[resource], own, column) ensures Col(left, column) == Col(right, column) {
      assert !Differs(left, right, column);
    }
    assert SameOn(AllAtoms(options.where), left, right);
    EvalAllSame(env.db, options.where, env.input, left, right);
    if link.Some? {
      assert Sensitive(env.resources[resource], own, link.value.foreign);
    }
    if env.resources[resource].scopeColumn.Some? {
      assert Sensitive(env.resources[resource], own, env.resources[resource].scopeColumn.value);
    }
  }

  // -------------------------------------------------------------- whole trees

  function Update(table: map<int, Row>, id: int, row: Option<Row>): map<int, Row> {
    if row.Some? then table[id := row.value] else table - {id}
  }

  function Apply(tables: Tables, w: RowWrite): Tables {
    tables[w.resource := Update(Table(tables, w.resource), w.id, w.after)]
  }

  /** The write is about the row as it stands. */
  predicate Current(tables: Tables, w: RowWrite) {
    w.before == if w.id in Table(tables, w.resource) then Some(Table(tables, w.resource)[w.id]) else None
  }

  function ApplyAll(tables: Tables, writes: seq<RowWrite>): Tables
    decreases writes
  {
    if writes == [] then tables else ApplyAll(Apply(tables, writes[0]), writes[1..])
  }

  /** Writes in order, each replacing the row as the previous ones left it. */
  ghost predicate Sequential(tables: Tables, writes: seq<RowWrite>)
    decreases writes
  {
    writes == [] || (Current(tables, writes[0]) && Sequential(Apply(tables, writes[0]), writes[1..]))
  }

  lemma {:induction false} SequentialConcat(tables: Tables, left: seq<RowWrite>, right: seq<RowWrite>)
    ensures ApplyAll(tables, left + right) == ApplyAll(ApplyAll(tables, left), right)
    ensures Sequential(tables, left + right) <==> Sequential(tables, left) && Sequential(ApplyAll(tables, left), right)
    decreases left
  {
    if left == [] {
      assert left + right == right;
    } else {
      assert (left + right)[1..] == left[1..] + right;
      SequentialConcat(Apply(tables, left[0]), left[1..], right);
    }
  }

  ghost predicate NoneAffected(env: Env, list: seq<Read>, w: RowWrite) {
    forall read :: read in list ==> !Affects(env.db, env.resources, read, env.input, env.scope, w)
  }

  ghost predicate AllRegistered(env: Env, list: seq<Read>) {
    forall read :: read in list ==> read.resource in env.resources
  }

  lemma {:induction false} JoinReadsIncluded(joins: seq<Join>, bindings: seq<Binding>, i: nat)
    requires i < |joins|
    ensures forall read ::
      read in ReadSelect(joins[i].resource, joins[i].options, Propagated(bindings, joins[i]), Some(joins[i].foreign)) ==>
      read in ReadJoins(joins, bindings)
  {
    if i > 0 {
      JoinReadsIncluded(joins[1..], bindings, i - 1);
      assert joins[1..][i - 1] == joins[i];
    }
  }

  /** Parent bindings that hold of a parent row supply the child's inherited bindings. */
  lemma PropagatedSupplied(db: Database, bindings: seq<Binding>, join: Join, input: Input, row: Row)
    requires AllHold(db, bindings, input, row)
    ensures Supplied(db, Propagated(bindings, join), Some(Link(join.foreign, Col(row, join.local))), input)
  {
    forall b | b in Propagated(bindings, join)
      ensures b.input in input && input[b.input].Single?
      ensures SqlEqual(db, Col(row, join.local), input[b.input].scalar)
    {
      assert BindingHolds(db, Binding(join.local, b.input), input, row);
    }
  }

  function After(env: Env, w: RowWrite): Env {
    env.(tables := Apply(env.tables, w))
  }

  ghost predicate Stable(env: Env, w: RowWrite, resource: string, options: SelectOptions, link: Option<Link>) {
    Selected(env, resource, options, link) == Selected(After(env, w), resource, options, link)
  }

  ghost predicate Undisturbed(
    env: Env, w: RowWrite, resource: string, options: SelectOptions, inherited: seq<Binding>, link: Option<Link>)
  {
    && Lawful(env.db) && Current(env.tables, w)
    && Supplied(env.db, inherited, link, env.input)
    && AllRegistered(env, ReadSelect(resource, options, inherited, ForeignOf(link)))
    && NoneAffected(env, ReadSelect(resource, options, inherited, ForeignOf(link)), w)
  }

  /** The children of an accepted row are what they were. */
  lemma {:induction false} ChildrenStable(
      env: Env, w: RowWrite, resource: string, options: SelectOptions, inherited: seq<Binding>, link: Option<Link>,
      row: Row, i: nat)
    requires Undisturbed(env, w, resource, options, inherited, link)
    requires Accepts(env, resource, options, link, row) && i < |options.joins|
    ensures Children(env, options.joins[i], row) == Children(After(env, w), options.joins[i], row)
    decreases options, 0
  {
    var join := options.joins[i];
    var own := OwnRead(resource, options, inherited, ForeignOf(link));
    assert own in ReadSelect(resource, options, inherited, ForeignOf(link));
    AcceptedReaches(env, resource, options, inherited, link, row);
    PropagatedSupplied(env.db, own.bindings, join, env.input, row);
    JoinReadsIncluded(options.joins, own.bindings, i);
    SelectStable(
      env, w, join.resource, join.options, Propagated(own.bindings, join),
      Some(Link(join.foreign, Col(row, join.local))));
  }

  lemma {:induction false} RowStable(
      env: Env, w: RowWrite, resource: string, options: SelectOptions, inherited: seq<Binding>, link: Option<Link>, row: Row)
    requires Undisturbed(env, w, resource, options, inherited, link)
    ensures Matches(env, resource, options, link, row) <==> Matches(After(env, w), resource, options, link, row)
    ensures Matches(env, resource, options, link, row) ==>
      TreeOf(env, resource, options, row) == TreeOf(After(env, w), resource, options, row)
    decreases options, 1
  {
    hide Undisturbed, Children, Accepts, Matches, TreeOf;
    if Accepts(env, resource, options, link, row) {
      forall i | 0 <= i < |options.joins|
        ensures Children(env, options.joins[i], row) == Children(After(env, w), options.joins[i], row)
      {
        ChildrenStable(env, w, resource, options, inherited, link, row, i);
      }
    }
    SameChildrenSameTree(env, w, resource, options, link, row);
  }

  lemma SameChildrenSameTree(env: Env, w: RowWrite, resource: string, options: SelectOptions, link: Option<Link>, row: Row)
    requires Accepts(env, resource, options, link, row) ==>
      forall i :: 0 <= i < |options.joins| ==> Children(env, options.joins[i], row) == Children(After(env, w), options.joins[i], row)
    ensures Matches(env, resource, options, link, row) <==> Matches(After(env, w), resource, options, link, row)
    ensures Matches(env, resource, options, link, row) ==>
      TreeOf(env, resource, options, row) == TreeOf(After(env, w), resource, options, row)
  {
    hide Children, EvalAll, Visible, SqlEqual, PageNumber, Shown;
  }

  /** Two versions of a row that agree on the read's columns match alike and show alike. */
  lemma VersionsAgree(
      env: Env, resource: string, options: SelectOptions, inherited: seq<Binding>, link: Option<Link>, w: RowWrite)
    requires resource in env.resources && w.before.Some? && w.after.Some?
    requires !ReadChanged(env.resources[resource], OwnRead(resource, options, inherited, ForeignOf(link)), w)
    ensures Matches(env, resource, options, link, w.before.value) <==> Matches(env, resource, options, link, w.after.value)
    ensures TreeOf(env, resource, options, w.before.value) == TreeOf(env, resource, options, w.after.value)
  {
    UnchangedMeansSame(env, resource, options, inherited, link, w);
    forall i | 0 <= i < |options.joins|
      ensures Children(env, options.joins[i], w.before.value) == Children(env, options.joins[i], w.after.value)
    {
      LocalsHas(options.joins, i);
      assert Col(w.before.value, options.joins[i].local) == Col(w.after.value, options.joins[i].local);
    }
  }

  /** The written row itself: no side of it is in the result, or both are and look the same. */
  lemma WrittenRow(
      env: Env, w: RowWrite, resource: string, options: SelectOptions, inherited: seq<Binding>, link: Option<Link>)
    requires Undisturbed(env, w, resource, options, inherited, link) && resource == w.resource
    ensures (w.before.Some? && Matches(env, resource, options, link, w.before.value))
      <==> (w.after.Some? && Matches(env, resource, options, link, w.after.value))
    ensures w.before.Some? && w.after.Some? && Matches(env, resource, options, link, w.before.value) ==>
      TreeOf(env, resource, options, w.before.value) == TreeOf(env, resource, options, w.after.value)
  {
    var own := OwnRead(resource, options, inherited, ForeignOf(link));
    assert own in ReadSelect(resource, options, inherited, ForeignOf(link));
    assert !Affects(env.db, env.resources, own, env.input, env.scope, w);
    if w.before.Some? && Accepts(env, resource, options, link, w.before.value) {
      AcceptedReaches(env, resource, options, inherited, link, w.before.value);
      VersionsAgree(env, resource, options, inherited, link, w);
    } else if w.after.Some? && Accepts(env, resource, options, link, w.after.value) {
      AcceptedReaches(env, resource, options, inherited, link, w.after.value);
      VersionsAgree(env, resource, options, inherited, link, w);
    }
  }

  /** A write that affects none of the derived reads leaves the selected rows as they were. */
  lemma {:induction false} SelectStable(
      env: Env, w: RowWrite, resource: string, options: SelectOptions, inherited: seq<Binding>, link: Option<Link>)
    requires Undisturbed(env, w, resource, options, inherited, link)
    ensures Stable(env, w, resource, options, link)
    decreases options, 2
  {
    var left := Selected(env, resource, options, link);
    var right := Selected(After(env, w), resource, options, link);
    var table := Table(env.tables, resource);
    var updated := Table(After(env, w).tables, resource);
    forall id ensures id in left <==> id in right
      ensures id in left ==> left[id] == right[id]
    {
      if resource == w.resource && id == w.id {
        WrittenRow(env, w, resource, options, inherited, link);
        if w.after.Some? {
          RowStable(env, w, resource, options, inherited, link, w.after.value);
        }
      } else if id in table {
        assert id in updated && updated[id] == table[id];
        RowStable(env, w, resource, options, inherited, link, table[id]);
      } else {
        assert id !in updated;
      }
    }
    assert left.Keys == right.Keys;
  }
}
