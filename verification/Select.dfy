/**
 The structured select: its SQL meaning (three-valued predicates, nested joins) and the read
 dependencies `readSelect` derives from it without looking at any data.
 */
module SelectTrees {
  import opened Contracts
  import opened Facts
  import opened Reads

  // ------------------------------------------------------------------ syntax

  datatype Operand = InputField(field: string) | Literal(value: Value)

  datatype Comparison = Eq | Ne | Lt | Le | Gt | Ge | In | IsNull | NotNull

  datatype Predicate =
    | Atomic(field: string, op: Comparison, value: Option<Operand>)
    | And(all: seq<Predicate>)
    | Or(any: seq<Predicate>)
    | Not(negated: Predicate)

  datatype Order = Order(field: string, ascending: bool, nullsFirst: bool)

  datatype SelectOptions = SelectOptions(
    columns: Option<seq<string>>, joins: seq<Join>, where: seq<Predicate>, order: seq<Order>,
    limit: Option<Operand>, offset: Option<Operand>)

  datatype Join = Join(
    alias: string, resource: string, local: string, foreign: string, many: bool, required: bool,
    options: SelectOptions)

  // ---------------------------------------------------- three-valued meaning

  datatype Truth = Holds | Fails | Undetermined

  function Negate(truth: Truth): Truth {
    match truth
    case Holds => Fails
    case Fails => Holds
    case Undetermined => Undetermined
  }

  function Both(left: Truth, right: Truth): Truth {
    if left.Fails? || right.Fails? then Fails else if left.Holds? && right.Holds? then Holds else Undetermined
  }

  function Either(left: Truth, right: Truth): Truth {
    if left.Holds? || right.Holds? then Holds else if left.Fails? && right.Fails? then Fails else Undetermined
  }

  function Resolve(operand: Operand, input: Input): Option<Value> {
    match operand
    case InputField(field) => if field in input then Some(input[field]) else None
    case Literal(value) => Some(value)
  }

  function Compare(db: Database, op: Comparison, left: Scalar, right: Scalar): Truth {
    if left.Null? || right.Null? then Undetermined
    else
      var truth :=
        match op
        case Eq => db.equal(left, right)
        case Ne => !db.equal(left, right)
        case Lt => db.less(left, right)
        case Le => db.less(left, right) || db.equal(left, right)
        case Gt => db.less(right, left)
        case Ge => db.less(right, left) || db.equal(left, right)
        case _ => false;
      if truth then Holds else Fails
  }

  function AnyEqual(db: Database, left: Scalar, items: seq<Scalar>): Truth {
    if items == [] then Fails else Either(Compare(db, Eq, left, items[0]), AnyEqual(db, left, items[1..]))
  }

  function EvalAtomic(db: Database, op: Comparison, column: Scalar, value: Option<Value>): Truth {
    match op
    case IsNull => if column.Null? then Holds else Fails
    case NotNull => if column.Null? then Fails else Holds
    case In => if value.Some? && value.value.Many? then AnyEqual(db, column, value.value.items) else Undetermined
    case _ => if value.Some? && value.value.Single? then Compare(db, op, column, value.value.scalar) else Undetermined
  }

  function Eval(db: Database, condition: Predicate, input: Input, row: Row): Truth
    decreases condition, 1
  {
    match condition
    case Atomic(field, op, value) =>
      EvalAtomic(db, op, Col(row, field), if value.Some? then Resolve(value.value, input) else None)
    case And(all) => EvalAll(db, all, input, row)
    case Or(any) => EvalAny(db, any, input, row)
    case Not(negated) => Negate(Eval(db, negated, input, row))
  }

  function EvalAll(db: Database, predicates: seq<Predicate>, input: Input, row: Row): Truth
    decreases predicates, 0
  {
    if predicates == [] then Holds
    else Both(Eval(db, predicates[0], input, row), EvalAll(db, predicates[1..], input, row))
  }

  function EvalAny(db: Database, predicates: seq<Predicate>, input: Input, row: Row): Truth
    decreases predicates, 0
  {
    if predicates == [] then Fails
    else Either(Eval(db, predicates[0], input, row), EvalAny(db, predicates[1..], input, row))
  }

  // ------------------------------------------------------ static dependencies

  /** Every column a predicate mentions, negated or not. */
  function Atoms(condition: Predicate): seq<string>
    decreases condition, 1
  {
    match condition
    case Atomic(field, _, _) => [field]
    case And(all) => AllAtoms(all)
    case Or(any) => AllAtoms(any)
    case Not(negated) => Atoms(negated)
  }

  function AllAtoms(predicates: seq<Predicate>): seq<string>
    decreases predicates, 0
  {
    if predicates == [] then [] else Atoms(predicates[0]) + AllAtoms(predicates[1..])
  }

  function Common<T(==,!new)>(list: seq<T>, other: seq<T>): (kept: seq<T>)
    ensures forall x :: x in kept <==> x in list && x in other
  {
    if list == [] then []
    else
      var rest := Common(list[1..], other);
      if list[0] in other then [list[0]] + rest else rest
  }

  /** Input equalities that hold of every row a predicate accepts. */
  function GuaranteedBindings(condition: Predicate): seq<Binding>
    decreases condition, 1
  {
    match condition
    case Atomic(field, op, value) =>
      if op.Eq? && value.Some? && value.value.InputField? then [Binding(field, value.value.field)] else []
    case And(all) => BindingsOfAll(all)
    case Or(any) => if any == [] then [] else BindingsOfEach(any)
    case Not(_) => []
  }

  function BindingsOfAll(predicates: seq<Predicate>): seq<Binding>
    decreases predicates, 0
  {
    if predicates == [] then [] else GuaranteedBindings(predicates[0]) + BindingsOfAll(predicates[1..])
  }

  function BindingsOfEach(predicates: seq<Predicate>): seq<Binding>
    requires predicates != []
    decreases predicates, 0
  {
    if |predicates| == 1 then GuaranteedBindings(predicates[0])
    else Common(GuaranteedBindings(predicates[0]), BindingsOfEach(predicates[1..]))
  }

  /** Literal equalities that hold of every row a predicate accepts. */
  function GuaranteedFilters(condition: Predicate): seq<Filter>
    decreases condition, 1
  {
    match condition
    case Atomic(field, op, value) =>
      if op.Eq? && value.Some? && value.value.Literal? && value.value.value.Single?
      then [Filter(field, value.value.value.scalar)] else []
    case And(all) => FiltersOfAll(all)
    case Or(any) => if any == [] then [] else FiltersOfEach(any)
    case Not(_) => []
  }

  function FiltersOfAll(predicates: seq<Predicate>): seq<Filter>
    decreases predicates, 0
  {
    if predicates == [] then [] else GuaranteedFilters(predicates[0]) + FiltersOfAll(predicates[1..])
  }

  function FiltersOfEach(predicates: seq<Predicate>): seq<Filter>
    requires predicates != []
    decreases predicates, 0
  {
    if |predicates| == 1 then GuaranteedFilters(predicates[0])
    else Common(GuaranteedFilters(predicates[0]), FiltersOfEach(predicates[1..]))
  }

  function DistinctFilters(filters: seq<Filter>): (distinct: seq<Filter>)
    ensures forall filter :: filter in distinct <==> filter in filters
  {
    if filters == [] then []
    else
      var shorter := DistinctFilters(filters[..|filters| - 1]);
      var last := filters[|filters| - 1];
      assert filters == filters[..|filters| - 1] + [last];
      if last in shorter then shorter else shorter + [last]
  }

  /** At most 100 filters are kept; each is necessary on its own, so dropping the rest only widens. */
  function Truncated(filters: seq<Filter>): (kept: seq<Filter>)
    ensures forall filter :: filter in kept ==> filter in filters
    ensures |kept| < READ_FILTER_LIMIT ==> forall filter :: filter in filters ==> filter in kept
    ensures |kept| <= READ_FILTER_LIMIT
  {
    var distinct := DistinctFilters(filters);
    if |distinct| <= READ_FILTER_LIMIT then distinct else distinct[..READ_FILTER_LIMIT]
  }

  function OrderFields(order: seq<Order>): seq<string> {
    if order == [] then [] else [order[0].field] + OrderFields(order[1..])
  }

  function Locals(joins: seq<Join>): seq<string> {
    if joins == [] then [] else [joins[0].local] + Locals(joins[1..])
  }

  function ReadColumns(options: SelectOptions, foreign: Option<string>): Columns {
    if options.columns.None? then Every
    else Columns.Only(
      options.columns.value + AllAtoms(options.where) + OrderFields(options.order) + Locals(options.joins)
      + (if foreign.Some? then [foreign.value] else []))
  }

  /** Bindings on a join's local column also bind its foreign column. */
  function Propagated(bindings: seq<Binding>, join: Join): (propagated: seq<Binding>)
    ensures forall b :: b in propagated <==> b.column == join.foreign && Binding(join.local, b.input) in bindings
  {
    if bindings == [] then []
    else
      var rest := Propagated(bindings[1..], join);
      if bindings[0].column == join.local then [Binding(join.foreign, bindings[0].input)] + rest else rest
  }

  function OwnRead(resource: string, options: SelectOptions, inherited: seq<Binding>, foreign: Option<string>): Read {
    Read(
      resource, ReadColumns(options, foreign), inherited + BindingsOfAll(options.where),
      Truncated(FiltersOfAll(options.where)))
  }

  /** `readSelect`: the read of the table itself, then those of its joins. */
  function ReadSelect(resource: string, options: SelectOptions, inherited: seq<Binding>, foreign: Option<string>): seq<Read>
    decreases options, 1
  {
    var own := OwnRead(resource, options, inherited, foreign);
    [own] + ReadJoins(options.joins, own.bindings)
  }

  function ReadJoins(joins: seq<Join>, bindings: seq<Binding>): seq<Read>
    decreases joins, 0
  {
    if joins == [] then []
    else
      var join := joins[0];
      ReadSelect(join.resource, join.options, Propagated(bindings, join), Some(join.foreign))
      + ReadJoins(joins[1..], bindings)
  }

  // -------------------------------------------------------------- row results

  /** `rows[resource][id]` is the physical row `id`. */
  type Tables = map<string, map<int, Row>>

  datatype Env = Env(db: Database, resources: Resources, tables: Tables, scope: Scalar, input: Input)

  datatype Link = Link(foreign: string, value: Scalar)

  /** One selected row: its shown columns and, per join, the selected rows of the child. */
  datatype Tree = Tree(shown: Record, children: seq<map<int, Tree>>)

  function Table(tables: Tables, resource: string): map<int, Row> {
    if resource in tables then tables[resource] else map[]
  }

  function RegisteredColumns(resources: Resources, resource: string): seq<string> {
    if resource in resources then resources[resource].columns else []
  }

  /** The columns a result is made from: the projection and the sort keys. */
  function Shown(resources: Resources, resource: string, options: SelectOptions, row: Row): Record {
    var columns := if options.columns.Some? then options.columns.value else RegisteredColumns(resources, resource);
    map column | column in columns + OrderFields(options.order) :: Col(row, column)
  }

  /** An integer page value within bounds; anything else is a compile error and never gets here. */
  function PageNumber(page: Option<Operand>, input: Input): nat {
    if page.None? then 0
    else
      match Resolve(page.value, input)
      case Some(Single(Num(number))) => if number.Floor >= 0 then number.Floor else 0
      case _ => 0
  }

  /** The table's own conditions: scope, the join to the parent, and every `where` entry true. */
  predicate Accepts(env: Env, resource: string, options: SelectOptions, link: Option<Link>, row: Row) {
    && (resource in env.resources ==> Visible(env.resources[resource], env.scope, row))
    && (link.Some? ==> SqlEqual(env.db, Col(row, link.value.foreign), link.value.value))
    && EvalAll(env.db, options.where, env.input, row).Holds?
  }

  function Selected(env: Env, resource: string, options: SelectOptions, link: Option<Link>): map<int, Tree>
    decreases options, 3
  {
    var table := Table(env.tables, resource);
    map id | id in table && Matches(env, resource, options, link, table[id]) :: TreeOf(env, resource, options, table[id])
  }

  /** Accepted, and every required join has a child left after its offset. */
  predicate Matches(env: Env, resource: string, options: SelectOptions, link: Option<Link>, row: Row)
    decreases options, 2
  {
    Accepts(env, resource, options, link, row)
    && forall i :: 0 <= i < |options.joins| && options.joins[i].required ==>
         |Children(env, options.joins[i], row)| > PageNumber(options.joins[i].options.offset, env.input)
  }

  function TreeOf(env: Env, resource: string, options: SelectOptions, row: Row): Tree
    decreases options, 2
  {
    Tree(
      Shown(env.resources, resource, options, row),
      seq(|options.joins|, i requires 0 <= i < |options.joins| => Children(env, options.joins[i], row)))
  }

  function Children(env: Env, join: Join, row: Row): map<int, Tree>
    decreases join, 1
  {
    Selected(env, join.resource, join.options, Some(Link(join.foreign, Col(row, join.local))))
  }
}
