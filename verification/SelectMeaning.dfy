/**
 What a select means, without its evaluation order: three-valued logic as two dual kinds of proof, and a row is
 selected exactly if there are rows in the required joins to show for it.
 */
module SelectMeaning {
  import opened Contracts
  import opened Facts
  import opened Reads
  import opened SelectTrees
  import opened Plans

  // ------------------------------------------------------- three-valued logic

  predicate Relates(db: Database, op: Comparison, left: Scalar, right: Scalar) {
    match op
    case Eq => db.equal(left, right)
    case Ne => !db.equal(left, right)
    case Lt => db.less(left, right)
    case Le => db.less(left, right) || db.equal(left, right)
    case Gt => db.less(right, left)
    case Ge => db.less(right, left) || db.equal(left, right)
    case _ => false
  }

  /** A comparison with a missing value, or of a missing value, says nothing; only a null test looks at it. */
  ghost predicate AtomSays(db: Database, op: Comparison, column: Scalar, value: Option<Value>, truth: bool) {
    match op
    case IsNull => truth == column.Null?
    case NotNull => truth == !column.Null?
    case In =>
      && value.Some? && value.value.Many?
      && if truth then exists item :: item in value.value.items && Known(column, item) && db.equal(column, item)
         else forall item :: item in value.value.items ==> Known(column, item) && !db.equal(column, item)
    case _ =>
      && value.Some? && value.value.Single? && Known(column, value.value.scalar)
      && truth == Relates(db, op, column, value.value.scalar)
  }

  predicate Known(left: Scalar, right: Scalar) {
    !left.Null? && !right.Null?
  }

  /** True if all of a conjunction, one of a disjunction, or the negated is false; false dually. */
  ghost predicate Says(db: Database, condition: Predicate, input: Input, row: Row, truth: bool)
    decreases condition
  {
    match condition
    case Atomic(field, op, value) =>
      AtomSays(db, op, Col(row, field), if value.Some? then Resolve(value.value, input) else None, truth)
    case And(all) =>
      if truth then forall i :: 0 <= i < |all| ==> Says(db, all[i], input, row, true)
      else exists i :: 0 <= i < |all| && Says(db, all[i], input, row, false)
    case Or(any) =>
      if truth then exists i :: 0 <= i < |any| && Says(db, any[i], input, row, true)
      else forall i :: 0 <= i < |any| ==> Says(db, any[i], input, row, false)
    case Not(negated) => Says(db, negated, input, row, !truth)
  }

  lemma {:induction false} AnyEqualSays(db: Database, column: Scalar, items: seq<Scalar>)
    ensures AnyEqual(db, column, items).Holds? <==> exists item :: item in items && Known(column, item) && db.equal(column, item)
    ensures AnyEqual(db, column, items).Fails? <==> forall item :: item in items ==> Known(column, item) && !db.equal(column, item)
  {
    if items != [] {
      AnyEqualSays(db, column, items[1..]);
      assert forall item :: item in items <==> item == items[0] || item in items[1..];
      var first := Compare(db, Eq, column, items[0]);
      assert first.Fails? <==> Known(column, items[0]) && !db.equal(column, items[0]);
      assert first.Holds? <==> Known(column, items[0]) && db.equal(column, items[0]);
      hide Known, Compare;
      if AnyEqual(db, column, items).Fails? {
        assert first.Fails? && AnyEqual(db, column, items[1..]).Fails?;
      }
      if forall item :: item in items ==> Known(column, item) && !db.equal(column, item) {
        assert items[0] in items;
        assert forall item :: item in items[1..] ==> Known(column, item) && !db.equal(column, item);
      }
    }
  }

  lemma AtomExactly(db: Database, op: Comparison, column: Scalar, value: Option<Value>)
    ensures EvalAtomic(db, op, column, value).Holds? <==> AtomSays(db, op, column, value, true)
    ensures EvalAtomic(db, op, column, value).Fails? <==> AtomSays(db, op, column, value, false)
  {
    if op.In? && value.Some? && value.value.Many? {
      AnyEqualSays(db, column, value.value.items);
    }
  }

  /** Evaluation says true or false exactly where the two kinds of proof do, and is undetermined elsewhere. */
  lemma {:induction false} EvalExactly(db: Database, condition: Predicate, input: Input, row: Row)
    ensures Eval(db, condition, input, row).Holds? <==> Says(db, condition, input, row, true)
    ensures Eval(db, condition, input, row).Fails? <==> Says(db, condition, input, row, false)
    decreases condition, 1
  {
    match condition
    case Atomic(field, op, value) =>
      AtomExactly(db, op, Col(row, field), if value.Some? then Resolve(value.value, input) else None);
    case And(all) => AllExactly(db, all, input, row);
    case Or(any) => AllExactly(db, any, input, row);
    case Not(negated) => EvalExactly(db, negated, input, row);
  }

  lemma {:induction false} AllExactly(db: Database, conditions: seq<Predicate>, input: Input, row: Row)
    ensures EvalAll(db, conditions, input, row).Holds? <==> forall i :: 0 <= i < |conditions| ==> Says(db, conditions[i], input, row, true)
    ensures EvalAll(db, conditions, input, row).Fails? <==> exists i :: 0 <= i < |conditions| && Says(db, conditions[i], input, row, false)
    ensures EvalAny(db, conditions, input, row).Holds? <==> exists i :: 0 <= i < |conditions| && Says(db, conditions[i], input, row, true)
    ensures EvalAny(db, conditions, input, row).Fails? <==> forall i :: 0 <= i < |conditions| ==> Says(db, conditions[i], input, row, false)
    decreases conditions, 0
  {
    hide Says, Eval;
    if conditions != [] {
      EvalExactly(db, conditions[0], input, row);
      AllExactly(db, conditions[1..], input, row);
      forall truth ensures FirstOrRest(db, conditions, input, row, truth) {
        SaysFirst(db, conditions, input, row, truth);
      }
      assert FirstOrRest(db, conditions, input, row, true) && FirstOrRest(db, conditions, input, row, false);
    }
  }

  ghost predicate FirstOrRest(db: Database, conditions: seq<Predicate>, input: Input, row: Row, truth: bool)
    requires conditions != []
  {
    var rest := conditions[1..];
    && ((exists i :: 0 <= i < |conditions| && Says(db, conditions[i], input, row, truth)) <==>
          Says(db, conditions[0], input, row, truth) || exists i :: 0 <= i < |rest| && Says(db, rest[i], input, row, truth))
    && ((forall i :: 0 <= i < |conditions| ==> Says(db, conditions[i], input, row, truth)) <==>
          Says(db, conditions[0], input, row, truth) && forall i :: 0 <= i < |rest| ==> Says(db, rest[i], input, row, truth))
  }

  lemma SaysFirst(db: Database, conditions: seq<Predicate>, input: Input, row: Row, truth: bool)
    requires conditions != []
    ensures FirstOrRest(db, conditions, input, row, truth)
  {
    hide Says;
    var rest := conditions[1..];
    assert forall i :: 0 <= i < |rest| ==> rest[i] == conditions[i + 1];
    if i :| 0 <= i < |conditions| && Says(db, conditions[i], input, row, truth) && i > 0 {
      assert Says(db, rest[i - 1], input, row, truth);
    }
    if forall i :: 0 <= i < |rest| ==> Says(db, rest[i], input, row, truth) {
      forall i | 0 < i < |conditions| ensures Says(db, conditions[i], input, row, truth) {
        assert conditions[i] == rest[i - 1];
      }
    }
  }

  // ------------------------------------------------------------ selected rows

  /** A row, and for each join the rows that show the join is not empty after its offset. */
  datatype Witness = Witness(id: int, kids: seq<Kids>)

  datatype Kids = Kids(rows: seq<Witness>)

  ghost predicate IsOffset(page: Option<Operand>, input: Input, offset: nat) {
    if page.None? then offset == 0 else Resolve(page.value, input) == Some(Single(Num(offset as real)))
  }

  /** Visible, joined to its parent, and every condition says true. */
  ghost predicate Passes(env: Env, resource: string, options: SelectOptions, link: Option<Link>, row: Row) {
    && (resource in env.resources ==> Visible(env.resources[resource], env.scope, row))
    && (link.Some? ==>
          Known(Col(row, link.value.foreign), link.value.value) && env.db.equal(Col(row, link.value.foreign), link.value.value))
    && forall i :: 0 <= i < |options.where| ==> Says(env.db, options.where[i], env.input, row, true)
  }

  ghost predicate Distinctly(witnesses: seq<Witness>) {
    forall i, j :: 0 <= i < j < |witnesses| ==> witnesses[i].id != witnesses[j].id
  }

  ghost predicate Shows(env: Env, resource: string, options: SelectOptions, link: Option<Link>, w: Witness)
    decreases w
  {
    var table := Table(env.tables, resource);
    && w.id in table && Passes(env, resource, options, link, table[w.id]) && |w.kids| == |options.joins|
    && forall i :: 0 <= i < |options.joins| && options.joins[i].required ==>
         var join, kids := options.joins[i], w.kids[i].rows;
         && (exists offset: nat :: IsOffset(join.options.offset, env.input, offset) && |kids| == offset + 1) && Distinctly(kids)
         && forall k :: 0 <= k < |kids| ==>
              Shows(env, join.resource, join.options, Some(Link(join.foreign, Col(table[w.id], join.local))), kids[k])
  }

  lemma PassesExactly(env: Env, resource: string, options: SelectOptions, link: Option<Link>, row: Row)
    ensures Accepts(env, resource, options, link, row) <==> Passes(env, resource, options, link, row)
  {
    AllExactly(env.db, options.where, env.input, row);
    hide Says, EvalAll;
  }

  lemma OffsetExactly(page: Option<Operand>, input: Input, offset: nat)
    requires ValidPage(page, input, 0)
    ensures IsOffset(page, input, offset) <==> offset == PageNumber(page, input)
  {
  }

  /** Below the tables of a statement that compiles, required joins have valid offsets. */
  lemma RequiredCompiles(
      db: Database, resources: Resources, input: Input, resource: string, options: SelectOptions, countRoot: bool, i: nat)
    requires Compiles(db, resources, input, resource, options, countRoot)
    requires i < |options.joins| && options.joins[i].required
    ensures Compiles(db, resources, input, options.joins[i].resource, options.joins[i].options, false)
    ensures ValidPage(options.joins[i].options.offset, input, 0)
  {
  }

  lemma HasMember(ids: set<int>)
    ensures ids != {} ==> exists id :: id in ids
  {
    if forall id :: id !in ids {
      assert ids == {};
    }
  }

  /** As many ids of a set as asked for, each once. */
  lemma {:induction false} Listing(ids: set<int>, count: nat) returns (list: seq<int>)
    requires count <= |ids|
    ensures |list| == count && (forall i :: 0 <= i < count ==> list[i] in ids)
    ensures forall i, j :: 0 <= i < j < count ==> list[i] != list[j]
  {
    if count == 0 {
      list := [];
    } else {
      HasMember(ids);
      var id :| id in ids;
      var rest := Listing(ids - {id}, count - 1);
      list := [id] + rest;
    }
  }

  lemma {:induction false} DistinctAreMany(witnesses: seq<Witness>, ids: set<int>)
    requires Distinctly(witnesses) && forall i :: 0 <= i < |witnesses| ==> witnesses[i].id in ids
    ensures |witnesses| <= |ids|
  {
    if witnesses != [] {
      var last := |witnesses| - 1;
      DistinctAreMany(witnesses[..last], ids - {witnesses[last].id});
    }
  }

  /** A matching row has a witness. */
  lemma {:induction false} MatchHasWitness(
      env: Env, resource: string, options: SelectOptions, link: Option<Link>, countRoot: bool, id: int) returns (w: Witness)
    requires Compiles(env.db, env.resources, env.input, resource, options, countRoot)
    requires id in Selected(env, resource, options, link)
    ensures w.id == id && Shows(env, resource, options, link, w)
    decreases options, 1
  {
    var row := Table(env.tables, resource)[id];
    PassesExactly(env, resource, options, link, row);
    hide Accepts, Passes, Compiles;
    var kids := JoinsHaveWitnesses(env, resource, options, link, countRoot, row, |options.joins|);
    w := Witness(id, kids);
  }

  lemma {:induction false} JoinsHaveWitnesses(
      env: Env, resource: string, options: SelectOptions, link: Option<Link>, countRoot: bool, row: Row, count: nat)
      returns (kids: seq<Kids>)
    requires Compiles(env.db, env.resources, env.input, resource, options, countRoot)
    requires Matches(env, resource, options, link, row) && count <= |options.joins|
    ensures |kids| == count
    ensures forall i :: 0 <= i < count && options.joins[i].required ==>
      var join := options.joins[i];
      && (exists offset: nat :: IsOffset(join.options.offset, env.input, offset) && |kids[i].rows| == offset + 1) && Distinctly(kids[i].rows)
      && forall k :: 0 <= k < |kids[i].rows| ==>
           Shows(env, join.resource, join.options, Some(Link(join.foreign, Col(row, join.local))), kids[i].rows[k])
    decreases options, 0, count
  {
    if count == 0 {
      kids := [];
    } else {
      var rest := JoinsHaveWitnesses(env, resource, options, link, countRoot, row, count - 1);
      var join := options.joins[count - 1];
      if join.required {
        RequiredCompiles(env.db, env.resources, env.input, resource, options, countRoot, count - 1);
        var offset := PageNumber(join.options.offset, env.input);
        OffsetExactly(join.options.offset, env.input, offset);
        var children := Children(env, join, row);
        assert |children.Keys| == |children|;
        var ids := Listing(children.Keys, offset + 1);
        var last := EachHasWitness(env, join, Some(Link(join.foreign, Col(row, join.local))), ids);
        kids := rest + [Kids(last)];
      } else {
        kids := rest + [Kids([])];
      }
    }
  }

  lemma {:induction false} EachHasWitness(env: Env, join: Join, link: Option<Link>, ids: seq<int>) returns (witnesses: seq<Witness>)
    requires Compiles(env.db, env.resources, env.input, join.resource, join.options, false)
    requires forall i :: 0 <= i < |ids| ==> ids[i] in Selected(env, join.resource, join.options, link)
    requires forall i, j :: 0 <= i < j < |ids| ==> ids[i] != ids[j]
    ensures |witnesses| == |ids| && Distinctly(witnesses)
    ensures forall i :: 0 <= i < |ids| ==> witnesses[i].id == ids[i] && Shows(env, join.resource, join.options, link, witnesses[i])
    decreases join, 0, |ids|
  {
    hide Shows, Selected, Compiles;
    if ids == [] {
      witnesses := [];
    } else {
      var last := |ids| - 1;
      var rest := EachHasWitness(env, join, link, ids[..last]);
      var w := MatchHasWitness(env, join.resource, join.options, link, false, ids[last]);
      witnesses := rest + [w];
    }
  }

  /** A witness is of a row that matches. */
  lemma {:induction false} WitnessMatches(
      env: Env, resource: string, options: SelectOptions, link: Option<Link>, countRoot: bool, w: Witness)
    requires Compiles(env.db, env.resources, env.input, resource, options, countRoot)
    requires Shows(env, resource, options, link, w)
    ensures w.id in Selected(env, resource, options, link)
    decreases w
  {
    var row := Table(env.tables, resource)[w.id];
    PassesExactly(env, resource, options, link, row);
    hide Accepts, Passes, Compiles;
    forall i | 0 <= i < |options.joins| && options.joins[i].required
      ensures |Children(env, options.joins[i], row)| > PageNumber(options.joins[i].options.offset, env.input)
    {
      var join, kids := options.joins[i], w.kids[i].rows;
      RequiredCompiles(env.db, env.resources, env.input, resource, options, countRoot, i);
      var offset: nat :| IsOffset(join.options.offset, env.input, offset) && |kids| == offset + 1;
      OffsetExactly(join.options.offset, env.input, offset);
      var children := Children(env, join, row);
      forall k | 0 <= k < |kids| ensures kids[k].id in children.Keys {
        WitnessMatches(env, join.resource, join.options, Some(Link(join.foreign, Col(row, join.local))), false, kids[k]);
      }
      DistinctAreMany(kids, children.Keys);
      assert |children.Keys| == |children|;
    }
  }

  /** The rows of a select that compiles are exactly those there is a witness for. */
  lemma SelectedExactly(env: Env, resource: string, options: SelectOptions, link: Option<Link>, countRoot: bool, id: int)
    requires Compiles(env.db, env.resources, env.input, resource, options, countRoot)
    ensures id in Selected(env, resource, options, link) <==> exists w: Witness :: w.id == id && Shows(env, resource, options, link, w)
  {
    hide Selected, Shows, Compiles;
    if id in Selected(env, resource, options, link) {
      var w := MatchHasWitness(env, resource, options, link, countRoot, id);
    }
    if w: Witness :| w.id == id && Shows(env, resource, options, link, w) {
      WitnessMatches(env, resource, options, link, countRoot, w);
    }
  }

  /** Each selected row has its projected and sorting columns and, per join, the selected rows of the child that join to it. */
  lemma TreeExactly(env: Env, resource: string, options: SelectOptions, link: Option<Link>, id: int)
    requires id in Selected(env, resource, options, link)
    ensures var row, tree := Table(env.tables, resource)[id], Selected(env, resource, options, link)[id];
      && (forall column :: column in tree.shown <==>
            || (if options.columns.Some? then column in options.columns.value
                else resource in env.resources && column in env.resources[resource].columns)
            || exists order :: order in options.order && order.field == column)
      && (forall column :: column in tree.shown ==> tree.shown[column] == Col(row, column))
      && |tree.children| == |options.joins|
      && forall i :: 0 <= i < |options.joins| ==>
           var join := options.joins[i];
           tree.children[i] == Selected(env, join.resource, join.options, Some(Link(join.foreign, Col(row, join.local))))
  {
    hide Matches;
    var row := Table(env.tables, resource)[id];
    var tree := TreeOf(env, resource, options, row);
    assert Selected(env, resource, options, link)[id] == tree;
    forall i | 0 <= i < |options.joins|
      ensures var join := options.joins[i];
        tree.children[i] == Selected(env, join.resource, join.options, Some(Link(join.foreign, Col(row, join.local))))
    {
      assert tree.children[i] == Children(env, options.joins[i], row);
    }
    hide Selected;
    forall column ensures column in OrderFields(options.order) <==> exists order :: order in options.order && order.field == column {
      OrderedBy(options.order, column);
    }
  }

  lemma {:induction false} OrderedBy(order: seq<Order>, column: string)
    ensures column in OrderFields(order) <==> exists o :: o in order && o.field == column
  {
    if order != [] {
      OrderedBy(order[1..], column);
      assert order == [order[0]] + order[1..];
    }
  }
}
