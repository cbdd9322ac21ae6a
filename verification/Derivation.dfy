/** Which reads a query depends on, told from its plan alone: the compiled reads are these, no more and no fewer. */
module Derivation {
  import opened Contracts
  import opened Facts
  import opened Reads
  import opened SelectTrees
  import opened SelectSound
  import opened Plans

  // ------------------------------------------------------ one select's tables

  /** The joins from the root of a select down to one of its tables. A count has only its required joins. */
  predicate IsPath(options: SelectOptions, count: bool, path: seq<Join>)
    decreases |path|
  {
    path == []
    || (path[0] in options.joins && (count ==> path[0].required) && IsPath(path[0].options, false, path[1..]))
  }

  function Last(path: seq<Join>): Join
    requires path != []
  {
    path[|path| - 1]
  }

  function OptionsAt(options: SelectOptions, path: seq<Join>): SelectOptions {
    if path == [] then options else Last(path).options
  }

  function ForeignAt(foreign: Option<string>, path: seq<Join>): Option<string> {
    if path == [] then foreign else Some(Last(path).foreign)
  }

  /**
   An input field that every selected row of the table equals in this column: the table's own conditions say so
   on every way they can come true, or the column joins on one of the parent that is so bound.
   */
  ghost predicate BoundAt(given: seq<Binding>, options: SelectOptions, path: seq<Join>, column: string, input: string)
    decreases |path|
  {
    || OnEvery(PathsOfAll(OptionsAt(options, path).where), Bound(Binding(column, input)))
    || (path == [] && Binding(column, input) in given)
    || (path != [] && column == Last(path).foreign
        && BoundAt(given, options, path[..|path| - 1], Last(path).local, input))
  }

  ghost predicate Mentions(condition: Predicate, column: string)
    decreases condition
  {
    match condition
    case Atomic(field, _, _) => field == column
    case And(all) => exists i :: 0 <= i < |all| && Mentions(all[i], column)
    case Or(any) => exists i :: 0 <= i < |any| && Mentions(any[i], column)
    case Not(negated) => Mentions(negated, column)
  }

  /** A column a table's part of the result can depend on; of a count only what decides which rows it counts. */
  ghost predicate NeededAt(options: SelectOptions, count: bool, foreign: Option<string>, column: string) {
    || (!count && options.columns.Some? && column in options.columns.value)
    || (!count && exists order :: order in options.order && order.field == column)
    || (exists condition :: condition in options.where && Mentions(condition, column))
    || (exists join :: join in options.joins && (count ==> join.required) && join.local == column)
    || foreign == Some(column)
  }

  /** The read of the table at the end of a path. */
  ghost predicate IsReadAt(
    resource: string, options: SelectOptions, count: bool, given: seq<Binding>, foreign: Option<string>, path: seq<Join>,
    read: Read)
  {
    var own, counted, link := OptionsAt(options, path), count && path == [], ForeignAt(foreign, path);
    && read.resource == (if path == [] then resource else Last(path).resource)
    && (forall column, input :: Binding(column, input) in read.bindings <==> BoundAt(given, options, path, column, input))
    && (read.columns.Every? <==> !counted && own.columns.None?)
    && (read.columns.Only? ==> forall column :: column in read.columns.names <==> NeededAt(own, counted, link, column))
    && FiltersAre(own.where, read.filters)
  }

  /** The fixed values the conditions demand on every way they can come true; past 100 the rest is left out. */
  ghost predicate FiltersAre(where: seq<Predicate>, filters: seq<Filter>) {
    && |filters| <= READ_FILTER_LIMIT
    && (forall filter :: filter in filters ==> OnEvery(PathsOfAll(where), Fixed(filter)))
    && (|filters| < READ_FILTER_LIMIT ==> forall filter :: OnEvery(PathsOfAll(where), Fixed(filter)) ==> filter in filters)
  }

  lemma {:induction false} AtomsMention(condition: Predicate, column: string)
    ensures column in Atoms(condition) <==> Mentions(condition, column)
    decreases condition, 1
  {
    match condition
    case Atomic(_, _, _) =>
    case And(all) => AllAtomsMention(all, column);
    case Or(any) => AllAtomsMention(any, column);
    case Not(negated) => AtomsMention(negated, column);
  }

  lemma {:induction false} AllAtomsMention(conditions: seq<Predicate>, column: string)
    ensures column in AllAtoms(conditions) <==> exists i :: 0 <= i < |conditions| && Mentions(conditions[i], column)
    decreases conditions, 0
  {
    if conditions != [] {
      AtomsMention(conditions[0], column);
      AllAtomsMention(conditions[1..], column);
      hide Mentions, Atoms;
      assert forall i :: 0 <= i < |conditions| - 1 ==> conditions[1..][i] == conditions[i + 1];
      if i :| 0 <= i < |conditions| && Mentions(conditions[i], column) && i > 0 {
        assert Mentions(conditions[1..][i - 1], column);
      }
    }
  }

  lemma {:induction false} OrderFieldsHas(order: seq<Order>, column: string)
    ensures column in OrderFields(order) <==> exists o :: o in order && o.field == column
  {
    if order != [] {
      OrderFieldsHas(order[1..], column);
      assert order == [order[0]] + order[1..];
    }
  }

  lemma {:induction false} LocalsAre(joins: seq<Join>, column: string)
    ensures column in Locals(joins) <==> exists join :: join in joins && join.local == column
  {
    if joins != [] {
      LocalsAre(joins[1..], column);
      assert joins == [joins[0]] + joins[1..];
    }
  }

  lemma NeededExactly(options: SelectOptions, foreign: Option<string>, column: string)
    requires options.columns.Some?
    ensures column in ReadColumns(options, foreign).names <==> NeededAt(options, false, foreign, column)
  {
    AllAtomsMention(options.where, column);
    OrderFieldsHas(options.order, column);
    LocalsAre(options.joins, column);
    hide Mentions, AllAtoms, OrderFields, Locals;
    if condition :| condition in options.where && Mentions(condition, column) {
      var i :| 0 <= i < |options.where| && options.where[i] == condition;
      assert Mentions(options.where[i], column);
    }
  }

  lemma OwnFilters(where: seq<Predicate>)
    ensures FiltersAre(where, Truncated(FiltersOfAll(where)))
  {
    forall filter ensures filter in FiltersOfAll(where) <==> OnEvery(PathsOfAll(where), Fixed(filter)) {
      GuaranteedOnAll(where, Fixed(filter));
    }
  }

  lemma OwnIsReadAt(resource: string, options: SelectOptions, given: seq<Binding>, foreign: Option<string>)
    ensures IsReadAt(resource, options, false, given, foreign, [], OwnRead(resource, options, given, foreign))
  {
    OwnFilters(options.where);
    forall column, input
      ensures Binding(column, input) in given + BindingsOfAll(options.where) <==> BoundAt(given, options, [], column, input)
    {
      GuaranteedOnAll(options.where, Bound(Binding(column, input)));
    }
    if options.columns.Some? {
      forall column ensures column in ReadColumns(options, foreign).names <==> NeededAt(options, false, foreign, column) {
        NeededExactly(options, foreign, column);
      }
    }
    hide FiltersAre, BoundAt, NeededAt, OnEvery, Truncated, FiltersOfAll, BindingsOfAll;
  }

  /** What the read of the parent binds is what its joins may pass on. */
  lemma {:induction false} BoundBelow(
      given: seq<Binding>, options: SelectOptions, join: Join, rest: seq<Join>, column: string, input: string)
    ensures BoundAt(given, options, [join] + rest, column, input) <==>
      BoundAt(Propagated(given + BindingsOfAll(options.where), join), join.options, rest, column, input)
    decreases |rest|
  {
    var path := [join] + rest;
    var parent := path[..|path| - 1];
    if rest == [] {
      assert parent == [];
      GuaranteedOnAll(options.where, Bound(Binding(join.local, input)));
      hide OnEvery, Propagated, BindingsOfAll;
    } else {
      assert parent == [join] + rest[..|rest| - 1];
      BoundBelow(given, options, join, rest[..|rest| - 1], Last(rest).local, input);
      hide OnEvery, Propagated, BindingsOfAll;
    }
  }

  lemma ReadBelow(
      resource: string, options: SelectOptions, given: seq<Binding>, foreign: Option<string>, join: Join, rest: seq<Join>,
      read: Read)
    ensures IsReadAt(resource, options, false, given, foreign, [join] + rest, read) <==>
      IsReadAt(
        join.resource, join.options, false, Propagated(given + BindingsOfAll(options.where), join), Some(join.foreign), rest, read)
  {
    var path := [join] + rest;
    var passed := Propagated(given + BindingsOfAll(options.where), join);
    assert OptionsAt(options, path) == OptionsAt(join.options, rest) && ForeignAt(foreign, path) == ForeignAt(Some(join.foreign), rest);
    forall column, input ensures BoundAt(given, options, path, column, input) <==> BoundAt(passed, join.options, rest, column, input) {
      BoundBelow(given, options, join, rest, column, input);
    }
    hide BoundAt, NeededAt, FiltersAre;
  }

  lemma {:induction false} ReadHasPath(
      resource: string, options: SelectOptions, given: seq<Binding>, foreign: Option<string>, read: Read)
      returns (path: seq<Join>)
    requires read in ReadSelect(resource, options, given, foreign)
    ensures IsPath(options, false, path) && IsReadAt(resource, options, false, given, foreign, path, read)
    decreases options, 1
  {
    var own := OwnRead(resource, options, given, foreign);
    hide IsReadAt;
    if read == own {
      OwnIsReadAt(resource, options, given, foreign);
      path := [];
    } else {
      path := JoinReadHasPath(options.joins, own.bindings, read);
      assert path == [path[0]] + path[1..];
      ReadBelow(resource, options, given, foreign, path[0], path[1..], read);
    }
  }

  lemma {:induction false} JoinReadHasPath(joins: seq<Join>, bindings: seq<Binding>, read: Read) returns (path: seq<Join>)
    requires read in ReadJoins(joins, bindings)
    ensures path != [] && path[0] in joins && IsPath(path[0].options, false, path[1..])
    ensures IsReadAt(
      path[0].resource, path[0].options, false, Propagated(bindings, path[0]), Some(path[0].foreign), path[1..], read)
    decreases joins, 0
  {
    hide IsReadAt;
    var join := joins[0];
    if read in ReadSelect(join.resource, join.options, Propagated(bindings, join), Some(join.foreign)) {
      var rest := ReadHasPath(join.resource, join.options, Propagated(bindings, join), Some(join.foreign), read);
      path := [join] + rest;
      assert path[1..] == rest;
    } else {
      path := JoinReadHasPath(joins[1..], bindings, read);
    }
  }

  lemma {:induction false} PathHasRead(
      resource: string, options: SelectOptions, given: seq<Binding>, foreign: Option<string>, path: seq<Join>)
      returns (read: Read)
    requires IsPath(options, false, path)
    ensures read in ReadSelect(resource, options, given, foreign)
    ensures IsReadAt(resource, options, false, given, foreign, path, read)
    decreases |path|
  {
    var own := OwnRead(resource, options, given, foreign);
    hide IsReadAt;
    if path == [] {
      OwnIsReadAt(resource, options, given, foreign);
      read := own;
    } else {
      var join := path[0];
      read := PathHasRead(join.resource, join.options, Propagated(own.bindings, join), Some(join.foreign), path[1..]);
      assert path == [join] + path[1..];
      ReadBelow(resource, options, given, foreign, join, path[1..], read);
      var i :| 0 <= i < |options.joins| && options.joins[i] == join;
      JoinReadsIncluded(options.joins, own.bindings, i);
    }
  }

  // ------------------------------------------------------------------ counts

  lemma CountPaths(options: SelectOptions, path: seq<Join>)
    ensures IsPath(ReadOptions(options, true), false, path) <==> IsPath(options, true, path)
  {
  }

  lemma {:induction false} BoundInCount(options: SelectOptions, path: seq<Join>, column: string, input: string)
    ensures BoundAt([], ReadOptions(options, true), path, column, input) <==> BoundAt([], options, path, column, input)
    decreases |path|
  {
    hide OnEvery;
    if path != [] {
      BoundInCount(options, path[..|path| - 1], Last(path).local, input);
    }
  }

  lemma CountReadAt(resource: string, options: SelectOptions, path: seq<Join>, read: Read)
    ensures IsReadAt(resource, ReadOptions(options, true), false, [], None, path, read) <==>
      IsReadAt(resource, options, true, [], None, path, read)
  {
    forall column, input ensures BoundAt([], ReadOptions(options, true), path, column, input) <==> BoundAt([], options, path, column, input) {
      BoundInCount(options, path, column, input);
    }
    forall column ensures NeededAt(ReadOptions(options, true), false, None, column) <==> NeededAt(options, true, None, column) {
    }
    hide BoundAt, NeededAt, FiltersAre;
  }

  /** The reads derived from a select or a count are those of its tables, each as its path says. */
  lemma SelectReadsExactly(resource: string, options: SelectOptions, count: bool)
    ensures forall read :: read in ReadSelect(resource, ReadOptions(options, count), [], None) ==>
      exists path :: IsPath(options, count, path) && IsReadAt(resource, options, count, [], None, path, read)
    ensures forall path :: IsPath(options, count, path) ==>
      exists read :: read in ReadSelect(resource, ReadOptions(options, count), [], None)
        && IsReadAt(resource, options, count, [], None, path, read)
  {
    hide IsPath, IsReadAt, ReadSelect;
    var kept := ReadOptions(options, count);
    forall path
      ensures IsPath(kept, false, path) <==> IsPath(options, count, path)
      ensures forall read :: IsReadAt(resource, kept, false, [], None, path, read) <==>
        IsReadAt(resource, options, count, [], None, path, read)
    {
      if count {
        CountPaths(options, path);
        forall read ensures IsReadAt(resource, kept, false, [], None, path, read) <==> IsReadAt(resource, options, count, [], None, path, read) {
          CountReadAt(resource, options, path, read);
        }
      }
    }
    hide ReadOptions;
    forall read | read in ReadSelect(resource, kept, [], None)
      ensures exists path :: IsPath(options, count, path) && IsReadAt(resource, options, count, [], None, path, read)
    {
      var path := ReadHasPath(resource, kept, [], None, read);
    }
    forall path | IsPath(options, count, path)
      ensures exists read :: read in ReadSelect(resource, kept, [], None) && IsReadAt(resource, options, count, [], None, path, read)
    {
      var read := PathHasRead(resource, kept, [], None, path);
    }
  }

  // -------------------------------------------------------- what is rendered

  /** The comparison or null test occurs in the condition, negated or not. */
  ghost predicate Within(atom: Predicate, condition: Predicate)
    decreases condition
  {
    match condition
    case Atomic(_, _, _) => atom == condition
    case And(all) => exists i :: 0 <= i < |all| && Within(atom, all[i])
    case Or(any) => exists i :: 0 <= i < |any| && Within(atom, any[i])
    case Not(negated) => Within(atom, negated)
  }

  /** A registered column and, but for a null test, an operand the statement can carry: a list for `in`, else a scalar. */
  predicate AtomRenders(db: Database, columns: seq<string>, atom: Predicate, input: Input)
    requires atom.Atomic?
  {
    && atom.field in columns
    && (atom.op.IsNull? || atom.op.NotNull?
        || (atom.value.Some?
            && match Resolve(atom.value.value, input)
               case Some(Many(items)) => atom.op.In? && forall item :: item in items ==> db.accepts(item)
               case Some(Single(scalar)) => !atom.op.In? && db.accepts(scalar)
               case _ => false))
  }

  ghost predicate AtomsRender(db: Database, columns: seq<string>, condition: Predicate, input: Input) {
    forall atom: Predicate :: Within(atom, condition) ==> atom.Atomic? && AtomRenders(db, columns, atom, input)
  }

  /** A page number is absent, or an integer from the minimum to 10000. */
  predicate PageRenders(page: Option<Operand>, input: Input, minimum: int) {
    page.None?
    || match Resolve(page.value, input)
       case Some(Single(Num(number))) => number == number.Floor as real && minimum as real <= number <= 10000.0
       case _ => false
  }

  /** Everything one table of the statement names is registered and carried. */
  ghost predicate TableRenders(
    db: Database, resources: Resources, input: Input, resource: string, options: SelectOptions, counted: bool,
    foreign: Option<string>)
  {
    && resource in resources
    && var columns := resources[resource].columns;
       && (foreign.Some? ==> foreign.value in columns)
       && (forall condition :: condition in options.where ==> AtomsRender(db, columns, condition, input))
       && (!counted && options.columns.Some? ==> forall column :: column in options.columns.value ==> column in columns)
       && (forall order :: order in options.order ==> order.field in columns)
       && (forall join :: join in options.joins ==> join.local in columns)
       && PageRenders(options.limit, input, 1) && PageRenders(options.offset, input, 0)
  }

  ghost predicate RendersAt(
    db: Database, resources: Resources, input: Input, resource: string, options: SelectOptions, count: bool,
    foreign: Option<string>, path: seq<Join>)
  {
    TableRenders(
      db, resources, input, if path == [] then resource else Last(path).resource, OptionsAt(options, path), count && path == [],
      ForeignAt(foreign, path))
  }

  lemma {:induction false} RenderableExactly(db: Database, columns: seq<string>, condition: Predicate, input: Input)
    ensures Renderable(db, columns, condition, input) <==> AtomsRender(db, columns, condition, input)
    decreases condition, 1
  {
    match condition
    case Atomic(_, _, _) => assert Within(condition, condition);
    case And(all) =>
      AllRenderableExactly(db, columns, all, input);
      WithinAll(db, columns, condition, all, input);
    case Or(any) =>
      AllRenderableExactly(db, columns, any, input);
      WithinAll(db, columns, condition, any, input);
    case Not(negated) => RenderableExactly(db, columns, negated, input);
  }

  lemma WithinAll(db: Database, columns: seq<string>, condition: Predicate, parts: seq<Predicate>, input: Input)
    requires condition == And(parts) || condition == Or(parts)
    ensures AtomsRender(db, columns, condition, input) <==> forall i :: 0 <= i < |parts| ==> AtomsRender(db, columns, parts[i], input)
  {
    hide AtomRenders;
    assert forall atom :: Within(atom, condition) <==> exists i :: 0 <= i < |parts| && Within(atom, parts[i]);
  }

  lemma {:induction false} AllRenderableExactly(db: Database, columns: seq<string>, conditions: seq<Predicate>, input: Input)
    ensures AllRenderable(db, columns, conditions, input) <==>
      forall i :: 0 <= i < |conditions| ==> AtomsRender(db, columns, conditions[i], input)
    decreases conditions, 0
  {
    hide AtomsRender;
    if conditions != [] {
      RenderableExactly(db, columns, conditions[0], input);
      AllRenderableExactly(db, columns, conditions[1..], input);
      assert forall i :: 0 < i < |conditions| ==> conditions[i] == conditions[1..][i - 1];
      assert forall i :: 0 <= i < |conditions| - 1 ==> conditions[1..][i] == conditions[i + 1];
    }
  }

  lemma PageExactly(page: Option<Operand>, input: Input, minimum: int)
    ensures ValidPage(page, input, minimum) <==> PageRenders(page, input, minimum)
  {
  }

  /** One table of the statement, and its joins taken to render. */
  lemma OwnRenders(
      db: Database, resources: Resources, input: Input, resource: string, options: SelectOptions, countRoot: bool)
    ensures Compiles(db, resources, input, resource, options, countRoot) <==>
      && TableRenders(db, resources, input, resource, options, countRoot, None)
      && forall i :: 0 <= i < |options.joins| && (countRoot ==> options.joins[i].required) ==>
           var join := options.joins[i];
           && join.resource in resources && join.foreign in resources[join.resource].columns
           && Compiles(db, resources, input, join.resource, join.options, false)
  {
    if resource in resources {
      var columns := resources[resource].columns;
      AllRenderableExactly(db, columns, options.where, input);
      MemberOrIndex(options.where);
      MemberOrIndex(options.order);
      MemberOrIndex(options.joins);
    }
    PageExactly(options.limit, input, 1);
    PageExactly(options.offset, input, 0);
    hide AtomsRender, ValidPage, PageRenders, AllRenderable;
  }

  lemma MemberOrIndex<T>(list: seq<T>)
    ensures forall x :: x in list <==> exists i :: 0 <= i < |list| && list[i] == x
  {
  }

  /**
   A select or a count is rendered exactly if each of its tables is: everything it names is registered, every operand
   can be carried and every page number is in range.
   */
  lemma {:induction false} CompilesExactly(
      db: Database, resources: Resources, input: Input, resource: string, options: SelectOptions, countRoot: bool)
    ensures Compiles(db, resources, input, resource, options, countRoot) <==>
      forall path :: IsPath(options, countRoot, path) ==> RendersAt(db, resources, input, resource, options, countRoot, None, path)
    decreases options
  {
    hide Compiles, TableRenders;
    OwnRenders(db, resources, input, resource, options, countRoot);
    forall i | 0 <= i < |options.joins|
      ensures var join := options.joins[i];
        Compiles(db, resources, input, join.resource, join.options, false) <==>
        forall path :: IsPath(join.options, false, path) ==> RendersAt(db, resources, input, join.resource, join.options, false, None, path)
    {
      CompilesExactly(db, resources, input, options.joins[i].resource, options.joins[i].options, false);
    }
    if Compiles(db, resources, input, resource, options, countRoot) {
      forall path | IsPath(options, countRoot, path)
        ensures RendersAt(db, resources, input, resource, options, countRoot, None, path)
      {
        if path != [] {
          var i :| 0 <= i < |options.joins| && options.joins[i] == path[0];
          RendersBelow(db, resources, input, resource, options, countRoot, path);
        }
      }
    } else if TableRenders(db, resources, input, resource, options, countRoot, None) {
      var i :| 0 <= i < |options.joins| && (countRoot ==> options.joins[i].required)
        && (options.joins[i].resource in resources && options.joins[i].foreign in resources[options.joins[i].resource].columns ==>
              !Compiles(db, resources, input, options.joins[i].resource, options.joins[i].options, false));
      var join := options.joins[i];
      var rest: seq<Join> := [];
      if join.resource in resources && join.foreign in resources[join.resource].columns {
        rest :| IsPath(join.options, false, rest)
          && !RendersAt(db, resources, input, join.resource, join.options, false, None, rest);
      }
      var path := [join] + rest;
      assert path[0] == join && path[1..] == rest && IsPath(options, countRoot, path);
      RendersBelow(db, resources, input, resource, options, countRoot, path);
    } else {
      var root: seq<Join> := [];
      assert IsPath(options, countRoot, root);
      assert !RendersAt(db, resources, input, resource, options, countRoot, None, root);
    }
  }

  /** The table at the end of a path that goes through a join, seen from that join. */
  lemma RendersBelow(
      db: Database, resources: Resources, input: Input, resource: string, options: SelectOptions, countRoot: bool,
      path: seq<Join>)
    requires path != []
    ensures RendersAt(db, resources, input, resource, options, countRoot, None, path) <==>
      && RendersAt(db, resources, input, path[0].resource, path[0].options, false, None, path[1..])
      && (|path| == 1 ==> path[0].resource in resources && path[0].foreign in resources[path[0].resource].columns)
  {
    hide AtomsRender, PageRenders;
  }

  // -------------------------------------------------------------- whole plans

  /** A step from a plan to a part of it, or to the plan of an endpoint it calls. */
  datatype Turn = Into(index: nat) | Branch(taken: bool) | Outer | Inner | Under | Called

  /**
   The leaf the turns lead to, and whether its input fields are still the caller's: not beneath a mapped or
   opaque call, and not inside the child of a bind.
   */
  ghost predicate Leads(queries: Queries, plan: Plan, turns: seq<Turn>, leaf: Plan, kept: bool)
    decreases |turns|
  {
    if turns == [] then leaf == plan && kept && (plan.Select? || plan.Native?)
    else
      var rest := turns[1..];
      match plan
      case Combine(children) =>
        turns[0].Into? && turns[0].index < |children| && Leads(queries, children[turns[0].index].plan, rest, leaf, kept)
      case Choose(choices, _) =>
        turns[0].Into? && turns[0].index < |choices| && Leads(queries, choices[turns[0].index].plan, rest, leaf, kept)
      case When(_, yes, no) => turns[0].Branch? && Leads(queries, if turns[0].taken then yes else no, rest, leaf, kept)
      case Map(source, _) => turns[0].Under? && Leads(queries, source, rest, leaf, kept)
      case Bind(parent, child, _) =>
        || (turns[0].Outer? && Leads(queries, parent, rest, leaf, kept))
        || (turns[0].Inner? && !kept && (Leads(queries, child, rest, leaf, true) || Leads(queries, child, rest, leaf, false)))
      case Call(endpoint, mapper) =>
        && turns[0].Called? && endpoint in queries
        && var called := queries[endpoint].plan;
           if mapper.None? && !queries[endpoint].opaqueInput then Leads(queries, called, rest, leaf, kept)
           else !kept && (Leads(queries, called, rest, leaf, true) || Leads(queries, called, rest, leaf, false))
      case _ => false
  }

  function OwnReads(leaf: Plan): seq<Read> {
    match leaf
    case Select(resource, options, count) => ReadSelect(resource, ReadOptions(options, count), [], None)
    case Native(query) => query.declared
    case _ => []
  }

  /** A read of a leaf, as it stands or without its bindings. */
  ghost predicate ReadOf(leaf: Plan, kept: bool, read: Read) {
    exists base :: base in OwnReads(leaf) && read == if kept then base else base.(bindings := [])
  }

  /** How a read came to be: the turns to its leaf. */
  datatype Origin = Origin(turns: seq<Turn>, leaf: Plan, kept: bool)

  ghost predicate Explains(queries: Queries, plan: Plan, origin: Origin, read: Read) {
    Leads(queries, plan, origin.turns, origin.leaf, origin.kept) && ReadOf(origin.leaf, origin.kept, read)
  }

  function Turned(turn: Turn, origin: Origin, kept: bool): Origin {
    Origin([turn] + origin.turns, origin.leaf, kept)
  }

  lemma TurnedFirst(turn: Turn, origin: Origin, kept: bool)
    ensures var turned := Turned(turn, origin, kept);
      turned.turns != [] && turned.turns[0] == turn && turned.turns[1..] == origin.turns
      && turned.leaf == origin.leaf && turned.kept == kept
  {
  }

  lemma DroppedReadOf(list: seq<Read>, read: Read) returns (base: Read)
    requires read in DropBindings(list)
    ensures base in list && read == base.(bindings := [])
  {
    var i :| 0 <= i < |list| && DropBindings(list)[i] == read;
    base := list[i];
  }

  lemma DropsRead(list: seq<Read>, base: Read)
    requires base in list
    ensures base.(bindings := []) in DropBindings(list)
  {
    var i :| 0 <= i < |list| && list[i] == base;
    assert DropBindings(list)[i] == base.(bindings := []);
  }

  lemma LoosenedReadOf(leaf: Plan, kept: bool, base: Read, read: Read)
    requires ReadOf(leaf, kept, base) && read == base.(bindings := [])
    ensures ReadOf(leaf, false, read)
  {
  }

  /** Every compiled read comes from a leaf. */
  lemma {:induction false} ReadHasOrigin(queries: Queries, rank: Ranking, plan: Plan, level: nat, read: Read)
      returns (origin: Origin)
    requires Ranked(queries, rank) && Below(queries, rank, Calls(plan), level)
    requires read in ReadsFor(queries, rank, plan, level)
    ensures Explains(queries, plan, origin, read)
    decreases level, plan, 1
  {
    hide ReadOf, Ranked, ReadSelect, ReadOptions;
    match plan
    case Select(_, _, _) =>
      origin := Origin([], plan, true);
      StandsForItself(plan, read);
    case Native(_) =>
      origin := Origin([], plan, true);
      StandsForItself(plan, read);
    case Constant(_) =>
    case Call(endpoint, mapper) => origin := CallReadHasOrigin(queries, rank, plan, level, read);
    case Combine(children) => origin := PartHasOrigin(queries, rank, plan, children, level, read);
    case Choose(choices, _) => origin := PartHasOrigin(queries, rank, plan, choices, level, read);
    case When(_, yes, no) =>
      var taken := read in ReadsFor(queries, rank, yes, level);
      var inner := ReadHasOrigin(queries, rank, if taken then yes else no, level, read);
      origin := Turned(Branch(taken), inner, inner.kept);
      TurnedFirst(Branch(taken), inner, inner.kept);
    case Map(source, _) =>
      var inner := ReadHasOrigin(queries, rank, source, level, read);
      origin := Turned(Under, inner, inner.kept);
      TurnedFirst(Under, inner, inner.kept);
    case Bind(parent, child, _) =>
      if read in ReadsFor(queries, rank, parent, level) {
        var inner := ReadHasOrigin(queries, rank, parent, level, read);
        origin := Turned(Outer, inner, inner.kept);
        TurnedFirst(Outer, inner, inner.kept);
      } else {
        var base := DroppedReadOf(ReadsFor(queries, rank, child, level), read);
        var inner := ReadHasOrigin(queries, rank, child, level, base);
        origin := Turned(Inner, inner, false);
        TurnedFirst(Inner, inner, false);
        LoosenedReadOf(inner.leaf, inner.kept, base, read);
      }
  }

  lemma StandsForItself(plan: Plan, read: Read)
    requires read in OwnReads(plan)
    ensures ReadOf(plan, true, read)
  {
  }

  lemma {:induction false} CallReadHasOrigin(queries: Queries, rank: Ranking, plan: Plan, level: nat, read: Read)
      returns (origin: Origin)
    requires Ranked(queries, rank) && Below(queries, rank, Calls(plan), level) && plan.Call?
    requires read in ReadsFor(queries, rank, plan, level)
    ensures Explains(queries, plan, origin, read)
    decreases level, plan, 0
  {
    hide ReadOf;
    var query := queries[plan.endpoint];
    var below := ReadsFor(queries, rank, query.plan, rank[plan.endpoint]);
    if plan.mapper.None? && !query.opaqueInput {
      var inner := ReadHasOrigin(queries, rank, query.plan, rank[plan.endpoint], read);
      origin := Turned(Called, inner, inner.kept);
      TurnedFirst(Called, inner, inner.kept);
    } else {
      var base := DroppedReadOf(below, read);
      var inner := ReadHasOrigin(queries, rank, query.plan, rank[plan.endpoint], base);
      origin := Turned(Called, inner, false);
      TurnedFirst(Called, inner, false);
      LoosenedReadOf(inner.leaf, inner.kept, base, read);
    }
  }

  lemma {:induction false} PartHasOrigin(
      queries: Queries, rank: Ranking, plan: Plan, plans: seq<NamedPlan>, level: nat, read: Read) returns (origin: Origin)
    requires Ranked(queries, rank) && Below(queries, rank, CallsOf(plans), level)
    requires read in ReadsForAll(queries, rank, plans, level)
    requires (plan.Combine? && plans == plan.children) || (plan.Choose? && plans == plan.choices)
    ensures Explains(queries, plan, origin, read)
    decreases level, plans, 1
  {
    hide ReadOf;
    var i, inner := OneHasOrigin(queries, rank, plans, level, read);
    origin := Turned(Into(i), inner, inner.kept);
    TurnedFirst(Into(i), inner, inner.kept);
  }

  lemma {:induction false} OneHasOrigin(queries: Queries, rank: Ranking, plans: seq<NamedPlan>, level: nat, read: Read)
      returns (i: nat, origin: Origin)
    requires Ranked(queries, rank) && Below(queries, rank, CallsOf(plans), level)
    requires read in ReadsForAll(queries, rank, plans, level)
    ensures i < |plans| && Explains(queries, plans[i].plan, origin, read)
    decreases level, plans, 0
  {
    hide Explains;
    if read in ReadsFor(queries, rank, plans[0].plan, level) {
      i := 0;
      origin := ReadHasOrigin(queries, rank, plans[0].plan, level, read);
    } else {
      i, origin := OneHasOrigin(queries, rank, plans[1..], level, read);
      i := i + 1;
    }
  }

  /** Every leaf's reads are compiled. */
  lemma {:induction false} OriginHasRead(
      queries: Queries, rank: Ranking, plan: Plan, level: nat, turns: seq<Turn>, leaf: Plan, kept: bool, read: Read)
    requires Ranked(queries, rank) && Below(queries, rank, Calls(plan), level)
    requires Leads(queries, plan, turns, leaf, kept) && ReadOf(leaf, kept, read)
    ensures read in ReadsFor(queries, rank, plan, level)
    decreases |turns|, 1, 0
  {
    hide ReadOf, ReadSelect, DropBindings, ReadOptions;
    if turns == [] {
      OwnReadOf(plan, read);
    } else {
      var rest := turns[1..];
      match plan
      case Combine(children) => PartHasRead(queries, rank, children, level, turns[0].index, rest, leaf, kept, read);
      case Choose(choices, _) => PartHasRead(queries, rank, choices, level, turns[0].index, rest, leaf, kept, read);
      case When(_, yes, no) => OriginHasRead(queries, rank, if turns[0].taken then yes else no, level, rest, leaf, kept, read);
      case Map(source, _) => OriginHasRead(queries, rank, source, level, rest, leaf, kept, read);
      case Bind(parent, child, _) =>
        if turns[0].Outer? {
          OriginHasRead(queries, rank, parent, level, rest, leaf, kept, read);
        } else {
          LoosenedHasRead(queries, rank, child, level, rest, leaf, read);
        }
      case Call(_, _) => CallHasRead(queries, rank, plan, level, turns, leaf, kept, read);
    }
  }

  lemma {:induction false} CallHasRead(
      queries: Queries, rank: Ranking, plan: Plan, level: nat, turns: seq<Turn>, leaf: Plan, kept: bool, read: Read)
    requires Ranked(queries, rank) && Below(queries, rank, Calls(plan), level) && plan.Call? && turns != []
    requires Leads(queries, plan, turns, leaf, kept) && ReadOf(leaf, kept, read)
    ensures read in ReadsFor(queries, rank, plan, level)
    decreases |turns|, 0, 0
  {
    hide ReadOf, DropBindings;
    var query := queries[plan.endpoint];
    if plan.mapper.None? && !query.opaqueInput {
      OriginHasRead(queries, rank, query.plan, rank[plan.endpoint], turns[1..], leaf, kept, read);
    } else {
      LoosenedHasRead(queries, rank, query.plan, rank[plan.endpoint], turns[1..], leaf, read);
    }
  }

  lemma OwnReadOf(plan: Plan, read: Read)
    ensures ReadOf(plan, true, read) ==> read in OwnReads(plan)
  {
  }

  lemma {:induction false} LoosenedHasRead(
      queries: Queries, rank: Ranking, plan: Plan, level: nat, turns: seq<Turn>, leaf: Plan, read: Read)
    requires Ranked(queries, rank) && Below(queries, rank, Calls(plan), level)
    requires Leads(queries, plan, turns, leaf, true) || Leads(queries, plan, turns, leaf, false)
    requires ReadOf(leaf, false, read)
    ensures read in DropBindings(ReadsFor(queries, rank, plan, level))
    decreases |turns|, 2, 0
  {
    hide Leads;
    if Leads(queries, plan, turns, leaf, true) {
      var base :| base in OwnReads(leaf) && read == base.(bindings := []);
      OriginHasRead(queries, rank, plan, level, turns, leaf, true, base);
      DropsRead(ReadsFor(queries, rank, plan, level), base);
    } else {
      OriginHasRead(queries, rank, plan, level, turns, leaf, false, read);
      DropsRead(ReadsFor(queries, rank, plan, level), read);
    }
  }

  lemma {:induction false} PartHasRead(
      queries: Queries, rank: Ranking, plans: seq<NamedPlan>, level: nat, i: nat, turns: seq<Turn>, leaf: Plan, kept: bool,
      read: Read)
    requires Ranked(queries, rank) && Below(queries, rank, CallsOf(plans), level) && i < |plans|
    requires Leads(queries, plans[i].plan, turns, leaf, kept) && ReadOf(leaf, kept, read)
    ensures read in ReadsForAll(queries, rank, plans, level)
    decreases |turns|, 2, i
  {
    hide ReadOf, Leads;
    if i == 0 {
      OriginHasRead(queries, rank, plans[0].plan, level, turns, leaf, kept, read);
    } else {
      PartHasRead(queries, rank, plans[1..], level, i - 1, turns, leaf, kept, read);
    }
  }

  /**
   `manifest.reads` of an endpoint holds exactly the reads of the leaves its plan can reach, through any calls,
   with their bindings where every step on the way hands the caller's input on as it is, and without them elsewhere.
   */
  lemma ManifestReadsExactly(queries: Queries, rank: Ranking, id: string, read: Read)
    requires Ranked(queries, rank) && id in queries
    ensures read in ManifestReads(queries, rank, id) <==>
      exists turns, leaf, kept ::
        && Leads(queries, queries[id].plan, turns, leaf, kept)
        && ReadOf(leaf, kept && !queries[id].opaqueInput, read)
  {
    hide Leads, ReadOf;
    var plan, level := queries[id].plan, rank[id];
    if read in ManifestReads(queries, rank, id) {
      if queries[id].opaqueInput {
        var base := DroppedReadOf(ReadsFor(queries, rank, plan, level), read);
        var origin := ReadHasOrigin(queries, rank, plan, level, base);
        LoosenedReadOf(origin.leaf, origin.kept, base, read);
      } else {
        var origin := ReadHasOrigin(queries, rank, plan, level, read);
      }
    }
    if turns, leaf, kept :| Leads(queries, plan, turns, leaf, kept) && ReadOf(leaf, kept && !queries[id].opaqueInput, read) {
      if queries[id].opaqueInput {
        LoosenedHasRead(queries, rank, plan, level, turns, leaf, read);
      } else {
        OriginHasRead(queries, rank, plan, level, turns, leaf, kept, read);
      }
    }
  }
}
