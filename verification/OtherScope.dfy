/**
 Why a command has to stay in its scope: a row written for another scope changes that scope's results and
 is excluded by the calculator, which answers for the command's scope.
 */
module OtherScope {
  import opened Contracts
  import opened Facts
  import opened Reads
  import opened WriteSets
  import opened Antichain
  import opened Assessments
  import opened Calculate
  import opened Soundness
  import opened SelectTrees
  import opened SelectSound
  import opened Plans
  import opened Noninterference
  import opened EndToEnd

  /** Count the rows of one scoped table. */
  function CountPlan(): Plan {
    Plan.Select("t", SelectOptions(Some(["s"]), [], [], [], None, None), true)
  }

  function ScopedResources(): Resources {
    map["t" := Resource(Some("s"), ["s"], ["s"])]
  }

  function CountWorld(): World {
    World(
      map["q" := Query((raw: Raw) => Returned(raw), false, CountPlan())],
      Database((text: string) => None, (a: Scalar, b: Scalar) => a == b, (a: Scalar, b: Scalar) => false, (a: Scalar) => true),
      ScopedResources(), map[], Str("B"), (options: SelectOptions, input: Input, rows: map<int, Tree>) => Atom(0))
  }

  const ROW: Row := map["s" := Str("B")]

  function OtherWrite(): RowWrite {
    RowWrite("t", 0, None, Some(ROW))
  }

  function OtherFact(): WriteFact {
    WriteFact("t", Insert, Absent, Known(Str("B"), map["s" := Str("B")], None), None)
  }

  const RANK: Ranking := map["q" := 0]

  lemma CountIsRanked()
    ensures Ranked(CountWorld().queries, RANK)
    ensures ManifestReads(CountWorld().queries, RANK, "q") == [Read("t", Columns.Only([]), [], [])]
    ensures PreservedInputs(CountWorld().queries, RANK, "q") == {}
  {
    var queries := CountWorld().queries;
    assert Calls(CountPlan()) == {};
    var reduced := SelectOptions(Some([]), [], [], [], None, None);
    assert ReadOptions(SelectOptions(Some(["s"]), [], [], [], None, None), true) == reduced;
    assert DistinctFilters([]) == [];
    var own := OwnRead("t", reduced, [], None);
    assert [] + AllAtoms([]) + OrderFields([]) + Locals([]) + [] == [];
    assert own == Read("t", Columns.Only([]), [], []);
    assert ReadSelect("t", reduced, [], None) == [own] + [];
  }

  function CommandOptions(dependencies: seq<Read>, sizes: Sizes): Options {
    Options(
      ScopedResources(), [EndpointReads("q", dependencies)], Str("A"), Some(map["q" := Verified]), (text: string) => None, sizes)
  }

  /** One write of a command, its fact in the log, and the impact; the query is called "q" and takes no input. */
  datatype Missed = Missed(options: Options, world: World, rank: Ranking, w: RowWrite, fact: WriteFact, impact: Impact)
  {
    /** The write changes what the query returns to a caller of the world's scope. */
    ghost predicate Happens() {
      && Lawful(world.db) && Current(world.tables, w)
      && Ranked(world.queries, rank) && "q" in world.queries && Noninterference.Registered(world, rank, "q")
      && RunQuery(world, rank, "q", Fields(map[])) != RunQuery(AfterWorld(world, w), rank, "q", Fields(map[]))
    }

    /** The log covers it, the manifest is compiled from the plans, and the impact is the calculator's. */
    ghost predicate Covered()
      requires Happens()
    {
      && CompiledFrom(options, world, rank, "q", 0)
      && w.resource in options.resources && Covers(options.resources[w.resource], fact, w)
      && ImpactFor(options, [fact], impact) && |impact| == 1
    }

    /** The command ran under another scope, and the caller is not selected. */
    ghost predicate Misses()
      requires Happens() && Covered()
    {
      && !StaysInScope(options, world.scope, [w])
      && !Selects(options.coerce, impact[0], CallerInput(Fields(map[])), world.scope == options.scope)
    }
  }

  /** Nothing is contributed for a row of another scope. */
  lemma {:induction false} OtherScopeSkips(options: Options, indexed: seq<IndexedRead>)
    requires options.resources == ScopedResources() && options.scope == Str("A")
    requires forall entry :: entry in indexed ==> StatusOf(options, entry.endpoint).Verified?
    ensures RowHits(options, OtherFact(), OtherFact().after, indexed) == []
  {
    if indexed != [] {
      var earlier := indexed[..|indexed| - 1];
      assert indexed[|indexed| - 1] in indexed;
      assert forall entry :: entry in earlier ==> entry in indexed;
      OtherScopeSkips(options, earlier);
      assert "B"[0] != "A"[0];
    }
  }

  lemma NothingReported(dependencies: seq<Read>, sizes: Sizes)
    ensures var options := CommandOptions(dependencies, sizes);
      ImpactFor(options, [OtherFact()], [EndpointImpact("q", Verified, [])])
  {
    var options := CommandOptions(dependencies, sizes);
    var fact := OtherFact();
    var exact := [EndpointImpact("q", Verified, [])];
    OtherScopeSkips(options, IndexOf(options.manifest, "t"));
    assert [fact][..0] == [];
    assert AllHits(options, [fact]) == [];
    assert Reported(options, [], "q", exact[0]);
    assert ImpactWidened(exact, exact);
  }

  lemma CountsDiffer()
    requires Ranked(CountWorld().queries, RANK)
    ensures RunQuery(CountWorld(), RANK, "q", Fields(map[])) != RunQuery(AfterWorld(CountWorld(), OtherWrite()), RANK, "q", Fields(map[]))
  {
    var before, after := CountWorld(), AfterWorld(CountWorld(), OtherWrite());
    CountIsRanked();
    var options := SelectOptions(Some(["s"]), [], [], [], None, None);
    CountOf(before, 0);
    CountOf(after, 1);
  }

  lemma CountOf(world: World, rows: nat)
    requires (world == CountWorld() && rows == 0) || (world == AfterWorld(CountWorld(), OtherWrite()) && rows == 1)
    requires Ranked(world.queries, RANK) && PreservedInputs(world.queries, RANK, "q") == {}
    ensures RunQuery(world, RANK, "q", Fields(map[])).outcome == Returned(Atom(rows))
  {
    var options := SelectOptions(Some(["s"]), [], [], [], None, None);
    var env := EnvOf(world, map[]);
    assert Compiles(world.db, world.resources, map[], "t", options, true);
    var table := Table(world.tables, "t");
    var selected := Selected(env, "t", options, None);
    if rows == 0 {
      assert selected == map[];
    } else {
      assert table == map[0 := ROW];
      assert Matches(env, "t", options, None, ROW);
      assert selected.Keys == {0};
      assert |selected| == |selected.Keys|;
    }
  }

  /**
   The hypothesis is needed: the write is covered by a fact of the log and changes the result of a caller of its
   own scope, yet the impact of the command, which runs under another scope, does not select that caller.
   */
  lemma OtherScopeIsMissed(sizes: Sizes) returns (missed: Missed)
    ensures missed.Happens() && missed.Covered() && missed.Misses()
  {
    hide RunQuery, ManifestReads, ImpactFor, Lawful, Covers, StaysInScope, Selects, Noninterference.Registered, Current;
    CountIsRanked();
    CountsDiffer();
    CountIsSound();
    var dependencies := ManifestReads(CountWorld().queries, RANK, "q");
    var options := CommandOptions(dependencies, sizes);
    missed := Missed(options, CountWorld(), RANK, OtherWrite(), OtherFact(), [EndpointImpact("q", Verified, [])]);
    NothingReported(dependencies, sizes);
    WriteLeavesScope(dependencies, sizes);
    hide Ranked;
  }

  lemma CountIsSound()
    ensures Lawful(CountWorld().db) && Current(CountWorld().tables, OtherWrite())
    ensures Ranked(CountWorld().queries, RANK) && Noninterference.Registered(CountWorld(), RANK, "q")
  {
    CountIsRanked();
    hide ManifestReads;
  }

  lemma WriteLeavesScope(dependencies: seq<Read>, sizes: Sizes)
    ensures var options := CommandOptions(dependencies, sizes);
      && Covers(options.resources["t"], OtherFact(), OtherWrite())
      && CountWorld().scope != options.scope && !StaysInScope(options, CountWorld().scope, [OtherWrite()])
      && !Selects(options.coerce, EndpointImpact("q", Verified, []), CallerInput(Fields(map[])), false)
  {
    var options := CommandOptions(dependencies, sizes);
    assert "B"[0] != "A"[0];
    var written := [OtherWrite()];
    assert OtherWrite() in written && Visible(options.resources["t"], CountWorld().scope, ROW);
  }
}
