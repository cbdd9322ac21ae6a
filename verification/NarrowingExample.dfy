/**
 A run on which byte bounding and a worse report together lose an input: one row, two endpoints, and the
 report that gives up on the second of them.
 */
module NarrowingExample {
  import opened Contracts
  import opened Facts
  import opened Reads
  import opened WriteSets
  import opened Antichain
  import opened Assessments
  import opened Calculate
  import opened Soundness
  import opened Statuses
  import opened Narrowing

  // ------------------------------------------------------------------- sizes

  function TextBytes(text: string): nat {
    |text| + 2
  }

  /** Plain ASCII text costs its length and two quotes; a number at most 24 characters. */
  function ScalarBytes(value: Scalar): nat {
    match value
    case Null => 4
    case Bool(flag) => if flag then 4 else 5
    case Num(_) => 24
    case Str(text) => TextBytes(text)
  }

  /** An object in braces: each field its quoted name, a colon, its value and a comma between fields. */
  ghost function RecordText(record: Record): nat
    decreases |record|
  {
    if record == map[] then 2
    else
      var name :| name in record;
      TextBytes(name) + 1 + ScalarBytes(record[name]) + (if |record| > 1 then 1 else 0) + RecordText(record - {name})
  }

  ghost function AsciiSizes(): Sizes {
    Sizes(TextBytes, ScalarBytes, RecordText)
  }

  lemma RecordTextOne(name: string, value: Scalar)
    ensures RecordText(map[name := value]) == TextBytes(name) + 1 + ScalarBytes(value) + 2
  {
    var record := map[name := value];
    assert record.Keys == {name};
    assert |record| == |record.Keys| == 1;
    assert record - {name} == map[];
  }

  // --------------------------------------------------------- facts and manifest

  function OneRead(endpoint: string, input: string): EndpointReads {
    EndpointReads(endpoint, [Read("t", Columns.Only(["k"]), [Binding("k", input)], [])])
  }

  /** Two endpoints select rows of one table by the same column, under inputs of different names. */
  ghost function TwoOptions(): Options {
    Options(
      map["t" := Resource(None, ["k"], ["k"])], [OneRead("p", "pp"), OneRead("q", "q")], Null,
      Some(map["p" := Verified, "q" := Verified]), (text: string) => None, AsciiSizes())
  }

  function LongFact(text: string): WriteFact {
    WriteFact("t", Insert, Absent, Known(Null, map["k" := Str(text)], None), None)
  }

  function HitOf(endpoint: string, input: string, text: string): Contribution {
    Contribution(TargetKey(endpoint, Global), map[input := Str(text)], false)
  }

  function ListingOf(endpoint: string, input: string, text: string): EndpointImpact {
    EndpointImpact(endpoint, Verified, [Target(Global, Inputs([map[input := Str(text)]]))])
  }

  function TwoHits(text: string): seq<Contribution> {
    [HitOf("p", "pp", text), HitOf("q", "q", text)]
  }

  function TwoImpact(text: string): Impact {
    [ListingOf("p", "pp", text), ListingOf("q", "q", text)]
  }

  lemma OneReadHits(text: string, earlier: seq<IndexedRead>, endpoint: string, input: string)
    requires endpoint == "p" || endpoint == "q"
    ensures RowHits(
        TwoOptions(), LongFact(text), LongFact(text).after,
        earlier + [IndexedRead(endpoint, OneRead(endpoint, input).dependencies[0])])
      == RowHits(TwoOptions(), LongFact(text), LongFact(text).after, earlier) + [HitOf(endpoint, input, text)]
  {
    var fact, read := LongFact(text), OneRead(endpoint, input).dependencies[0];
    RowHitsStep(TwoOptions(), fact, fact.after, earlier, IndexedRead(endpoint, read));
    assert [Binding("k", input)][1..] == [];
    assert BindFrom(fact.after, read.bindings, map[], true) == BindFrom(fact.after, [], map[input := Str(text)], true);
  }

  lemma IndexOfTwo()
    ensures IndexOf(TwoOptions().manifest, "t") == [
      IndexedRead("p", OneRead("p", "pp").dependencies[0]), IndexedRead("q", OneRead("q", "q").dependencies[0])]
  {
    var manifest := TwoOptions().manifest;
    forall j | 0 <= j < 2
      ensures ReadsOf(manifest[j].endpoint, manifest[j].dependencies, "t")
        == [IndexedRead(manifest[j].endpoint, manifest[j].dependencies[0])]
    {
      assert manifest[j].dependencies[..0] == [];
    }
    assert manifest[..1][..0] == [];
    hide ReadsOf;
    assert IndexOf(manifest[..1], "t") == ReadsOf("p", manifest[0].dependencies, "t");
  }

  lemma FirstHits(text: string)
    ensures RowHits(
        TwoOptions(), LongFact(text), LongFact(text).after, [IndexedRead("p", OneRead("p", "pp").dependencies[0])])
      == [HitOf("p", "pp", text)]
  {
    var read := IndexedRead("p", OneRead("p", "pp").dependencies[0]);
    RowHitsNone(TwoOptions(), LongFact(text), LongFact(text).after, [read]);
    hide RowHits, HitOf, TwoOptions, LongFact, OneRead;
    OneReadHits(text, [], "p", "pp");
    assert [] + [read] == [read];
  }

  lemma RowOfTwo(text: string)
    ensures var options, fact := TwoOptions(), LongFact(text);
      RowHits(options, fact, fact.after, IndexOf(options.manifest, "t")) == TwoHits(text)
  {
    IndexOfTwo();
    var indexed := IndexOf(TwoOptions().manifest, "t");
    var first := IndexedRead("p", OneRead("p", "pp").dependencies[0]);
    assert indexed == [first] + [IndexedRead("q", OneRead("q", "q").dependencies[0])];
    hide RowHits, IndexOf, HitOf, TwoOptions, LongFact, OneRead;
    FirstHits(text);
    OneReadHits(text, [first], "q", "q");
  }

  /** The row contributes one input to each endpoint. */
  lemma HitsOfTwo(text: string)
    ensures Registered(TwoOptions(), [LongFact(text)]) && AllHits(TwoOptions(), [LongFact(text)]) == TwoHits(text)
  {
    var options, fact := TwoOptions(), LongFact(text);
    RowOfTwo(text);
    RowHitsNone(options, fact, Absent, IndexOf(options.manifest, "t"));
    hide RowHits, IndexOf, TwoHits;
    assert [fact][..0] == [];
    assert AllHits(options, [fact]) == FactHits(options, fact);
  }

  /** The one contribution of an endpoint, among those of two. */
  lemma OwnOfTwo(hits: seq<Contribution>, i: nat)
    requires |hits| == 2 && i < 2 && hits[0].key.endpoint != hits[1].key.endpoint
    ensures OwnHits(hits, hits[i].key.endpoint) == [hits[i]]
  {
    var endpoint := hits[i].key.endpoint;
    assert hits == [] + [hits[0]] + [hits[1]];
    OwnStep([], hits[0], endpoint);
    OwnStep([] + [hits[0]], hits[1], endpoint);
  }

  lemma SoleHit(hits: seq<Contribution>, i: nat)
    requires |hits| == 2 && i < 2 && hits[0].key.endpoint != hits[1].key.endpoint && !hits[i].imprecise
    ensures forall scope ::
      InputsFor(hits, TargetKey(hits[i].key.endpoint, scope)) == if scope == hits[i].key.scope then [hits[i].input] else []
    ensures hits[i].key.endpoint !in ReducedBy(hits)
  {
    var hit := hits[i];
    OwnDecides(hits, hit.key.endpoint);
    OwnOfTwo(hits, i);
    hide OwnHits, InputsFor, ReducedBy;
    assert [hit] == [] + [hit];
    NoHits();
    forall scope ensures InputsFor([hit], TargetKey(hit.key.endpoint, scope)) == if scope == hit.key.scope then [hit.input] else [] {
      InputsStep([], hit, TargetKey(hit.key.endpoint, scope));
    }
    ReducedStep([], hit);
  }

  lemma NoHits()
    ensures ReducedBy([]) == {} && forall key :: InputsFor([], key) == []
  {
  }

  lemma AbsorbOne(input: Record)
    requires input != map[]
    ensures AbsorbAll([input]) == Listed({input})
  {
    assert [input] == [] + [input];
    AbsorbOneMore([], input);
    assert AbsorbAll([]) == Listed({}) && Thin({}, input) + {input} == {input};
  }

  /** A verified endpoint with one precise contribution reports that one. */
  lemma ListingIsReported(options: Options, hits: seq<Contribution>, endpoint: string, input: string, text: string)
    requires Applied(options.assessment, endpoint, Verified) == Verified && endpoint !in ReducedBy(hits)
    requires forall scope :: InputsFor(hits, TargetKey(endpoint, scope)) == if scope == Global then [map[input := Str(text)]] else []
    ensures Reported(options, hits, endpoint, ListingOf(endpoint, input, text))
  {
    hide ReducedBy, InputsFor, AbsorbAll;
    var record: Record := map[input := Str(text)];
    assert input in record;
    AbsorbOne(record);
    assert (set each | each in [record]) == {record};
    assert ListingOf(endpoint, input, text).targets[0].scope == Global;
  }

  lemma HitIsReported(text: string, i: nat, endpoint: string, input: string)
    requires i < 2 && TwoHits(text)[i] == HitOf(endpoint, input, text) && (endpoint == "p" || endpoint == "q")
    ensures Reported(TwoOptions(), TwoHits(text), endpoint, ListingOf(endpoint, input, text))
  {
    assert "p"[0] == 'p' && "q"[0] == 'q';
    hide Reported, ReducedBy, InputsFor, ListingOf;
    SoleHit(TwoHits(text), i);
    ListingIsReported(TwoOptions(), TwoHits(text), endpoint, input, text);
  }

  lemma BothReported(options: Options, hits: seq<Contribution>, first: EndpointImpact, second: EndpointImpact)
    requires |options.manifest| == 2
    requires Reported(options, hits, options.manifest[0].endpoint, first)
    requires Reported(options, hits, options.manifest[1].endpoint, second)
    ensures AllReported(options, hits, [first, second])
  {
    hide Reported;
  }

  lemma TwoIsReported(text: string)
    ensures Registered(TwoOptions(), [LongFact(text)])
    ensures AllReported(TwoOptions(), AllHits(TwoOptions(), [LongFact(text)]), TwoImpact(text))
  {
    HitsOfTwo(text);
    HitIsReported(text, 0, "p", "pp");
    HitIsReported(text, 1, "q", "q");
    hide AllReported, AllHits, Reported, TwoHits, ListingOf, Registered, LongFact;
    BothReported(TwoOptions(), TwoHits(text), ListingOf("p", "pp", text), ListingOf("q", "q", text));
  }

  // ------------------------------------------------------------- what it costs

  lemma ListingBytes(endpoint: string, input: string, text: string)
    ensures EndpointBytes(AsciiSizes(), ListingOf(endpoint, input, text)) == |endpoint| + |input| + |text| + 103
    ensures ScopedBytes(AsciiSizes(), ListingOf(endpoint, input, text).targets[0]) == |input| + |text| + 66
  {
    var sizes := AsciiSizes();
    var value := ListingOf(endpoint, input, text);
    var values := [map[input := Str(text)]];
    RecordTextOne(input, Str(text));
    assert values[..0] == [] && value.targets[..0] == [];
    assert RecordBytes(sizes, values) == sizes.record(values[0]) == |input| + |text| + 7;
    assert TargetsBytes(sizes, value.targets) == 61 + sizes.record(values[0]);
    assert sizes.text(endpoint) == |endpoint| + 2;
  }

  /** Two lists of 70000 characters are too much, one is not. */
  lemma TwoBytes(text: string)
    requires |text| == 70000
    ensures ImpactBytes(AsciiSizes(), TwoImpact(text)) > IMPACT_BYTES
    ensures ImpactBytes(AsciiSizes(), Starved(TwoImpact(text), 0)) <= IMPACT_BYTES
  {
    var sizes, exact := AsciiSizes(), TwoImpact(text);
    var starved := Starved(exact, 0);
    ListingBytes("p", "pp", text);
    ListingBytes("q", "q", text);
    CodesFloor({CatalogDrift});
    assert sizes.text("q") == 3 && starved[1] == EndpointImpact("q", LEAST, []) && starved[0] == exact[0];
    assert EndpointBytes(sizes, starved[1]) == 54;
    hide EndpointBytes, ListingOf;
    EntriesOfTwo(sizes, exact);
    EntriesOfTwo(sizes, starved);
  }

  lemma EntriesOfTwo(sizes: Sizes, impact: Impact)
    ensures |impact| == 2 ==>
      EntriesBytes(sizes, impact) == EndpointBytes(sizes, impact[0]) + EndpointBytes(sizes, impact[1]) + 1
  {
    hide EndpointBytes;
    if |impact| == 2 {
      assert impact[..1][..0] == [];
      assert EntriesBytes(sizes, impact[..1]) == EndpointBytes(sizes, impact[0]);
    }
  }

  /** The sizes are possible and the log holds the fact as it is. */
  lemma LongFactIsAccepted(text: string)
    requires |text| == 70000
    ensures Plausible(AsciiSizes()) && FactBytes(AsciiSizes(), LongFact(text)) + 2 <= FACT_BYTES
  {
    var sizes, fact := AsciiSizes(), LongFact(text);
    RecordTextOne("k", Str(text));
    assert sizes.text("t") == 3 && sizes.scalar(Null) == 4;
    assert sizes.record(map["k" := Str(text)]) == |text| + 8;
    assert RowBytes(sizes, fact.after) == |text| + 47 && RowBytes(sizes, fact.before) == 17;
  }

  /** The manifest passes validation. */
  lemma ManifestIsAccepted()
    ensures FitsBroad(AsciiSizes(), ManifestEndpoints(TwoOptions().manifest)) && DistinctEndpoints(TwoOptions().manifest)
  {
    var sizes, endpoints := AsciiSizes(), ["p", "q"];
    assert sizes.text("p") == 3 && sizes.text("q") == 3;
    assert ManifestEndpoints(TwoOptions().manifest) == endpoints;
    assert endpoints[..1][..0] == [];
    assert BroadBytes(sizes, endpoints[..1]) == BroadEndpointBytes(sizes, "p") == 278;
    assert BroadEndpointBytes(sizes, "q") == 278;
    assert "p"[0] == 'p' && "q"[0] == 'q';
  }

  /** Over the budget something must go, and then the larger has gone. */
  lemma LargerGoes(text: string, bounded: Impact)
    requires |text| == 70000 && BoundsTo(AsciiSizes(), TwoImpact(text), bounded)
    ensures |bounded| == 2 && TakesAll(bounded[0], true)
  {
    var exact := TwoImpact(text);
    TwoBytes(text);
    ListingBytes("p", "pp", text);
    ListingBytes("q", "q", text);
    hide ScopedBytes, ImpactBytes;
    assert forall i :: 0 <= i < 2 ==> EndpointWidened(exact[i], bounded[i]) && TargetWidened(exact[i].targets[0], bounded[i].targets[0]);
    NothingWidened(exact, bounded);
  }

  lemma NothingWidened(exact: Impact, bounded: Impact)
    requires |exact| == |bounded| == 2 && forall i :: 0 <= i < 2 ==> EndpointWidened(exact[i], bounded[i])
    requires |exact[0].targets| == |exact[1].targets| == |bounded[0].targets| == |bounded[1].targets| == 1
    ensures bounded[0].targets[0] == exact[0].targets[0] && bounded[1].targets[0] == exact[1].targets[0] ==> bounded == exact
  {
    if bounded[0].targets[0] == exact[0].targets[0] && bounded[1].targets[0] == exact[1].targets[0] {
      assert bounded[0].targets == exact[0].targets && bounded[1].targets == exact[1].targets;
      assert bounded[0] == exact[0] && bounded[1] == exact[1];
    }
  }

  // --------------------------------------------------------------------- the run

  /** One set of facts under two reports: what is reported before bounding, and a cached input. */
  datatype Narrowed = Narrowed(
    a: Options, b: Options, facts: seq<WriteFact>, exactA: Impact, exactB: Impact, input: Input)
  {
    /** The second report is worse at every endpoint, and these are the two outcomes before bounding. */
    ghost predicate Happens() {
      && Worsened(a, b) && Coded(b.assessment) && Registered(a, facts) && Registered(b, facts)
      && AllReported(a, AllHits(a, facts), exactA) && AllReported(b, AllHits(b, facts), exactB)
    }

    /** The sizes are possible, the manifest passes validation and the log holds the facts as they are. */
    ghost predicate Accepted() {
      && Plausible(a.sizes) && FitsBroad(a.sizes, ManifestEndpoints(a.manifest))
      && |facts| == 1 && FactBytes(a.sizes, facts[0]) + 2 <= FACT_BYTES
    }

    /** However each is bounded, the first endpoint selects the input under the better report only. */
    ghost predicate Loses() {
      && (forall impact: Impact :: BoundsTo(a.sizes, exactA, impact) ==> impact != [] && Selects(a.coerce, impact[0], input, true))
      && forall impact: Impact :: BoundsTo(b.sizes, exactB, impact) ==> impact != [] && !Selects(b.coerce, impact[0], input, true)
    }
  }

  /**
   It happens. One inserted row with a text of 70000 characters reaches two endpoints. With both verified the
   impact is too large and the first endpoint is widened to `all`; with the second one unavailable the rest
   fits, and an input the first endpoint used to select is not selected any more.
   */
  lemma BoundingMayNarrow(text: string) returns (run: Narrowed)
    requires |text| == 70000
    ensures run.Happens() && run.Accepted() && run.Loses()
  {
    hide Narrowed.Happens, Narrowed.Accepted, Narrowed.Loses;
    ManifestIsAccepted();
    var exact := TwoImpact(text);
    var b := TwoOptions().(assessment := Some(StarvingReport(TwoOptions().manifest, exact, 0)));
    run := Narrowed(TwoOptions(), b, [LongFact(text)], exact, Starved(exact, 0), Blind(exact[0]));
    RunHappens(text, run);
    RunIsAccepted(text, run);
    RunLoses(text, run);
  }

  lemma RunHappens(text: string, run: Narrowed)
    requires |text| == 70000 && DistinctEndpoints(TwoOptions().manifest)
    requires run == Narrowed(
      TwoOptions(), TwoOptions().(assessment := Some(StarvingReport(TwoOptions().manifest, TwoImpact(text), 0))),
      [LongFact(text)], TwoImpact(text), Starved(TwoImpact(text), 0), Blind(TwoImpact(text)[0]))
    ensures run.Happens()
  {
    TwoIsReported(text);
    assert ReportRank(run.a.assessment, run.a.manifest[0].endpoint) == 0;
    hide AllHits, AllReported, Worsened, Coded, Registered, TwoOptions, TwoImpact, Starved, StarvingReport;
    StarvedIsReported(run.a, run.facts, run.exactA, 0);
  }

  lemma RunIsAccepted(text: string, run: Narrowed)
    requires |text| == 70000 && run.a == TwoOptions() && run.facts == [LongFact(text)]
    ensures run.Accepted()
  {
    LongFactIsAccepted(text);
    ManifestIsAccepted();
    hide FitsBroad, Plausible, FactBytes, ManifestEndpoints;
  }

  lemma RunLoses(text: string, run: Narrowed)
    requires |text| == 70000 && run.a.sizes == run.b.sizes == AsciiSizes()
    requires run.exactA == TwoImpact(text) && run.exactB == Starved(TwoImpact(text), 0) && run.input == Blind(TwoImpact(text)[0])
    ensures run.Loses()
  {
    hide BoundsTo, ImpactBytes, Selects, TakesAll, TwoImpact, Blind, Constrained, AsciiSizes;
    FirstIsConstrained(text);
    TwoBytes(text);
    forall impact: Impact | BoundsTo(run.a.sizes, run.exactA, impact)
      ensures impact != [] && Selects(run.a.coerce, impact[0], run.input, true)
    {
      LargerGoes(text, impact);
      TakesAllSelects(run.a.coerce, impact[0], run.input, true);
    }
    FittingStays(run.b.sizes, run.exactB);
    BlindMisses(run.b.coerce, run.exactB[0], true);
  }

  lemma FirstIsConstrained(text: string)
    ensures var exact := TwoImpact(text);
      |exact| == 2 && Starved(exact, 0)[0] == exact[0] && Constrained(exact[0]) && !TakesAll(exact[0], true)
  {
    var record: Record := map["pp" := Str(text)];
    assert "pp" in record;
  }
}
