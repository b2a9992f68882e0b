/** Nothing is lost or counted twice between the requests, the groups, the join and the two reports. */
module AttributionTotals {
  import opened Options
  import opened Folds
  import opened Grouping
  import opened Attribution
  import opened AttributionQueries

  // ---- groups ----

  lemma {:induction false} TaggedOnlyHas(cs: seq<Charge>, q: Query, c: Charge)
    ensures c in TaggedOnly(cs, q) <==> c in cs && Tagged(c.request, q)
  {
    if cs != [] {
      TaggedOnlyHas(cs[1..], q, c);
    }
  }

  lemma {:induction false} InWindowOnlyHas(os: seq<Outcome>, q: Query, o: Outcome)
    ensures o in InWindowOnly(os, q) <==> o in os && o.workspace == q.workspace && o.time >= q.cutoff
  {
    if os != [] {
      InWindowOnlyHas(os[1..], q, o);
    }
  }

  lemma {:induction false} InQueryOnlyHas(cs: seq<Charge>, q: Query, c: Charge)
    ensures c in InQueryOnly(cs, q) <==> c in cs && InQuery(c.request, q)
  {
    if cs != [] {
      InQueryOnlyHas(cs[1..], q, c);
    }
  }

  lemma KeyOccurs<T, K>(items: seq<T>, key: T -> K, x: T)
    requires x in items
    ensures key(x) in Distinct(Keys(items, key))
  {
    var ks := Keys(items, key);
    DistinctKeys(ks);
    var i :| 0 <= i < |items| && items[i] == x;
    assert ks[i] == key(x);
    assert ks[i] in ks;
    assert ks[i] in Distinct(ks);
  }

  function CostOf(m: Measure): SpendRow -> int {
    (r: SpendRow) => match m
      case CostTotal => r.total
      case CostAccepted => r.accepted
      case CostRework => r.rework
      case CostUnattributed => r.unattributed
  }

  lemma {:induction false} SpendColumn(ks: seq<GroupKey>, cs: seq<Charge>, q: Query, m: Measure)
    ensures Sum(SpendRows(ks, cs, q), CostOf(m)) == Sum(ks, Column(cs, SpendKey, Weight(q, m)))
    ensures |SpendRows(ks, cs, q)| == |ks|
    ensures forall i :: 0 <= i < |ks| ==> SpendRows(ks, cs, q)[i].key == ks[i]
  {
    if ks != [] {
      SpendColumn(ks[1..], cs, q, m);
    }
  }

  /** Every measure of the spend groups sums to that measure of the tagged requests. */
  lemma SpendGroupsConserve(cs: seq<Charge>, q: Query, m: Measure)
    ensures Sum(SpendRows(SpendKeys(cs, q), cs, q), CostOf(m)) == Sum(cs, Weight(q, m))
  {
    var ks := SpendKeys(cs, q);
    DistinctKeys(Keys(TaggedOnly(cs, q), SpendKey));
    forall c | c in cs && Weight(q, m)(c) != 0
      ensures SpendKey(c) in ks
    {
      TaggedOnlyHas(cs, q, c);
      KeyOccurs(TaggedOnly(cs, q), SpendKey, c);
    }
    SpendColumn(ks, cs, q, m);
    GroupsPartition(cs, SpendKey, Weight(q, m), ks);
  }

  function CountAs(r: CountRow, st: Status): int {
    match st
    case Accepted => r.accepted
    case Rejected => r.rejected
    case Failed => r.failed
  }

  function CountOf(st: Status): CountRow -> int {
    (r: CountRow) => CountAs(r, st)
  }

  lemma {:induction false} CountColumn(ks: seq<GroupKey>, os: seq<Outcome>, q: Query, st: Status)
    ensures Sum(CountRows(ks, os, q), CountOf(st)) == Sum(ks, Column(os, CountKey, CountWeight(q, st)))
    ensures |CountRows(ks, os, q)| == |ks|
    ensures forall i :: 0 <= i < |ks| ==> CountRows(ks, os, q)[i].key == ks[i]
  {
    if ks != [] {
      CountColumn(ks[1..], os, q, st);
    }
  }

  lemma CountGroupsConserve(os: seq<Outcome>, q: Query, st: Status)
    ensures Sum(CountRows(CountKeys(os, q), os, q), CountOf(st)) == Sum(os, CountWeight(q, st))
  {
    var ks := CountKeys(os, q);
    DistinctKeys(Keys(InWindowOnly(os, q), CountKey));
    forall o | o in os && CountWeight(q, st)(o) != 0
      ensures CountKey(o) in ks
    {
      InWindowOnlyHas(os, q, o);
      KeyOccurs(InWindowOnly(os, q), CountKey, o);
    }
    CountColumn(ks, os, q, st);
    GroupsPartition(os, CountKey, CountWeight(q, st), ks);
  }

  // ---- the full outer join ----

  predicate UniqueSpend(ss: seq<SpendRow>) {
    forall i, j :: 0 <= i < j < |ss| ==> ss[i].key != ss[j].key
  }

  predicate UniqueCounts(cs: seq<CountRow>) {
    forall i, j :: 0 <= i < j < |cs| ==> cs[i].key != cs[j].key
  }

  function JoinedCost(m: Measure): SummaryRow -> int {
    (r: SummaryRow) => match m
      case CostTotal => r.total
      case CostAccepted => r.accepted
      case CostRework => r.rework
      case CostUnattributed => r.unattributed
  }

  function JoinedCount(st: Status): SummaryRow -> int {
    (r: SummaryRow) => match st
      case Accepted => r.acceptedCount
      case Rejected => r.rejectedCount
      case Failed => r.failedCount
  }

  /** A spend row meets at most one count row, so its cost appears once. */
  lemma {:induction false} PairsCarryCostOnce(s: SpendRow, cs: seq<CountRow>, m: Measure)
    requires UniqueCounts(cs)
    ensures |Pairs(s, cs)| <= 1
    ensures Pairs(s, cs) != [] ==> Sum(Pairs(s, cs), JoinedCost(m)) == CostOf(m)(s)
    ensures Pairs(s, cs) == [] <==> forall c :: c in cs ==> c.key != s.key
  {
    if cs != [] {
      assert UniqueCounts(cs[1..]) by {
        forall i, j | 0 <= i < j < |cs[1..]|
          ensures cs[1..][i].key != cs[1..][j].key
        {
          assert cs[i + 1].key != cs[j + 1].key;
        }
      }
      PairsCarryCostOnce(s, cs[1..], m);
      if cs[0].key == s.key {
        assert forall c :: c in cs[1..] ==> c.key != s.key by {
          forall j | 0 <= j < |cs[1..]|
            ensures cs[1..][j].key != s.key
          {
            assert cs[0].key != cs[j + 1].key;
          }
        }
      }
    }
  }

  lemma {:induction false} JoinLeftCost(ss: seq<SpendRow>, cs: seq<CountRow>, m: Measure)
    requires UniqueCounts(cs)
    ensures Sum(JoinLeft(ss, cs), JoinedCost(m)) == Sum(ss, CostOf(m))
    decreases ss
  {
    if ss != [] {
      PairsCarryCostOnce(ss[0], cs, m);
      SumConcat(LeftRows(ss[0], cs), JoinLeft(ss[1..], cs), JoinedCost(m));
      JoinLeftCost(ss[1..], cs, m);
    }
  }

  lemma {:induction false} JoinRightCost(ss: seq<SpendRow>, cs: seq<CountRow>, m: Measure)
    ensures Sum(JoinRight(ss, cs), JoinedCost(m)) == 0
    decreases cs
  {
    if cs != [] {
      JoinRightCost(ss, cs[1..], m);
      if !HasKey(ss, cs[0].key) {
        assert JoinRight(ss, cs)[1..] == JoinRight(ss, cs[1..]);
      } else {
        assert JoinRight(ss, cs) == JoinRight(ss, cs[1..]);
      }
    }
  }

  /** No cost is lost or repeated by the join. */
  lemma JoinKeepsCosts(ss: seq<SpendRow>, cs: seq<CountRow>, m: Measure)
    requires UniqueCounts(cs)
    ensures Sum(FullOuterJoin(ss, cs), JoinedCost(m)) == Sum(ss, CostOf(m))
  {
    SumConcat(JoinLeft(ss, cs), JoinRight(ss, cs), JoinedCost(m));
    JoinLeftCost(ss, cs, m);
    JoinRightCost(ss, cs, m);
  }

  /** The count rows some spend row in `ss` meets. */
  function Met(ss: seq<SpendRow>, st: Status): CountRow -> int {
    (c: CountRow) => if HasKey(ss, c.key) then CountAs(c, st) else 0
  }

  function MetBy(k: GroupKey, st: Status): CountRow -> int {
    (c: CountRow) => if c.key == k then CountAs(c, st) else 0
  }

  function Unmet(ss: seq<SpendRow>, st: Status): CountRow -> int {
    (c: CountRow) => if HasKey(ss, c.key) then 0 else CountAs(c, st)
  }

  lemma {:induction false} LeftRowsCount(s: SpendRow, cs: seq<CountRow>, st: Status)
    ensures Sum(LeftRows(s, cs), JoinedCount(st)) == Sum(cs, MetBy(s.key, st))
    ensures Sum(Pairs(s, cs), JoinedCount(st)) == Sum(cs, MetBy(s.key, st))
  {
    if cs != [] {
      LeftRowsCount(s, cs[1..], st);
      if cs[0].key == s.key {
        assert Pairs(s, cs)[1..] == Pairs(s, cs[1..]);
      } else {
        assert Pairs(s, cs) == Pairs(s, cs[1..]);
      }
    }
  }

  lemma {:induction false} JoinLeftCount(ss: seq<SpendRow>, cs: seq<CountRow>, st: Status)
    requires UniqueSpend(ss)
    ensures Sum(JoinLeft(ss, cs), JoinedCount(st)) == Sum(cs, Met(ss, st))
    decreases ss
  {
    if ss == [] {
      SumZero(cs, Met(ss, st));
    } else {
      assert UniqueSpend(ss[1..]) by {
        forall i, j | 0 <= i < j < |ss[1..]|
          ensures ss[1..][i].key != ss[1..][j].key
        {
          assert ss[i + 1].key != ss[j + 1].key;
        }
      }
      LeftRowsCount(ss[0], cs, st);
      SumConcat(LeftRows(ss[0], cs), JoinLeft(ss[1..], cs), JoinedCount(st));
      JoinLeftCount(ss[1..], cs, st);
      forall c | c in cs
        ensures Met(ss, st)(c) == MetBy(ss[0].key, st)(c) + Met(ss[1..], st)(c)
      {
      }
      SumOfTwo(cs, Met(ss, st), MetBy(ss[0].key, st), Met(ss[1..], st));
    }
  }

  lemma {:induction false} JoinRightCount(ss: seq<SpendRow>, cs: seq<CountRow>, st: Status)
    ensures Sum(JoinRight(ss, cs), JoinedCount(st)) == Sum(cs, Unmet(ss, st))
    decreases cs
  {
    if cs != [] {
      JoinRightCount(ss, cs[1..], st);
      if !HasKey(ss, cs[0].key) {
        assert JoinRight(ss, cs)[1..] == JoinRight(ss, cs[1..]);
      } else {
        assert JoinRight(ss, cs) == JoinRight(ss, cs[1..]);
      }
    }
  }

  /** No outcome is lost or repeated by the join. */
  lemma JoinKeepsCounts(ss: seq<SpendRow>, cs: seq<CountRow>, st: Status)
    requires UniqueSpend(ss)
    ensures Sum(FullOuterJoin(ss, cs), JoinedCount(st)) == Sum(cs, CountOf(st))
  {
    SumConcat(JoinLeft(ss, cs), JoinRight(ss, cs), JoinedCount(st));
    JoinLeftCount(ss, cs, st);
    JoinRightCount(ss, cs, st);
    SumOfTwo(cs, CountOf(st), Met(ss, st), Unmet(ss, st));
  }

  // ---- every row adds up ----

  predicate RowAddsUp(r: SummaryRow) {
    r.total == r.accepted + r.rework + r.unattributed
  }

  predicate SpendAddsUp(r: SpendRow) {
    r.total == r.accepted + r.rework + r.unattributed
  }

  function PartOf(w: Charge -> int, w': Charge -> int): Charge -> int {
    (c: Charge) => w(c) + w'(c)
  }

  /** A charged request is accepted, rework or unattributed, and only one of them. */
  lemma SummaryWeights(c: Charge, q: Query)
    ensures var cost := if Tagged(c.request, q) then c.request.cost else 0;
            Weight(q, CostTotal)(c) == cost &&
            Weight(q, CostAccepted)(c) + Weight(q, CostRework)(c) == (if c.forStatus.Some? then cost else 0) &&
            Weight(q, CostUnattributed)(c) == if c.forStatus.Some? then 0 else cost
  {
    if c.forStatus.Some? {
      match c.forStatus.value.status {
        case Accepted =>
        case Rejected =>
        case Failed =>
      }
    }
  }

  lemma CoverageWeights(c: Charge, q: Query)
    ensures var cost := if InQuery(c.request, q) then c.request.cost else 0;
            CoverageWeight(q, AllSpend)(c) == cost &&
            CoverageWeight(q, AttributedSpend)(c) == (if c.request.workflow.Some? && c.forStatus.Some? then cost else 0) &&
            CoverageWeight(q, AcceptedSpend)(c) + CoverageWeight(q, ReworkSpend)(c) == CoverageWeight(q, AttributedSpend)(c)
  {
    if c.forStatus.Some? {
      match c.forStatus.value.status {
        case Accepted =>
        case Rejected =>
        case Failed =>
      }
    }
  }

  lemma WeightsSplit(c: Charge, q: Query)
    ensures Weight(q, CostTotal)(c) == AttributedWeight(q)(c) + Weight(q, CostUnattributed)(c)
    ensures CoverageWeight(q, AttributedSpend)(c) == CoverageWeight(q, AcceptedSpend)(c) + CoverageWeight(q, ReworkSpend)(c)
    ensures CoverageWeight(q, AllSpend)(c) == CoverageWeight(q, AttributedSpend)(c) + LeftOver(q)(c)
    ensures CoverageWeight(q, AttributedSpend)(c) == AttributedWeight(q)(c)
    ensures AttributedWeight(q)(c) == if Tagged(c.request, q) && c.forStatus.Some? then c.request.cost else 0
  {
    SummaryWeights(c, q);
    CoverageWeights(c, q);
  }

  /** In a group, every cost is accepted, rework or unattributed, and only one of them. */
  lemma GroupAddsUp(cs: seq<Charge>, q: Query, k: GroupKey)
    ensures Column(cs, SpendKey, Weight(q, CostTotal))(k) ==
            Column(cs, SpendKey, Weight(q, CostAccepted))(k) + Column(cs, SpendKey, Weight(q, CostRework))(k)
            + Column(cs, SpendKey, Weight(q, CostUnattributed))(k)
  {
    var t, a := Cell(SpendKey, Weight(q, CostTotal), k), Cell(SpendKey, Weight(q, CostAccepted), k);
    var r, u := Cell(SpendKey, Weight(q, CostRework), k), Cell(SpendKey, Weight(q, CostUnattributed), k);
    forall c | c in cs
      ensures t(c) == PartOf(a, r)(c) + u(c)
    {
      WeightsSplit(c, q);
    }
    SumOfTwo(cs, t, PartOf(a, r), u);
    SumOfTwo(cs, PartOf(a, r), a, r);
  }

  lemma {:induction false} SpendRowsAddUp(ks: seq<GroupKey>, cs: seq<Charge>, q: Query)
    ensures forall r :: r in SpendRows(ks, cs, q) ==> SpendAddsUp(r)
  {
    if ks != [] {
      GroupAddsUp(cs, q, ks[0]);
      SpendRowsAddUp(ks[1..], cs, q);
    }
  }

  lemma {:induction false} PairsAddUp(s: SpendRow, cs: seq<CountRow>)
    requires SpendAddsUp(s)
    ensures forall r :: r in Pairs(s, cs) ==> RowAddsUp(r)
  {
    if cs != [] {
      PairsAddUp(s, cs[1..]);
    }
  }

  lemma {:induction false} JoinLeftAddsUp(ss: seq<SpendRow>, cs: seq<CountRow>)
    requires forall s :: s in ss ==> SpendAddsUp(s)
    ensures forall r :: r in JoinLeft(ss, cs) ==> RowAddsUp(r)
    decreases ss
  {
    if ss != [] {
      PairsAddUp(ss[0], cs);
      JoinLeftAddsUp(ss[1..], cs);
    }
  }

  lemma {:induction false} JoinRightAddsUp(ss: seq<SpendRow>, cs: seq<CountRow>)
    ensures forall r :: r in JoinRight(ss, cs) ==> RowAddsUp(r)
    decreases cs
  {
    if cs != [] {
      JoinRightAddsUp(ss, cs[1..]);
    }
  }

  /** In every row the summary returns, the total is accepted plus rework plus unattributed. */
  lemma SummaryRowsAddUp(cs: seq<Charge>, os: seq<Outcome>, q: Query)
    ensures forall r :: r in Summary(cs, os, q) ==> RowAddsUp(r)
  {
    var ss, ns := SpendRows(SpendKeys(cs, q), cs, q), CountRows(CountKeys(os, q), os, q);
    SpendRowsAddUp(SpendKeys(cs, q), cs, q);
    JoinLeftAddsUp(ss, ns);
    JoinRightAddsUp(ss, ns);
  }

  // ---- totals of the summary, in whatever order its rows come ----

  lemma SummaryKeysAreUnique(cs: seq<Charge>, os: seq<Outcome>, q: Query)
    ensures UniqueSpend(SpendRows(SpendKeys(cs, q), cs, q)) && UniqueCounts(CountRows(CountKeys(os, q), os, q))
  {
    DistinctKeys(Keys(TaggedOnly(cs, q), SpendKey));
    DistinctKeys(Keys(InWindowOnly(os, q), CountKey));
    SpendColumn(SpendKeys(cs, q), cs, q, CostTotal);
    CountColumn(CountKeys(os, q), os, q, Accepted);
  }

  /** Each cost column of the returned rows sums to that measure of the tagged requests, and the
      counts of each status sum to the outcomes of that status in the window. */
  lemma SummaryConserves(cs: seq<Charge>, os: seq<Outcome>, q: Query, rows: seq<SummaryRow>, m: Measure, st: Status)
    requires multiset(rows) == multiset(Summary(cs, os, q))
    ensures Sum(rows, JoinedCost(m)) == Sum(cs, Weight(q, m))
    ensures Sum(rows, JoinedCount(st)) == Sum(os, CountWeight(q, st))
  {
    var ss, ns := SpendRows(SpendKeys(cs, q), cs, q), CountRows(CountKeys(os, q), os, q);
    SummaryKeysAreUnique(cs, os, q);
    SumPermuted(rows, Summary(cs, os, q), JoinedCost(m));
    SumPermuted(rows, Summary(cs, os, q), JoinedCount(st));
    JoinKeepsCosts(ss, ns, m);
    JoinKeepsCounts(ss, ns, st);
    SpendGroupsConserve(cs, q, m);
    CountGroupsConserve(os, q, st);
  }

  /** `get_economics_overview`: a quotient of sums over the summary rows, or nothing when nothing is accepted. */
  function CostPerAccepted(rows: seq<SummaryRow>): Option<real> {
    var n := Sum(rows, JoinedCount(Accepted));
    if n == 0 then None else Some(Sum(rows, JoinedCost(CostTotal)) as real / n as real)
  }

  function TaggedSpend(q: Query): Request -> int {
    (r: Request) => if Tagged(r, q) then r.cost else 0
  }

  /** The overview's unit cost is all tagged spend over all accepted outcomes, whatever ties were broken and
      whatever order the rows came in. */
  lemma OverviewIsTaggedSpendPerAccepted(rs: seq<Request>, os: seq<Outcome>, q: Query, cs: seq<Charge>, rows: seq<SummaryRow>)
    requires ValidCharges(rs, os, q, cs) && multiset(rows) == multiset(Summary(cs, os, q))
    ensures CostPerAccepted(rows) ==
            if Sum(os, CountWeight(q, Accepted)) == 0 then None
            else Some(Sum(rs, TaggedSpend(q)) as real / Sum(os, CountWeight(q, Accepted)) as real)
  {
    SummaryConserves(cs, os, q, rows, CostTotal, Accepted);
    SumPairwise(cs, rs, Weight(q, CostTotal), TaggedSpend(q));
  }

  /** A request's cost lands in the row that counts its outcome exactly when that outcome has a type name; the
      ingest endpoint always writes one, so those without are rows whose metadata lacks it or leaves it empty. */
  lemma CostMeetsCountIffTyped(c: Charge, o: Outcome)
    requires c.forKind == Some(o) && c.request.workflow == Some(o.workflow)
    ensures SpendKey(c) == CountKey(o) <==> KindName(o).Some?
  {
  }

  // ---- the coverage report ----

  function ReportOf(m: CoverageMeasure): CoverageRow -> int {
    (r: CoverageRow) => match m
      case AllSpend => r.total
      case AttributedSpend => r.attributed
      case AcceptedSpend => r.accepted
      case ReworkSpend => r.rework
  }

  lemma {:induction false} CoverageColumn(ks: seq<Option<string>>, cs: seq<Charge>, q: Query, m: CoverageMeasure)
    ensures Sum(CoverageRows(ks, cs, q), ReportOf(m)) == Sum(ks, Column(cs, WorkflowOf, CoverageWeight(q, m)))
  {
    if ks != [] {
      CoverageColumn(ks[1..], cs, q, m);
    }
  }

  function UntaggedWeight(q: Query): Charge -> int {
    (c: Charge) => if InQuery(c.request, q) && c.request.workflow.None? then c.request.cost else 0
  }

  lemma {:induction false} UntaggedRows(ks: seq<Option<string>>, cs: seq<Charge>, q: Query)
    ensures Sum(CoverageRows(ks, cs, q), UntaggedOf) == Sum(ks, Column(cs, WorkflowOf, UntaggedWeight(q)))
  {
    if ks != [] {
      UntaggedRows(ks[1..], cs, q);
      var k := ks[0];
      if k.None? {
        SumSame(cs, Cell(WorkflowOf, CoverageWeight(q, AllSpend), k), Cell(WorkflowOf, UntaggedWeight(q), k));
      } else {
        SumZero(cs, Cell(WorkflowOf, UntaggedWeight(q), k));
      }
    }
  }

  lemma CoverageConserves(cs: seq<Charge>, q: Query, rows: seq<CoverageRow>, m: CoverageMeasure)
    requires multiset(rows) == multiset(Coverage(cs, q))
    ensures Sum(rows, ReportOf(m)) == Sum(cs, CoverageWeight(q, m))
    ensures Sum(rows, UntaggedOf) == Sum(cs, UntaggedWeight(q))
  {
    var ks := CoverageKeys(cs, q);
    DistinctKeys(Keys(InQueryOnly(cs, q), WorkflowOf));
    SumPermuted(rows, Coverage(cs, q), ReportOf(m));
    SumPermuted(rows, Coverage(cs, q), UntaggedOf);
    CoverageColumn(ks, cs, q, m);
    UntaggedRows(ks, cs, q);
    forall c | c in cs && (CoverageWeight(q, m)(c) != 0 || UntaggedWeight(q)(c) != 0)
      ensures WorkflowOf(c) in ks
    {
      InQueryOnlyHas(cs, q, c);
      KeyOccurs(InQueryOnly(cs, q), WorkflowOf, c);
    }
    GroupsPartition(cs, WorkflowOf, CoverageWeight(q, m), ks);
    GroupsPartition(cs, WorkflowOf, UntaggedWeight(q), ks);
  }

  /** All spend in the query, tagged or not. */
  function QuerySpend(q: Query): Request -> int {
    (r: Request) => if InQuery(r, q) then r.cost else 0
  }

  /** The two independently written queries agree, for all ties and row orders. The figures `ReportCoverage`
      gives do not depend on its row limit: its total covers all spend, its unattributed figure (the total less
      attributed less untagged) is the summary's unattributed column, and attributed is accepted plus rework in
      either report. */
  lemma ReportsAgree(rs: seq<Request>, os: seq<Outcome>, q: Query, cs: seq<Charge>, summary: seq<SummaryRow>,
                     cs': seq<Charge>, coverage: seq<CoverageRow>)
    requires ValidCharges(rs, os, q, cs) && multiset(summary) == multiset(Summary(cs, os, q))
    requires ValidCharges(rs, os, q, cs') && multiset(coverage) == multiset(Coverage(cs', q))
    ensures Sum(coverage, TotalOf) == Sum(rs, QuerySpend(q))
    ensures Sum(coverage, TotalOf) - Sum(coverage, AttributedOf) - Sum(coverage, UntaggedOf)
         == Sum(summary, JoinedCost(CostUnattributed))
    ensures Sum(coverage, AttributedOf) == Sum(coverage, AcceptedOf) + Sum(coverage, ReworkOf)
    ensures Sum(coverage, AttributedOf) == Sum(summary, JoinedCost(CostAccepted)) + Sum(summary, JoinedCost(CostRework))
  {
    CoverageFigures(cs', q, coverage);
    SummaryConserves(cs, os, q, summary, CostUnattributed, Accepted);
    SummaryConserves(cs, os, q, summary, CostAccepted, Accepted);
    SummaryConserves(cs, os, q, summary, CostRework, Accepted);
    TiesDoNotMatter(rs, os, q, cs, cs');
  }

  lemma CoverageFigures(cs: seq<Charge>, q: Query, rows: seq<CoverageRow>)
    requires multiset(rows) == multiset(Coverage(cs, q))
    ensures Sum(rows, TotalOf) == Sum(cs, CoverageWeight(q, AllSpend))
    ensures Sum(rows, AttributedOf) == Sum(cs, CoverageWeight(q, AttributedSpend))
    ensures Sum(rows, AcceptedOf) + Sum(rows, ReworkOf) == Sum(rows, AttributedOf)
    ensures Sum(rows, UntaggedOf) == Sum(cs, UntaggedWeight(q))
  {
    CoverageConserves(cs, q, rows, AllSpend);
    CoverageConserves(cs, q, rows, AttributedSpend);
    CoverageConserves(cs, q, rows, AcceptedSpend);
    CoverageConserves(cs, q, rows, ReworkSpend);
    SumSame(rows, TotalOf, ReportOf(AllSpend));
    SumSame(rows, AttributedOf, ReportOf(AttributedSpend));
    SumSame(rows, AcceptedOf, ReportOf(AcceptedSpend));
    SumSame(rows, ReworkOf, ReportOf(ReworkSpend));
    forall c | c in cs
      ensures CoverageWeight(q, AttributedSpend)(c) == CoverageWeight(q, AcceptedSpend)(c) + CoverageWeight(q, ReworkSpend)(c)
    {
      WeightsSplit(c, q);
    }
    SumOfTwo(cs, CoverageWeight(q, AttributedSpend), CoverageWeight(q, AcceptedSpend), CoverageWeight(q, ReworkSpend));
  }

  function LeftOver(q: Query): Charge -> int {
    (c: Charge) => Weight(q, CostUnattributed)(c) + UntaggedWeight(q)(c)
  }

  /** Whether a request is attributed does not depend on how ties are broken, so neither do these sums. */
  lemma TiesDoNotMatter(rs: seq<Request>, os: seq<Outcome>, q: Query, cs: seq<Charge>, cs': seq<Charge>)
    requires ValidCharges(rs, os, q, cs) && ValidCharges(rs, os, q, cs')
    ensures Sum(cs', CoverageWeight(q, AllSpend)) == Sum(rs, QuerySpend(q))
    ensures Sum(cs', CoverageWeight(q, AllSpend)) ==
            Sum(cs', CoverageWeight(q, AttributedSpend)) + Sum(cs, Weight(q, CostUnattributed)) + Sum(cs', UntaggedWeight(q))
    ensures Sum(cs', CoverageWeight(q, AttributedSpend)) == Sum(cs, Weight(q, CostAccepted)) + Sum(cs, Weight(q, CostRework))
  {
    forall i | 0 <= i < |rs|
      ensures cs[i].forStatus.None? <==> cs'[i].forStatus.None?
    {
      FirstIsUniqueUpToTies(os, rs[i], q, cs[i].forStatus, cs'[i].forStatus);
    }
    SumPairwise(cs', rs, CoverageWeight(q, AllSpend), QuerySpend(q));
    forall c | c in cs'
      ensures CoverageWeight(q, AllSpend)(c) == CoverageWeight(q, AttributedSpend)(c) + LeftOver(q)(c)
    {
      WeightsSplit(c, q);
    }
    forall i | 0 <= i < |rs|
      ensures CoverageWeight(q, AttributedSpend)(cs'[i]) == AttributedWeight(q)(cs[i])
    {
      WeightsSplit(cs[i], q);
      WeightsSplit(cs'[i], q);
    }
    SumOfTwo(cs', CoverageWeight(q, AllSpend), CoverageWeight(q, AttributedSpend), LeftOver(q));
    SumOfTwo(cs', LeftOver(q), Weight(q, CostUnattributed), UntaggedWeight(q));
    SumPairwise(cs, cs', Weight(q, CostUnattributed), Weight(q, CostUnattributed));
    SumOfTwo(cs, AttributedWeight(q), Weight(q, CostAccepted), Weight(q, CostRework));
    SumPairwise(cs', cs, CoverageWeight(q, AttributedSpend), AttributedWeight(q));
  }

  function AttributedWeight(q: Query): Charge -> int {
    (c: Charge) => Weight(q, CostAccepted)(c) + Weight(q, CostRework)(c)
  }

  /** Enlarging the window only moves spend from unattributed to attributed. */
  lemma WiderWindowMovesSpend(rs: seq<Request>, os: seq<Outcome>, q: Query, wider: int, cs: seq<Charge>, cs': seq<Charge>)
    requires q.window <= wider && ValidCharges(rs, os, q, cs) && ValidCharges(rs, os, q.(window := wider), cs')
    requires forall r :: r in rs ==> r.cost >= 0
    ensures Sum(cs', Weight(q.(window := wider), CostUnattributed)) <= Sum(cs, Weight(q, CostUnattributed))
    ensures Sum(cs', AttributedWeight(q.(window := wider))) >= Sum(cs, AttributedWeight(q))
    ensures Sum(cs', Weight(q.(window := wider), CostTotal)) == Sum(cs, Weight(q, CostTotal))
  {
    var q' := q.(window := wider);
    forall i | 0 <= i < |rs|
      ensures cs[i].forStatus.Some? ==> cs'[i].forStatus.Some?
      ensures cs[i].request == cs'[i].request == rs[i] && rs[i].cost >= 0
      ensures AttributedWeight(q)(cs[i]) <= AttributedWeight(q')(cs'[i])
    {
      assert rs[i] in rs;
      WiderWindowKeepsAttributions(os, rs[i], q, wider, cs[i].forStatus, cs'[i].forStatus);
      WeightsSplit(cs[i], q);
      WeightsSplit(cs'[i], q');
    }
    SumPairwiseAtMost(cs', cs, Weight(q', CostUnattributed), Weight(q, CostUnattributed));
    SumPairwiseAtMost(cs, cs', AttributedWeight(q), AttributedWeight(q'));
    SumPairwise(cs', cs, Weight(q', CostTotal), Weight(q, CostTotal));
  }

  lemma {:induction false} SumPairwiseAtMost<A, B>(a: seq<A>, b: seq<B>, f: A -> int, g: B -> int)
    requires |a| == |b| && forall i :: 0 <= i < |a| ==> f(a[i]) <= g(b[i])
    ensures Sum(a, f) <= Sum(b, g)
  {
    if a != [] {
      SumPairwiseAtMost(a[1..], b[1..], f, g);
    }
  }
}
