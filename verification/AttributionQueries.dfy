/** The summary and coverage queries, with GROUP BY and FULL OUTER JOIN spelled out over sequences. */
module AttributionQueries {
  import opened Options
  import opened Folds
  import opened Grouping
  import opened Attribution

  /** A request with what the two subqueries of the summary answered for it; on a tie they may differ. */
  datatype Charge = Charge(request: Request, forStatus: Option<Outcome>, forKind: Option<Outcome>)

  predicate ValidCharges(rs: seq<Request>, os: seq<Outcome>, q: Query, cs: seq<Charge>) {
    |cs| == |rs| &&
    forall i :: 0 <= i < |rs| ==>
                  cs[i].request == rs[i] && IsFirst(os, rs[i], q, cs[i].forStatus) && IsFirst(os, rs[i], q, cs[i].forKind)
  }

  predicate InQuery(r: Request, q: Query) {
    r.workspace == q.workspace && r.ts >= q.cutoff
  }

  predicate Tagged(r: Request, q: Query) {
    InQuery(r, q) && r.workflow.Some?
  }

  function ChargedStatus(c: Charge): Option<Status> {
    if c.forStatus.Some? then Some(c.forStatus.value.status) else None
  }

  /** `NULLIF(metadata->>'outcome_type', '')` */
  function KindName(o: Outcome): Option<string> {
    if o.kind == Some("") then None else o.kind
  }

  datatype GroupKey = GroupKey(workflow: string, kind: string)

  function WorkflowName(r: Request): string {
    if r.workflow.Some? then r.workflow.value else ""
  }

  /** The spend groups: an outcome without a type name falls in with the unattributed. */
  function SpendKey(c: Charge): GroupKey {
    var kind := if c.forKind.Some? then KindName(c.forKind.value) else None;
    GroupKey(WorkflowName(c.request), if kind.Some? then kind.value else "unattributed")
  }

  /** The outcome groups: an outcome without a type name is unspecified. */
  function CountKey(o: Outcome): GroupKey {
    GroupKey(o.workflow, if KindName(o).Some? then KindName(o).value else "unspecified")
  }

  datatype Measure = CostTotal | CostAccepted | CostRework | CostUnattributed

  predicate Measures(m: Measure, st: Option<Status>) {
    match m
    case CostTotal => true
    case CostAccepted => st == Some(Accepted)
    case CostRework => st == Some(Rejected) || st == Some(Failed)
    case CostUnattributed => st.None?
  }

  /** `SUM(cost_usd) FILTER (WHERE ...)` over the tagged requests, one request at a time. */
  function Weight(q: Query, m: Measure): Charge -> int {
    (c: Charge) => if Tagged(c.request, q) && Measures(m, ChargedStatus(c)) then c.request.cost else 0
  }

  function CountWeight(q: Query, st: Status): Outcome -> int {
    (o: Outcome) => if o.workspace == q.workspace && o.time >= q.cutoff && o.status == st then 1 else 0
  }

  // ---- the common table expressions ----

  datatype SpendRow = SpendRow(key: GroupKey, total: int, accepted: int, rework: int, unattributed: int)
  datatype CountRow = CountRow(key: GroupKey, accepted: int, rejected: int, failed: int)

  function TaggedOnly(cs: seq<Charge>, q: Query): seq<Charge> {
    if cs == [] then [] else (if Tagged(cs[0].request, q) then [cs[0]] else []) + TaggedOnly(cs[1..], q)
  }

  function InWindowOnly(os: seq<Outcome>, q: Query): seq<Outcome> {
    if os == [] then []
    else (if os[0].workspace == q.workspace && os[0].time >= q.cutoff then [os[0]] else []) + InWindowOnly(os[1..], q)
  }

  function SpendRows(ks: seq<GroupKey>, cs: seq<Charge>, q: Query): seq<SpendRow> {
    if ks == [] then []
    else
      [SpendRow(ks[0],
                Column(cs, SpendKey, Weight(q, CostTotal))(ks[0]),
                Column(cs, SpendKey, Weight(q, CostAccepted))(ks[0]),
                Column(cs, SpendKey, Weight(q, CostRework))(ks[0]),
                Column(cs, SpendKey, Weight(q, CostUnattributed))(ks[0]))] + SpendRows(ks[1..], cs, q)
  }

  function CountRows(ks: seq<GroupKey>, os: seq<Outcome>, q: Query): seq<CountRow> {
    if ks == [] then []
    else
      [CountRow(ks[0],
                Column(os, CountKey, CountWeight(q, Accepted))(ks[0]),
                Column(os, CountKey, CountWeight(q, Rejected))(ks[0]),
                Column(os, CountKey, CountWeight(q, Failed))(ks[0]))] + CountRows(ks[1..], os, q)
  }

  function SpendKeys(cs: seq<Charge>, q: Query): seq<GroupKey> {
    Distinct(Keys(TaggedOnly(cs, q), SpendKey))
  }

  function CountKeys(os: seq<Outcome>, q: Query): seq<GroupKey> {
    Distinct(Keys(InWindowOnly(os, q), CountKey))
  }

  // ---- the join ----

  datatype SummaryRow = SummaryRow(key: GroupKey, total: int, accepted: int, rework: int, unattributed: int,
                                   acceptedCount: int, rejectedCount: int, failedCount: int)

  /** One spend row against every count row with its key. */
  function Pairs(s: SpendRow, cs: seq<CountRow>): seq<SummaryRow> {
    if cs == [] then []
    else (if cs[0].key == s.key then
            [SummaryRow(s.key, s.total, s.accepted, s.rework, s.unattributed, cs[0].accepted, cs[0].rejected, cs[0].failed)]
          else []) + Pairs(s, cs[1..])
  }

  /** A spend row that meets no count row still appears, with zero counts. */
  function LeftRows(s: SpendRow, cs: seq<CountRow>): seq<SummaryRow> {
    if Pairs(s, cs) == [] then [SummaryRow(s.key, s.total, s.accepted, s.rework, s.unattributed, 0, 0, 0)] else Pairs(s, cs)
  }

  function JoinLeft(ss: seq<SpendRow>, cs: seq<CountRow>): seq<SummaryRow> {
    if ss == [] then [] else LeftRows(ss[0], cs) + JoinLeft(ss[1..], cs)
  }

  predicate HasKey(ss: seq<SpendRow>, k: GroupKey) {
    exists s :: s in ss && s.key == k
  }

  /** A count row that met no spend row appears with zero costs. */
  function JoinRight(ss: seq<SpendRow>, cs: seq<CountRow>): seq<SummaryRow> {
    if cs == [] then []
    else (if HasKey(ss, cs[0].key) then []
          else [SummaryRow(cs[0].key, 0, 0, 0, 0, cs[0].accepted, cs[0].rejected, cs[0].failed)]) + JoinRight(ss, cs[1..])
  }

  function FullOuterJoin(ss: seq<SpendRow>, cs: seq<CountRow>): seq<SummaryRow> {
    JoinLeft(ss, cs) + JoinRight(ss, cs)
  }

  /** The summary query up to the order of its rows. */
  function Summary(cs: seq<Charge>, os: seq<Outcome>, q: Query): seq<SummaryRow> {
    FullOuterJoin(SpendRows(SpendKeys(cs, q), cs, q), CountRows(CountKeys(os, q), os, q))
  }

  // ---- coverage ----

  datatype CoverageRow = CoverageRow(workflow: Option<string>, total: int, attributed: int, accepted: int, rework: int)

  datatype CoverageMeasure = AllSpend | AttributedSpend | AcceptedSpend | ReworkSpend

  function WorkflowOf(c: Charge): Option<string> {
    c.request.workflow
  }

  /** The coverage query keeps untagged requests, with no status. */
  function CoverageStatus(c: Charge): Option<Status> {
    if c.request.workflow.None? then None else ChargedStatus(c)
  }

  function CoverageWeight(q: Query, m: CoverageMeasure): Charge -> int {
    (c: Charge) =>
      if !InQuery(c.request, q) then 0
      else
        var st := CoverageStatus(c);
        var counted := match m
                       case AllSpend => true
                       case AttributedSpend => st.Some?
                       case AcceptedSpend => st == Some(Accepted)
                       case ReworkSpend => st == Some(Rejected) || st == Some(Failed);
        if counted then c.request.cost else 0
  }

  function InQueryOnly(cs: seq<Charge>, q: Query): seq<Charge> {
    if cs == [] then [] else (if InQuery(cs[0].request, q) then [cs[0]] else []) + InQueryOnly(cs[1..], q)
  }

  function CoverageRows(ks: seq<Option<string>>, cs: seq<Charge>, q: Query): seq<CoverageRow> {
    if ks == [] then []
    else
      [CoverageRow(ks[0],
                   Column(cs, WorkflowOf, CoverageWeight(q, AllSpend))(ks[0]),
                   Column(cs, WorkflowOf, CoverageWeight(q, AttributedSpend))(ks[0]),
                   Column(cs, WorkflowOf, CoverageWeight(q, AcceptedSpend))(ks[0]),
                   Column(cs, WorkflowOf, CoverageWeight(q, ReworkSpend))(ks[0]))] + CoverageRows(ks[1..], cs, q)
  }

  function CoverageKeys(cs: seq<Charge>, q: Query): seq<Option<string>> {
    Distinct(Keys(InQueryOnly(cs, q), WorkflowOf))
  }

  /** The coverage query up to the order of its rows. */
  function Coverage(cs: seq<Charge>, q: Query): seq<CoverageRow> {
    CoverageRows(CoverageKeys(cs, q), cs, q)
  }

  datatype CoverageReport = CoverageReport(total: int, attributed: int, unattributed: int, untagged: int,
                                           accepted: int, rework: int, breakdown: seq<CoverageRow>)

  function TotalOf(r: CoverageRow): int { r.total }
  function AttributedOf(r: CoverageRow): int { r.attributed }
  function AcceptedOf(r: CoverageRow): int { r.accepted }
  function ReworkOf(r: CoverageRow): int { r.rework }
  function UntaggedOf(r: CoverageRow): int { if r.workflow.None? then r.total else 0 }

  /** `outcomes_coverage`: running totals over all rows, and only then the cut to the requested breakdown. */
  method ReportCoverage(rows: seq<CoverageRow>, limit: nat) returns (report: CoverageReport)
    ensures report.total == Sum(rows, TotalOf) && report.attributed == Sum(rows, AttributedOf)
    ensures report.accepted == Sum(rows, AcceptedOf) && report.rework == Sum(rows, ReworkOf)
    ensures report.untagged == Sum(rows, UntaggedOf)
    ensures report.unattributed == report.total - report.attributed - report.untagged
    ensures report.breakdown <= rows && |report.breakdown| == if limit <= |rows| then limit else |rows|
  {
    var total, attributed, accepted, rework, untagged := 0, 0, 0, 0, 0;
    for i := 0 to |rows|
      invariant total == Sum(rows[..i], TotalOf) && attributed == Sum(rows[..i], AttributedOf)
      invariant accepted == Sum(rows[..i], AcceptedOf) && rework == Sum(rows[..i], ReworkOf)
      invariant untagged == Sum(rows[..i], UntaggedOf)
    {
      var r := rows[i];
      assert rows[..i + 1] == rows[..i] + [r];
      SumAppend(rows[..i], r, TotalOf);
      SumAppend(rows[..i], r, AttributedOf);
      SumAppend(rows[..i], r, AcceptedOf);
      SumAppend(rows[..i], r, ReworkOf);
      SumAppend(rows[..i], r, UntaggedOf);
      total, attributed, accepted, rework := total + r.total, attributed + r.attributed, accepted + r.accepted, rework + r.rework;
      if r.workflow.None? {
        untagged := untagged + r.total;
      }
    }
    assert rows[..|rows|] == rows;
    report := CoverageReport(total, attributed, total - attributed - untagged, untagged, accepted, rework,
                             if limit <= |rows| then rows[..limit] else rows);
  }
}
