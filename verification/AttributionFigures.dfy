/** What the reported figures mean, over the fields of requests and outcomes. */
module AttributionFigures {
  import opened Options
  import opened Folds
  import opened Grouping
  import opened Attribution
  import opened AttributionQueries
  import opened AttributionTotals
  import opened AttributionRows

  /** Which outcomes a request may be charged to: of the query's workspace and the request's workflow, at the request or
      later, before the window ends; and of those one that no other precedes. */
  lemma FirstIsEarliestInWindow(os: seq<Outcome>, r: Request, q: Query, p: Outcome)
    ensures IsFirst(os, r, q, Some(p)) <==>
            p in os && p.workspace == q.workspace && r.workflow == Some(p.workflow) && r.ts <= p.time && p.time < r.ts + q.window &&
            forall o :: o in os && o.workspace == q.workspace && r.workflow == Some(o.workflow) && r.ts <= o.time < p.time
              ==> o.time >= r.ts + q.window
    ensures IsFirst(os, r, q, None) <==>
            forall o :: o in os && o.workspace == q.workspace && r.workflow == Some(o.workflow) && r.ts <= o.time
              ==> o.time >= r.ts + q.window
  {
  }

  const ANY: set<Option<Status>> := {None, Some(Accepted), Some(Rejected), Some(Failed)}
  const CHARGED: set<Option<Status>> := {Some(Accepted), Some(Rejected), Some(Failed)}
  const REWORK: set<Option<Status>> := {Some(Rejected), Some(Failed)}

  predicate StatusIn(p: Option<Outcome>, sts: set<Option<Status>>) {
    (if p.Some? then Some(p.value.status) else None) in sts
  }

  // ---- the summary ----

  /** The cost of a tagged request of the query whose first outcome has one of the statuses. */
  function TaggedCost(q: Query, sts: set<Option<Status>>): Charge -> int {
    (c: Charge) =>
      if c.request.workspace == q.workspace && c.request.ts >= q.cutoff && c.request.workflow.Some? && StatusIn(c.forStatus, sts)
      then c.request.cost else 0
  }

  lemma WeightIsCost(c: Charge, q: Query)
    ensures Weight(q, CostTotal)(c) == TaggedCost(q, ANY)(c)
    ensures Weight(q, CostAccepted)(c) == TaggedCost(q, {Some(Accepted)})(c)
    ensures Weight(q, CostRework)(c) == TaggedCost(q, REWORK)(c)
    ensures Weight(q, CostUnattributed)(c) == TaggedCost(q, {None})(c)
  {
    if c.forStatus.Some? {
      match c.forStatus.value.status {
        case Accepted =>
        case Rejected =>
        case Failed =>
      }
    }
  }

  /** The four cost columns of the summary: all tagged spend of the query, what was charged to accepted outcomes, what to
      rejected and failed ones, and what to none. */
  lemma SummaryColumns(cs: seq<Charge>, os: seq<Outcome>, q: Query, rows: seq<SummaryRow>)
    requires multiset(rows) == multiset(Summary(cs, os, q))
    ensures Sum(rows, JoinedCost(CostTotal)) == Sum(cs, TaggedCost(q, ANY))
    ensures Sum(rows, JoinedCost(CostAccepted)) == Sum(cs, TaggedCost(q, {Some(Accepted)}))
    ensures Sum(rows, JoinedCost(CostRework)) == Sum(cs, TaggedCost(q, REWORK))
    ensures Sum(rows, JoinedCost(CostUnattributed)) == Sum(cs, TaggedCost(q, {None}))
  {
    SummaryColumn(cs, os, q, rows, CostTotal, ANY);
    SummaryColumn(cs, os, q, rows, CostAccepted, {Some(Accepted)});
    SummaryColumn(cs, os, q, rows, CostRework, REWORK);
    SummaryColumn(cs, os, q, rows, CostUnattributed, {None});
  }

  /** The statuses whose cost a column collects. */
  function StatusesOf(m: Measure): set<Option<Status>> {
    match m
    case CostTotal => ANY
    case CostAccepted => {Some(Accepted)}
    case CostRework => REWORK
    case CostUnattributed => {None}
  }

  lemma SummaryColumn(cs: seq<Charge>, os: seq<Outcome>, q: Query, rows: seq<SummaryRow>, m: Measure, sts: set<Option<Status>>)
    requires multiset(rows) == multiset(Summary(cs, os, q)) && sts == StatusesOf(m)
    ensures Sum(rows, JoinedCost(m)) == Sum(cs, TaggedCost(q, sts))
  {
    SummaryConserves(cs, os, q, rows, m, Accepted);
    forall c | c in cs
      ensures Weight(q, m)(c) == TaggedCost(q, sts)(c)
    {
      WeightIsCost(c, q);
    }
    SumSame(cs, Weight(q, m), TaggedCost(q, sts));
  }

  /** The same within one group: requests of the workflow whose outcome has the kind, where one without an outcome, or
      with an outcome that names no kind, counts as "unattributed". */
  function GroupCost(q: Query, k: GroupKey, sts: set<Option<Status>>): Charge -> int {
    (c: Charge) =>
      if c.request.workspace == q.workspace && c.request.ts >= q.cutoff && c.request.workflow == Some(k.workflow)
         && StatusIn(c.forStatus, sts)
         && k.kind == (if c.forKind.Some? && c.forKind.value.kind.Some? && c.forKind.value.kind.value != ""
                       then c.forKind.value.kind.value else "unattributed")
      then c.request.cost else 0
  }

  /** An outcome of the workspace since the cutoff, with this status, workflow and kind; "unspecified" if it names none. */
  function GroupCount(q: Query, k: GroupKey, st: Status): Outcome -> int {
    (o: Outcome) =>
      if o.workspace == q.workspace && o.time >= q.cutoff && o.status == st && o.workflow == k.workflow
         && k.kind == (if o.kind.Some? && o.kind.value != "" then o.kind.value else "unspecified")
      then 1 else 0
  }

  lemma CellIsGroupCost(c: Charge, q: Query, k: GroupKey, m: Measure)
    ensures Cell(SpendKey, Weight(q, m), k)(c) == GroupCost(q, k, StatusesOf(m))(c)
  {
    WeightIsCost(c, q);
  }

  lemma CellsAreGroupCosts(cs: seq<Charge>, q: Query, k: GroupKey, m: Measure)
    ensures Column(cs, SpendKey, Weight(q, m))(k) == Sum(cs, GroupCost(q, k, StatusesOf(m)))
  {
    forall c | c in cs
      ensures Cell(SpendKey, Weight(q, m), k)(c) == GroupCost(q, k, StatusesOf(m))(c)
    {
      CellIsGroupCost(c, q, k, m);
    }
    SumSame(cs, Cell(SpendKey, Weight(q, m), k), GroupCost(q, k, StatusesOf(m)));
  }

  lemma RowCost(cs: seq<Charge>, os: seq<Outcome>, q: Query, r: SummaryRow, m: Measure, sts: set<Option<Status>>)
    requires r in Summary(cs, os, q) && sts == StatusesOf(m)
    ensures JoinedCost(m)(r) == Sum(cs, GroupCost(q, r.key, sts))
  {
    RowsAreGroups(cs, os, q, r, m, Accepted);
    CellsAreGroupCosts(cs, q, r.key, m);
  }

  lemma RowCount(cs: seq<Charge>, os: seq<Outcome>, q: Query, r: SummaryRow, st: Status)
    requires r in Summary(cs, os, q)
    ensures JoinedCount(st)(r) == Sum(os, GroupCount(q, r.key, st))
  {
    RowsAreGroups(cs, os, q, r, CostTotal, st);
    SumSame(os, Cell(CountKey, CountWeight(q, st), r.key), GroupCount(q, r.key, st));
  }

  /** Every field of every row of the summary. */
  lemma SummaryRowMeans(cs: seq<Charge>, os: seq<Outcome>, q: Query, r: SummaryRow)
    requires r in Summary(cs, os, q)
    ensures r.total == Sum(cs, GroupCost(q, r.key, ANY)) && r.accepted == Sum(cs, GroupCost(q, r.key, {Some(Accepted)}))
    ensures r.rework == Sum(cs, GroupCost(q, r.key, REWORK)) && r.unattributed == Sum(cs, GroupCost(q, r.key, {None}))
    ensures r.acceptedCount == Sum(os, GroupCount(q, r.key, Accepted))
    ensures r.rejectedCount == Sum(os, GroupCount(q, r.key, Rejected))
    ensures r.failedCount == Sum(os, GroupCount(q, r.key, Failed))
  {
    RowCost(cs, os, q, r, CostTotal, ANY);
    RowCost(cs, os, q, r, CostAccepted, {Some(Accepted)});
    RowCost(cs, os, q, r, CostRework, REWORK);
    RowCost(cs, os, q, r, CostUnattributed, {None});
    RowCount(cs, os, q, r, Accepted);
    RowCount(cs, os, q, r, Rejected);
    RowCount(cs, os, q, r, Failed);
  }

  // ---- coverage ----

  /** The cost of a request of the query, tagged or not; an untagged one is charged to nothing. */
  function QueryCost(q: Query, sts: set<Option<Status>>): Charge -> int {
    (c: Charge) =>
      if c.request.workspace == q.workspace && c.request.ts >= q.cutoff
         && StatusIn(if c.request.workflow.Some? then c.forStatus else None, sts)
      then c.request.cost else 0
  }

  function UntaggedCost(q: Query): Charge -> int {
    (c: Charge) => if c.request.workspace == q.workspace && c.request.ts >= q.cutoff && c.request.workflow == None then c.request.cost else 0
  }

  function CoverageStatusesOf(m: CoverageMeasure): set<Option<Status>> {
    match m
    case AllSpend => ANY
    case AttributedSpend => CHARGED
    case AcceptedSpend => {Some(Accepted)}
    case ReworkSpend => REWORK
  }

  lemma CoverageWeightIsCost(c: Charge, q: Query, m: CoverageMeasure)
    ensures CoverageWeight(q, m)(c) == QueryCost(q, CoverageStatusesOf(m))(c)
  {
    if c.forStatus.Some? {
      match c.forStatus.value.status {
        case Accepted =>
        case Rejected =>
        case Failed =>
      }
    }
  }

  lemma CoverageColumnMeans(cs: seq<Charge>, q: Query, rows: seq<CoverageRow>, m: CoverageMeasure, sts: set<Option<Status>>)
    requires multiset(rows) == multiset(Coverage(cs, q)) && sts == CoverageStatusesOf(m)
    ensures Sum(rows, ReportOf(m)) == Sum(cs, QueryCost(q, sts))
  {
    CoverageConserves(cs, q, rows, m);
    forall c | c in cs
      ensures CoverageWeight(q, m)(c) == QueryCost(q, sts)(c)
    {
      CoverageWeightIsCost(c, q, m);
    }
    SumSame(cs, CoverageWeight(q, m), QueryCost(q, sts));
  }

  /** The five figures the coverage report adds up: all spend of the query, what was charged to any outcome, to accepted
      ones, to rejected and failed ones, and what carried no workflow. */
  lemma CoverageColumns(cs: seq<Charge>, q: Query, rows: seq<CoverageRow>)
    requires multiset(rows) == multiset(Coverage(cs, q))
    ensures Sum(rows, TotalOf) == Sum(cs, QueryCost(q, ANY)) && Sum(rows, AttributedOf) == Sum(cs, QueryCost(q, CHARGED))
    ensures Sum(rows, AcceptedOf) == Sum(cs, QueryCost(q, {Some(Accepted)})) && Sum(rows, ReworkOf) == Sum(cs, QueryCost(q, REWORK))
    ensures Sum(rows, UntaggedOf) == Sum(cs, UntaggedCost(q))
  {
    CoverageColumnMeans(cs, q, rows, AllSpend, ANY);
    CoverageColumnMeans(cs, q, rows, AttributedSpend, CHARGED);
    CoverageColumnMeans(cs, q, rows, AcceptedSpend, {Some(Accepted)});
    CoverageColumnMeans(cs, q, rows, ReworkSpend, REWORK);
    SumSame(rows, TotalOf, ReportOf(AllSpend));
    SumSame(rows, AttributedOf, ReportOf(AttributedSpend));
    SumSame(rows, AcceptedOf, ReportOf(AcceptedSpend));
    SumSame(rows, ReworkOf, ReportOf(ReworkSpend));
    CoverageConserves(cs, q, rows, AllSpend);
    SumSame(cs, UntaggedWeight(q), UntaggedCost(q));
  }

  function WorkflowCost(q: Query, w: Option<string>, sts: set<Option<Status>>): Charge -> int {
    (c: Charge) => if c.request.workflow == w then QueryCost(q, sts)(c) else 0
  }

  lemma {:induction false} CoverageRowIsGroup(ks: seq<Option<string>>, cs: seq<Charge>, q: Query, r: CoverageRow, m: CoverageMeasure)
    requires r in CoverageRows(ks, cs, q)
    ensures ReportOf(m)(r) == Column(cs, WorkflowOf, CoverageWeight(q, m))(r.workflow)
  {
    if r in CoverageRows(ks[1..], cs, q) {
      CoverageRowIsGroup(ks[1..], cs, q, r, m);
    }
  }

  lemma CoverageRowCost(cs: seq<Charge>, q: Query, r: CoverageRow, m: CoverageMeasure, sts: set<Option<Status>>)
    requires r in Coverage(cs, q) && sts == CoverageStatusesOf(m)
    ensures ReportOf(m)(r) == Sum(cs, WorkflowCost(q, r.workflow, sts))
  {
    CoverageRowIsGroup(CoverageKeys(cs, q), cs, q, r, m);
    forall c | c in cs
      ensures Cell(WorkflowOf, CoverageWeight(q, m), r.workflow)(c) == WorkflowCost(q, r.workflow, sts)(c)
    {
      CoverageWeightIsCost(c, q, m);
    }
    SumSame(cs, Cell(WorkflowOf, CoverageWeight(q, m), r.workflow), WorkflowCost(q, r.workflow, sts));
  }

  /** Every field of every row of the breakdown. */
  lemma CoverageRowMeans(cs: seq<Charge>, q: Query, r: CoverageRow)
    requires r in Coverage(cs, q)
    ensures r.total == Sum(cs, WorkflowCost(q, r.workflow, ANY)) && r.attributed == Sum(cs, WorkflowCost(q, r.workflow, CHARGED))
    ensures r.accepted == Sum(cs, WorkflowCost(q, r.workflow, {Some(Accepted)}))
    ensures r.rework == Sum(cs, WorkflowCost(q, r.workflow, REWORK))
  {
    CoverageRowCost(cs, q, r, AllSpend, ANY);
    CoverageRowCost(cs, q, r, AttributedSpend, CHARGED);
    CoverageRowCost(cs, q, r, AcceptedSpend, {Some(Accepted)});
    CoverageRowCost(cs, q, r, ReworkSpend, REWORK);
  }
}
