/** The savings rollup: one credit per change, given to its best-measured finding. */
module SavingsRollup {
  import opened Options
  import opened Folds
  import opened Totals
  import opened Grouping

  datatype Label = NoBaseline | Pending | NoTraffic | Inconclusive | Verified | Missed | Shared | OpenFindings

  /** The states a verdict can be in; the other two labels only occur as counts. */
  type Verdicted = l: Label | l != Shared && l != OpenFindings witness Pending

  datatype Verdict = Verdict(fingerprint: string, reference: string, cohort: string, status: Verdicted, projected: Option<real>)

  datatype BaselineRow = BaselineRow(fingerprint: string, waste: Option<real>, windowDays: Option<int>)

  const BASELINE_WINDOW_DAYS := 7
  const MIN_VERIFY_REQUESTS := 30

  // ---- one verdict ----

  /** What was measured for a finding: its baseline, and its traffic in the window after the resolve. */
  datatype Measured = Measured(resolved: bool, elapsed: int, windowDays: int, baselineCost: real, baselineRequests: int,
                               currentCost: real, currentRequests: int, degraded: bool)

  function Delta(m: Measured): real
    requires m.baselineRequests != 0 && m.currentRequests != 0
  {
    m.baselineCost / m.baselineRequests as real - m.currentCost / m.currentRequests as real
  }

  function Classify(delta: real, requests: int): Verdicted {
    if requests < MIN_VERIFY_REQUESTS then Inconclusive else if delta > 0.0 then Verified else Missed
  }

  /** A window of zero days, like a missing one, counts as the default. */
  function Days(windowDays: int): (d: int)
    ensures d != 0
  {
    if windowDays == 0 then BASELINE_WINDOW_DAYS else windowDays
  }

  /** A saving per request, over so many requests, scaled from the window to thirty days. */
  function Figure(saved: real, requests: int, days: int): real
    requires days != 0
  {
    saved * requests as real * (30.0 / days as real)
  }

  function Judge(m: Measured): (Verdicted, Option<real>) {
    if !m.resolved || m.baselineRequests == 0 then (NoBaseline, None)
    else if m.elapsed < Days(m.windowDays) * 86_400 then (Pending, None)
    else if m.currentRequests == 0 then (NoTraffic, None)
    else
      var s := Classify(Delta(m), m.currentRequests);
      (if s == Verified && m.degraded then Missed else s,
       Some(Figure(Delta(m), m.currentRequests, Days(m.windowDays))))
  }

  /** A verified saving is a positive one with its quality kept; a degraded one is missed although its figure is
      positive. */
  lemma VerifiedIsPositive(m: Measured)
    requires m.windowDays >= 0 && m.currentRequests >= 0
    ensures Judge(m).0 == Verified <==>
            m.resolved && m.baselineRequests != 0 && m.elapsed >= Days(m.windowDays) * 86_400
            && m.currentRequests >= MIN_VERIFY_REQUESTS && Delta(m) > 0.0 && !m.degraded
    ensures Judge(m).0 == Verified ==> Judge(m).1.Some? && Judge(m).1.value > 0.0
    ensures Judge(m).0 in {NoBaseline, Pending, NoTraffic} <==> Judge(m).1 == None
  {
  }

  /** The verdict in all cases; a window of zero days is one of seven. */
  lemma JudgementIs(m: Measured, saved: real)
    requires m.baselineRequests != 0 && m.currentRequests != 0 ==>
             saved == m.baselineCost / m.baselineRequests as real - m.currentCost / m.currentRequests as real
    ensures var measurable := m.resolved && m.baselineRequests != 0;
            var over := m.elapsed >= (if m.windowDays == 0 then 7 else m.windowDays) * 24 * 60 * 60;
            (!measurable ==> Judge(m) == (NoBaseline, None)) &&
            (measurable && !over ==> Judge(m) == (Pending, None)) &&
            (measurable && over && m.currentRequests == 0 ==> Judge(m) == (NoTraffic, None)) &&
            (measurable && over && m.currentRequests != 0 ==>
               Judge(m).0 == (if m.currentRequests < 30 then Inconclusive
                              else if saved > 0.0 && !m.degraded then Verified else Missed))
  {
  }

  /** The figure of a measured finding is about what a request costs less than before, over the requests there were, and
      scales the window to thirty days. */
  lemma FigureIs(m: Measured, saved: real, days: int)
    requires m.baselineRequests != 0 && m.currentRequests != 0 && days == (if m.windowDays == 0 then 7 else m.windowDays)
    requires saved == m.baselineCost / m.baselineRequests as real - m.currentCost / m.currentRequests as real
    requires m.resolved && m.elapsed >= days * 24 * 60 * 60
    ensures Judge(m).1 == Some(Figure(saved, m.currentRequests, days))
    ensures Figure(saved, m.currentRequests, days) * days as real == 30.0 * (saved * m.currentRequests as real)
  {
    assert Delta(m) == saved && Days(m.windowDays) == days;
    FigureScales(saved, m.currentRequests, days);
  }

  lemma FigureScales(saved: real, requests: int, days: int)
    requires days != 0
    ensures Figure(saved, requests, days) * days as real == 30.0 * (saved * requests as real)
  {
    ScaleBack(saved * requests as real, days as real);
  }

  // ---- best first ----

  function Projected(v: Verdict): real {
    if v.projected.Some? then v.projected.value else 0.0
  }

  /** Into a list sorted best first, behind everything at least as good. */
  function InsertBehind(s: seq<Verdict>, v: Verdict): seq<Verdict> {
    if s == [] || Projected(s[|s| - 1]) >= Projected(v) then s + [v]
    else InsertBehind(s[..|s| - 1], v) + [s[|s| - 1]]
  }

  /** The stable sort by descending projected saving. */
  function BestFirst(s: seq<Verdict>): seq<Verdict> {
    if s == [] then [] else InsertBehind(BestFirst(s[..|s| - 1]), s[|s| - 1])
  }

  ghost predicate Descending(s: seq<Verdict>) {
    forall i, j :: 0 <= i < j < |s| ==> Projected(s[i]) >= Projected(s[j])
  }

  predicate AtLeast(s: seq<Verdict>, p: real) {
    forall i :: 0 <= i < |s| ==> Projected(s[i]) >= p
  }

  lemma {:induction false} InsertAtLeast(s: seq<Verdict>, v: Verdict, p: real)
    requires AtLeast(s, p) && Projected(v) >= p
    ensures AtLeast(InsertBehind(s, v), p)
  {
    if s != [] && Projected(s[|s| - 1]) < Projected(v) {
      InsertAtLeast(s[..|s| - 1], v, p);
    }
  }

  lemma {:induction false} InsertSorts(s: seq<Verdict>, v: Verdict)
    requires Descending(s)
    ensures Descending(InsertBehind(s, v))
  {
    if s != [] && Projected(s[|s| - 1]) < Projected(v) {
      InsertSorts(s[..|s| - 1], v);
      InsertAtLeast(s[..|s| - 1], v, Projected(s[|s| - 1]));
    }
  }

  lemma LastCounts(s: seq<Verdict>)
    requires s != []
    ensures multiset(s) == multiset(s[..|s| - 1]) + multiset{s[|s| - 1]}
  {
    assert s == s[..|s| - 1] + [s[|s| - 1]];
  }

  lemma {:induction false} InsertPermutes(s: seq<Verdict>, v: Verdict)
    ensures multiset(InsertBehind(s, v)) == multiset(s) + multiset{v} && |InsertBehind(s, v)| == |s| + 1
  {
    if s != [] && Projected(s[|s| - 1]) < Projected(v) {
      InsertPermutes(s[..|s| - 1], v);
      LastCounts(s);
    }
  }

  lemma {:induction false} BestFirstPermutes(s: seq<Verdict>)
    ensures multiset(BestFirst(s)) == multiset(s) && |BestFirst(s)| == |s|
  {
    if s != [] {
      BestFirstPermutes(s[..|s| - 1]);
      InsertPermutes(BestFirst(s[..|s| - 1]), s[|s| - 1]);
      LastCounts(s);
    }
  }

  lemma {:induction false} BestFirstDescends(s: seq<Verdict>)
    ensures Descending(BestFirst(s))
  {
    if s != [] {
      BestFirstDescends(s[..|s| - 1]);
      InsertSorts(BestFirst(s[..|s| - 1]), s[|s| - 1]);
    }
  }

  /** The sort keeps every verdict and puts the best first. */
  lemma BestFirstSorts(s: seq<Verdict>)
    ensures Descending(BestFirst(s)) && multiset(BestFirst(s)) == multiset(s) && |BestFirst(s)| == |s|
  {
    BestFirstPermutes(s);
    BestFirstDescends(s);
  }

  function Tied(s: seq<Verdict>, p: real): seq<Verdict> {
    if s == [] then [] else Tied(s[..|s| - 1], p) + if Projected(s[|s| - 1]) == p then [s[|s| - 1]] else []
  }

  lemma TiedAppend(s: seq<Verdict>, v: Verdict, p: real)
    ensures Tied(s + [v], p) == Tied(s, p) + if Projected(v) == p then [v] else []
  {
  }

  lemma {:induction false} InsertKeepsTies(s: seq<Verdict>, v: Verdict, p: real)
    requires Descending(s)
    ensures Tied(InsertBehind(s, v), p) == Tied(s, p) + if Projected(v) == p then [v] else []
  {
    if s == [] || Projected(s[|s| - 1]) >= Projected(v) {
      TiedAppend(s, v, p);
    } else {
      var init, last := s[..|s| - 1], s[|s| - 1];
      InsertKeepsTies(init, v, p);
      TiedAppend(InsertBehind(init, v), last, p);
    }
  }

  /** Equally good verdicts keep the order they came in. */
  lemma {:induction false} BestFirstIsStable(s: seq<Verdict>, p: real)
    ensures Tied(BestFirst(s), p) == Tied(s, p)
  {
    if s != [] {
      BestFirstIsStable(s[..|s| - 1], p);
      BestFirstSorts(s[..|s| - 1]);
      InsertKeepsTies(BestFirst(s[..|s| - 1]), s[|s| - 1], p);
    }
  }

  function Judged(rows: seq<BaselineRow>, verify: string -> Option<Verdict>): seq<Verdict> {
    if rows == [] then []
    else
      var v := verify(rows[|rows| - 1].fingerprint);
      Judged(rows[..|rows| - 1], verify) + if v.Some? then [v.value] else []
  }

  /** A verdict for every finding with a baseline, best first. */
  method VerifyAllResolved(rows: seq<BaselineRow>, verify: string -> Option<Verdict>) returns (verdicts: seq<Verdict>)
    ensures Descending(verdicts) && multiset(verdicts) == multiset(Judged(rows, verify))
    ensures verdicts == BestFirst(Judged(rows, verify))
  {
    verdicts := [];
    for i := 0 to |rows|
      invariant verdicts == Judged(rows[..i], verify)
    {
      assert rows[..i + 1][..i] == rows[..i];
      var v := verify(rows[i].fingerprint);
      if v.Some? {
        verdicts := verdicts + [v.value];
      }
    }
    assert rows[..|rows|] == rows;
    BestFirstSorts(verdicts);
    verdicts := BestFirst(verdicts);
  }

  // ---- who gets the credit ----

  function CreditKey(v: Verdict): (string, string) {
    if v.reference != "" && v.cohort != "" then (v.reference, v.cohort) else ("finding", v.fingerprint)
  }

  predicate NamesChange(v: Verdict) {
    v.reference != "" && v.cohort != ""
  }

  /** When two verdicts share a credit: the same change in the same cohort, or the same finding; and, mixed, a change called
      "finding" in a cohort called like the other's fingerprint. */
  predicate Shares(v: Verdict, w: Verdict) {
    if NamesChange(v) && NamesChange(w) then v.reference == w.reference && v.cohort == w.cohort
    else if NamesChange(v) then v.reference == "finding" && v.cohort == w.fingerprint
    else if NamesChange(w) then w.reference == "finding" && w.cohort == v.fingerprint
    else v.fingerprint == w.fingerprint
  }

  lemma SharesIffSameKey(v: Verdict, w: Verdict)
    ensures Shares(v, w) <==> CreditKey(v) == CreditKey(w)
  {
  }

  function CreditKeys(vs: seq<Verdict>): seq<(string, string)> {
    Keys(vs, CreditKey)
  }

  function KeySet(vs: seq<Verdict>): set<(string, string)> {
    if vs == [] then {} else KeySet(vs[..|vs| - 1]) + {CreditKey(vs[|vs| - 1])}
  }

  lemma {:induction false} KeySetHolds(vs: seq<Verdict>, k: (string, string))
    ensures k in KeySet(vs) <==> k in CreditKeys(vs)
  {
    if vs != [] {
      KeySetHolds(vs[..|vs| - 1], k);
      assert vs == vs[..|vs| - 1] + [vs[|vs| - 1]];
      KeysAppend(vs[..|vs| - 1], vs[|vs| - 1]);
    }
  }

  /** The first verdict of every credit key. */
  function Credited(vs: seq<Verdict>): seq<Verdict> {
    if vs == [] then []
    else
      var init, last := vs[..|vs| - 1], vs[|vs| - 1];
      Credited(init) + if CreditKey(last) in KeySet(init) then [] else [last]
  }

  /** The verdicts whose credit already went to an earlier one. */
  function Sharing(vs: seq<Verdict>): seq<Verdict> {
    if vs == [] then []
    else
      var init, last := vs[..|vs| - 1], vs[|vs| - 1];
      Sharing(init) + if CreditKey(last) in KeySet(init) then [last] else []
  }

  lemma KeysAppend(vs: seq<Verdict>, v: Verdict)
    ensures CreditKeys(vs + [v]) == CreditKeys(vs) + [CreditKey(v)]
  {
  }

  lemma SplitLast(vs: seq<Verdict>, v: Verdict)
    ensures KeySet(vs + [v]) == KeySet(vs) + {CreditKey(v)}
    ensures if CreditKey(v) in KeySet(vs)
            then Credited(vs + [v]) == Credited(vs) && Sharing(vs + [v]) == Sharing(vs) + [v]
            else Credited(vs + [v]) == Credited(vs) + [v] && Sharing(vs + [v]) == Sharing(vs)
  {
  }

  lemma {:induction false} KeySetIsShared(vs: seq<Verdict>, v: Verdict)
    ensures CreditKey(v) in KeySet(vs) <==> exists j :: 0 <= j < |vs| && Shares(vs[j], v)
  {
    if vs != [] {
      var init, last := vs[..|vs| - 1], vs[|vs| - 1];
      KeySetIsShared(init, v);
      SharesIffSameKey(last, v);
      assert forall j :: 0 <= j < |init| ==> init[j] == vs[j];
      if CreditKey(v) in KeySet(init) {
        var j :| 0 <= j < |init| && Shares(init[j], v);
        assert Shares(vs[j], v);
      }
    }
  }

  /** A verdict is credited exactly when no earlier one shares its credit, and otherwise counts as shared. */
  lemma CreditedUnlessShared(vs: seq<Verdict>, v: Verdict)
    ensures var shared := exists j :: 0 <= j < |vs| && Shares(vs[j], v);
            Credited(vs + [v]) == Credited(vs) + (if shared then [] else [v]) &&
            Sharing(vs + [v]) == Sharing(vs) + (if shared then [v] else [])
  {
    KeySetIsShared(vs, v);
    SplitLast(vs, v);
    assert Credited(vs) + [] == Credited(vs) && Sharing(vs) + [] == Sharing(vs);
  }

  ghost predicate Parts(credited: seq<Verdict>, shared: seq<Verdict>, vs: seq<Verdict>) {
    multiset(credited) + multiset(shared) == multiset(vs) && |credited| + |shared| == |vs|
  }

  lemma PartsGrow(credited: seq<Verdict>, shared: seq<Verdict>, vs: seq<Verdict>, v: Verdict)
    requires Parts(credited, shared, vs)
    ensures Parts(credited + [v], shared, vs + [v]) && Parts(credited, shared + [v], vs + [v])
  {
  }

  lemma PartsStep(vs: seq<Verdict>, v: Verdict)
    requires Parts(Credited(vs), Sharing(vs), vs)
    ensures Parts(Credited(vs + [v]), Sharing(vs + [v]), vs + [v])
  {
    SplitLast(vs, v);
    PartsGrow(Credited(vs), Sharing(vs), vs, v);
  }

  /** Each verdict is credited or shared, never both. */
  lemma {:induction false} CreditedAndSharing(vs: seq<Verdict>)
    ensures Parts(Credited(vs), Sharing(vs), vs)
  {
    if vs != [] {
      CreditedAndSharing(vs[..|vs| - 1]);
      PartsStep(vs[..|vs| - 1], vs[|vs| - 1]);
      assert vs == vs[..|vs| - 1] + [vs[|vs| - 1]];
    }
  }

  lemma {:induction false} CreditedKeySet(vs: seq<Verdict>)
    ensures KeySet(Credited(vs)) == KeySet(vs)
  {
    if vs != [] {
      var init, last := vs[..|vs| - 1], vs[|vs| - 1];
      CreditedKeySet(init);
      assert vs == init + [last];
      SplitLast(init, last);
      SplitLast(Credited(init), last);
    }
  }

  /** Every credit key is credited exactly once. */
  lemma {:induction false} EachKeyCreditedOnce(vs: seq<Verdict>)
    ensures NoDuplicates(CreditKeys(Credited(vs)))
    ensures forall k :: k in CreditKeys(vs) <==> k in CreditKeys(Credited(vs))
  {
    forall k
      ensures k in CreditKeys(vs) <==> k in CreditKeys(Credited(vs))
    {
      CreditedKeySet(vs);
      KeySetHolds(vs, k);
      KeySetHolds(Credited(vs), k);
    }
    if vs != [] {
      var init, last := vs[..|vs| - 1], vs[|vs| - 1];
      EachKeyCreditedOnce(init);
      KeySetHolds(init, CreditKey(last));
      assert vs == init + [last];
      SplitLast(init, last);
      KeysAppend(Credited(init), last);
    }
  }

  /** A credited verdict is at the first place of its key. */
  lemma {:induction false} CreditedPlace(vs: seq<Verdict>, c: Verdict) returns (i: nat)
    requires c in Credited(vs)
    ensures i < |vs| && vs[i] == c && CreditKey(c) !in KeySet(vs[..i])
  {
    var init, last := vs[..|vs| - 1], vs[|vs| - 1];
    if c in Credited(init) {
      i := CreditedPlace(init, c);
      assert vs[..i] == init[..i];
    } else {
      i := |init|;
    }
  }

  lemma CreditedComesFirst(vs: seq<Verdict>, c: Verdict, j: nat)
    requires c in Credited(vs) && j < |vs| && CreditKey(vs[j]) == CreditKey(c)
    ensures exists i :: 0 <= i <= j && vs[i] == c
  {
    var i := CreditedPlace(vs, c);
    EarlierKeysDiffer(vs[..i], CreditKey(c));
    assert i <= j;
  }

  lemma EarlierKeysDiffer(vs: seq<Verdict>, k: (string, string))
    requires k !in KeySet(vs)
    ensures forall j :: 0 <= j < |vs| ==> CreditKey(vs[j]) != k
  {
  }

  lemma CreditedIsOneOf(vs: seq<Verdict>, c: Verdict)
    requires c in Credited(vs)
    ensures c in vs
  {
  }

  /** After the sort, the credited verdict has the greatest projected saving of all that share its key. */
  lemma CreditedIsGreatest(judged: seq<Verdict>, c: Verdict, v: Verdict)
    requires c in Credited(BestFirst(judged)) && v in judged && Shares(v, c)
    ensures Projected(c) >= Projected(v)
    ensures (if c.projected.Some? then c.projected.value else 0.0) >= (if v.projected.Some? then v.projected.value else 0.0)
  {
    SharesIffSameKey(v, c);
    var vs := BestFirst(judged);
    BestFirstSorts(judged);
    assert v in multiset(judged) && v in vs;
    var j :| 0 <= j < |vs| && vs[j] == v;
    CreditedComesFirst(vs, c, j);
    var i :| 0 <= i <= j && vs[i] == c;
    assert i == j || Projected(vs[i]) >= Projected(vs[j]);
  }

  // ---- the totals ----

  function ToMonthly(waste: Option<real>, windowDays: Option<int>): real {
    var days := Days(if windowDays.Some? then windowDays.value else 0);
    (if waste.Some? then waste.value else 0.0) * (30.0 / days as real)
  }

  /** Thirty days' worth of what was wasted over the window; no window, or one of zero days, is one of seven. */
  lemma MonthlyIs(waste: real, days: int)
    ensures days != 0 ==> ToMonthly(Some(waste), Some(days)) * days as real == 30.0 * waste
    ensures ToMonthly(Some(waste), Some(0)) * 7.0 == 30.0 * waste && ToMonthly(Some(waste), None) * 7.0 == 30.0 * waste
    ensures ToMonthly(None, Some(days)) == 0.0 && ToMonthly(None, None) == 0.0
  {
    if days != 0 {
      ScaleBack(waste, days as real);
    }
    ScaleBack(waste, 7.0);
  }

  lemma ScaleBack(x: real, d: real)
    requires d != 0.0
    ensures x * (30.0 / d) * d == 30.0 * x
  {
    assert (30.0 / d) * d == 30.0;
  }

  type Predictions = map<string, real>

  function Predicted(p: Predictions): Verdict -> real {
    (v: Verdict) => if v.fingerprint in p then p[v.fingerprint] else 0.0
  }

  function PredictedAs(p: Predictions, l: Label): Verdict -> real {
    (v: Verdict) => if v.status == l then Predicted(p)(v) else 0.0
  }

  function ProjectedAs(l: Label): Verdict -> real {
    (v: Verdict) => if v.status == l then Projected(v) else 0.0
  }

  function Labelled(l: Label): Verdict -> int {
    (v: Verdict) => if v.status == l then 1 else 0
  }

  /** How many verdicts end up under a label of the rollup. */
  function CountAs(vs: seq<Verdict>, l: Label): int {
    CountIn(Credited(vs), Sharing(vs), l)
  }

  function CountIn(credited: seq<Verdict>, shared: seq<Verdict>, l: Label): int {
    if l == Shared then |shared| else Sum(credited, Labelled(l))
  }

  datatype Rollup = Rollup(openWaste: real, resolved: real, shared: real, verified: real, missed: real, verifying: real,
                           inconclusive: real, realised: Option<real>, counts: map<Label, int>)

  /** The running totals of the loop. */
  datatype Tally = Tally(totals: map<Label, real>, counts: map<Label, int>, actual: real, credited: real, shared: real)

  function Count(counts: map<Label, int>, l: Label): int {
    if l in counts then counts[l] else 0
  }

  /** The verdict states the rollup keeps a total for. */
  predicate Tracked(l: Label) {
    l.Verified? || l.Missed? || l.Pending? || l.Inconclusive?
  }

  ghost predicate TotalsRight(totals: map<Label, real>, p: Predictions, credited: seq<Verdict>) {
    forall l :: (l in totals <==> Tracked(l)) && (Tracked(l) ==> totals[l] == Total(credited, PredictedAs(p, l)))
  }

  ghost predicate MoneyRight(t: Tally, p: Predictions, credited: seq<Verdict>, shared: seq<Verdict>) {
    t.credited == Total(credited, Predicted(p)) && t.shared == Total(shared, Predicted(p))
    && t.actual == Total(credited, ProjectedAs(Verified)) && TotalsRight(t.totals, p, credited)
  }

  ghost predicate CountsRight(t: Tally, credited: seq<Verdict>, shared: seq<Verdict>) {
    forall l :: Count(t.counts, l) == CountIn(credited, shared, l)
  }

  function CreditVerdict(t: Tally, v: Verdict, value: real): Tally {
    t.(credited := t.credited + value,
       counts := t.counts[v.status := Count(t.counts, v.status) + 1],
       totals := if v.status in t.totals then t.totals[v.status := t.totals[v.status] + value] else t.totals,
       actual := if v.status == Verified then t.actual + Projected(v) else t.actual)
  }

  function ShareVerdict(t: Tally, value: real): Tally {
    t.(shared := t.shared + value, counts := t.counts[Shared := Count(t.counts, Shared) + 1])
  }

  lemma CreditTotals(totals: map<Label, real>, p: Predictions, credited: seq<Verdict>, v: Verdict)
    requires TotalsRight(totals, p, credited)
    ensures TotalsRight(if v.status in totals then totals[v.status := totals[v.status] + Predicted(p)(v)] else totals, p, credited + [v])
  {
    forall l: Label
      ensures Total(credited + [v], PredictedAs(p, l)) == Total(credited, PredictedAs(p, l)) + PredictedAs(p, l)(v)
    {
      TotalAppend(credited, v, PredictedAs(p, l));
    }
  }

  lemma CreditMoney(t: Tally, p: Predictions, credited: seq<Verdict>, shared: seq<Verdict>, v: Verdict)
    requires MoneyRight(t, p, credited, shared)
    ensures MoneyRight(CreditVerdict(t, v, Predicted(p)(v)), p, credited + [v], shared)
  {
    TotalAppend(credited, v, Predicted(p));
    TotalAppend(credited, v, ProjectedAs(Verified));
    CreditTotals(t.totals, p, credited, v);
  }

  lemma CreditCounts(t: Tally, credited: seq<Verdict>, shared: seq<Verdict>, v: Verdict, value: real)
    requires CountsRight(t, credited, shared)
    ensures CountsRight(CreditVerdict(t, v, value), credited + [v], shared)
  {
    forall l: Label
      ensures Count(CreditVerdict(t, v, value).counts, l) == CountIn(credited + [v], shared, l)
    {
      assert Count(t.counts, l) == CountIn(credited, shared, l);
      SumAppend(credited, v, Labelled(l));
    }
  }

  lemma ShareMoney(t: Tally, p: Predictions, credited: seq<Verdict>, shared: seq<Verdict>, v: Verdict)
    requires MoneyRight(t, p, credited, shared)
    ensures MoneyRight(ShareVerdict(t, Predicted(p)(v)), p, credited, shared + [v])
  {
    TotalAppend(shared, v, Predicted(p));
  }

  lemma ShareCounts(t: Tally, credited: seq<Verdict>, shared: seq<Verdict>, v: Verdict, value: real)
    requires CountsRight(t, credited, shared)
    ensures CountsRight(ShareVerdict(t, value), credited, shared + [v])
  {
    forall l: Label
      ensures Count(ShareVerdict(t, value).counts, l) == CountIn(credited, shared + [v], l)
    {
      assert Count(t.counts, l) == CountIn(credited, shared, l);
    }
  }

  ghost predicate TallyRight(t: Tally, keys: set<(string, string)>, p: Predictions, vs: seq<Verdict>) {
    keys == KeySet(vs) && MoneyRight(t, p, Credited(vs), Sharing(vs)) && CountsRight(t, Credited(vs), Sharing(vs))
  }

  lemma TallyNext(t: Tally, keys: set<(string, string)>, p: Predictions, vs: seq<Verdict>, v: Verdict)
    requires TallyRight(t, keys, p, vs)
    ensures if CreditKey(v) in keys then TallyRight(ShareVerdict(t, Predicted(p)(v)), keys, p, vs + [v])
            else TallyRight(CreditVerdict(t, v, Predicted(p)(v)), keys + {CreditKey(v)}, p, vs + [v])
  {
    var value := Predicted(p)(v);
    SplitLast(vs, v);
    if CreditKey(v) in keys {
      ShareMoney(t, p, Credited(vs), Sharing(vs), v);
      ShareCounts(t, Credited(vs), Sharing(vs), v, value);
    } else {
      CreditMoney(t, p, Credited(vs), Sharing(vs), v);
      CreditCounts(t, Credited(vs), Sharing(vs), v, value);
    }
  }

  /** The loop over the verdicts. */
  method TallyVerdicts(predicted: Predictions, verdicts: seq<Verdict>) returns (t: Tally)
    ensures MoneyRight(t, predicted, Credited(verdicts), Sharing(verdicts))
    ensures CountsRight(t, Credited(verdicts), Sharing(verdicts))
  {
    t := Tally(map[Verified := 0.0, Missed := 0.0, Pending := 0.0, Inconclusive := 0.0], map[], 0.0, 0.0, 0.0);
    var keys: set<(string, string)> := {};
    for i := 0 to |verdicts|
      invariant TallyRight(t, keys, predicted, verdicts[..i])
    {
      var v := verdicts[i];
      var key := CreditKey(v);
      var value := if v.fingerprint in predicted then predicted[v.fingerprint] else 0.0;
      TallyNext(t, keys, predicted, verdicts[..i], v);
      assert verdicts[..i + 1] == verdicts[..i] + [v];
      if key in keys {
        t := ShareVerdict(t, value);
        continue;
      }
      keys := keys + {key};
      t := CreditVerdict(t, v, value);
    }
    assert verdicts[..|verdicts|] == verdicts;
  }

  /** The figures reported: what was credited, what was shared, and the counts. */
  method SavingsTotals(openWaste: real, openCount: int, predicted: Predictions, verdicts: seq<Verdict>) returns (r: Rollup)
    ensures r.openWaste == openWaste
    ensures r.resolved == Total(Credited(verdicts), Predicted(predicted)) && r.shared == Total(Sharing(verdicts), Predicted(predicted))
    ensures r.verified == Total(Credited(verdicts), ProjectedAs(Verified))
    ensures r.missed == Total(Credited(verdicts), PredictedAs(predicted, Missed))
    ensures r.verifying == Total(Credited(verdicts), PredictedAs(predicted, Pending))
    ensures r.inconclusive == Total(Credited(verdicts), PredictedAs(predicted, Inconclusive))
    ensures var judged := Total(Credited(verdicts), PredictedAs(predicted, Verified)) + r.missed;
            r.realised == if judged == 0.0 then None else Some(r.verified / judged * 100.0)
    ensures OpenFindings in r.counts && r.counts[OpenFindings] == openCount
    ensures forall l :: l != OpenFindings ==> Count(r.counts, l) == CountAs(verdicts, l)
  {
    var t := TallyVerdicts(predicted, verdicts);
    var judged := t.totals[Verified] + t.totals[Missed];
    r := Rollup(openWaste, t.credited, t.shared, t.actual, t.totals[Missed], t.totals[Pending], t.totals[Inconclusive],
                if judged == 0.0 then None else Some(t.actual / judged * 100.0), t.counts[OpenFindings := openCount]);
    assert forall l :: l != OpenFindings ==> Count(r.counts, l) == Count(t.counts, l);
  }

  // ---- the books balance ----

  /** Credited and shared predictions together are the predictions of all verdicts. */
  lemma CreditedPlusShared(vs: seq<Verdict>, f: Verdict -> real)
    ensures Total(Credited(vs), f) + Total(Sharing(vs), f) == Total(vs, f)
  {
    CreditedAndSharing(vs);
    TotalConcat(Credited(vs), Sharing(vs), f);
    TotalPermuted(Credited(vs) + Sharing(vs), vs, f);
  }

  lemma {:induction false} LabelsPartition(vs: seq<Verdict>)
    ensures Sum(vs, Labelled(NoBaseline)) + Sum(vs, Labelled(Pending)) + Sum(vs, Labelled(NoTraffic)) +
            Sum(vs, Labelled(Inconclusive)) + Sum(vs, Labelled(Verified)) + Sum(vs, Labelled(Missed)) == |vs|
  {
    if vs != [] {
      LabelsPartition(vs[1..]);
    }
  }

  /** All counts but that of open findings add up to the number of verdicts. */
  lemma CountsAddUp(vs: seq<Verdict>)
    ensures CountAs(vs, NoBaseline) + CountAs(vs, Pending) + CountAs(vs, NoTraffic) + CountAs(vs, Inconclusive) +
            CountAs(vs, Verified) + CountAs(vs, Missed) + CountAs(vs, Shared) == |vs|
    ensures CountAs(vs, OpenFindings) == 0
  {
    CreditedAndSharing(vs);
    LabelsPartition(Credited(vs));
    SumZero(Credited(vs), Labelled(OpenFindings));
  }

  lemma {:induction false} StatusesPartition(vs: seq<Verdict>, p: Predictions)
    ensures Total(vs, Predicted(p)) ==
            Total(vs, PredictedAs(p, Verified)) + Total(vs, PredictedAs(p, Missed)) + Total(vs, PredictedAs(p, Pending)) +
            Total(vs, PredictedAs(p, Inconclusive)) + Total(vs, PredictedAs(p, NoTraffic)) + Total(vs, PredictedAs(p, NoBaseline))
  {
    if vs != [] {
      StatusesPartition(vs[1..], p);
    }
  }

  function PredictionOf(r: BaselineRow): real {
    ToMonthly(r.waste, r.windowDays)
  }

  /** The dictionary of predictions by fingerprint. */
  function PredictionMap(rows: seq<BaselineRow>): Predictions {
    if rows == [] then map[]
    else PredictionMap(rows[..|rows| - 1])[rows[|rows| - 1].fingerprint := PredictionOf(rows[|rows| - 1])]
  }

  predicate DistinctFingerprints(rows: seq<BaselineRow>) {
    forall i, j :: 0 <= i < j < |rows| ==> rows[i].fingerprint != rows[j].fingerprint
  }

  /** Verification answers for the finding it was asked about, and always answers for a stored one. */
  ghost predicate Answers(rows: seq<BaselineRow>, verify: string -> Option<Verdict>) {
    forall r :: r in rows ==> verify(r.fingerprint).Some? && verify(r.fingerprint).value.fingerprint == r.fingerprint
  }

  lemma {:induction false} MapHolds(rows: seq<BaselineRow>, i: nat)
    requires DistinctFingerprints(rows) && i < |rows|
    ensures rows[i].fingerprint in PredictionMap(rows) && PredictionMap(rows)[rows[i].fingerprint] == PredictionOf(rows[i])
  {
    if i < |rows| - 1 {
      MapHolds(rows[..|rows| - 1], i);
    }
  }

  lemma {:induction false} JudgedTotal(rows: seq<BaselineRow>, verify: string -> Option<Verdict>, p: Predictions)
    requires Answers(rows, verify)
    requires forall r :: r in rows ==> r.fingerprint in p && p[r.fingerprint] == PredictionOf(r)
    ensures Total(Judged(rows, verify), Predicted(p)) == Total(rows, PredictionOf)
    ensures |Judged(rows, verify)| == |rows|
  {
    if rows != [] {
      var init, last := rows[..|rows| - 1], rows[|rows| - 1];
      assert rows == init + [last];
      JudgedTotal(init, verify, p);
      TotalAppend(Judged(init, verify), verify(last.fingerprint).value, Predicted(p));
      TotalAppend(init, last, PredictionOf);
    }
  }

  /** Resolved plus shared predictions are the predictions of all findings with a baseline, and everything credited
      is verified, missed, still verifying, inconclusive, or without a baseline or traffic to measure. */
  lemma RollupConserves(rows: seq<BaselineRow>, verify: string -> Option<Verdict>)
    requires DistinctFingerprints(rows) && Answers(rows, verify)
    ensures var p, vs := PredictionMap(rows), BestFirst(Judged(rows, verify));
            |vs| == |rows| &&
            Total(Credited(vs), Predicted(p)) + Total(Sharing(vs), Predicted(p)) == Total(rows, PredictionOf) &&
            Total(Credited(vs), Predicted(p)) ==
              Total(Credited(vs), PredictedAs(p, Verified)) + Total(Credited(vs), PredictedAs(p, Missed)) +
              Total(Credited(vs), PredictedAs(p, Pending)) + Total(Credited(vs), PredictedAs(p, Inconclusive)) +
              Total(Credited(vs), PredictedAs(p, NoTraffic)) + Total(Credited(vs), PredictedAs(p, NoBaseline))
  {
    var p, judged := PredictionMap(rows), Judged(rows, verify);
    var vs := BestFirst(judged);
    forall r | r in rows
      ensures r.fingerprint in p && p[r.fingerprint] == PredictionOf(r)
    {
      var i :| 0 <= i < |rows| && rows[i] == r;
      MapHolds(rows, i);
    }
    JudgedTotal(rows, verify, p);
    BestFirstSorts(judged);
    TotalPermuted(vs, judged, Predicted(p));
    CreditedPlusShared(vs, Predicted(p));
    StatusesPartition(Credited(vs), p);
  }

  // ---- what the verified figure means ----

  /** The verdict is the judgement of some measurement. */
  ghost predicate Measures(m: Measured, v: Verdict) {
    m.windowDays >= 0 && m.currentRequests >= 0 && Judge(m) == (v.status, v.projected)
  }

  ghost predicate IsMeasured(v: Verdict) {
    exists m :: Measures(m, v)
  }

  lemma MeasuredIsNonnegative(v: Verdict)
    requires IsMeasured(v)
    ensures ProjectedAs(Verified)(v) >= 0.0
    ensures ProjectedAs(Verified)(v) > 0.0 <==> v.status == Verified
  {
    var m :| Measures(m, v);
    VerifiedIsPositive(m);
  }

  lemma {:induction false} TotalIsPositiveIff(vs: seq<Verdict>)
    requires forall v :: v in vs ==> IsMeasured(v)
    ensures Total(vs, ProjectedAs(Verified)) >= 0.0
    ensures Total(vs, ProjectedAs(Verified)) > 0.0 <==> exists v :: v in vs && v.status == Verified
  {
    if vs != [] {
      TotalIsPositiveIff(vs[1..]);
      MeasuredIsNonnegative(vs[0]);
      assert vs[0] in vs;
      assert forall v :: v in vs[1..] ==> v in vs;
    }
  }

  /** When every verdict comes from a measurement, the verified figure is never negative, and it is positive if and only
      if the credit of some key went to a verified finding. */
  lemma VerifiedFigureIff(verdicts: seq<Verdict>)
    requires forall v :: v in verdicts ==> IsMeasured(v)
    ensures Total(Credited(verdicts), ProjectedAs(Verified)) >= 0.0
    ensures Total(Credited(verdicts), ProjectedAs(Verified)) > 0.0 <==>
            exists v :: v in Credited(verdicts) && v.status == Verified
  {
    forall v | v in Credited(verdicts)
      ensures IsMeasured(v)
    {
      CreditedIsOneOf(verdicts, v);
    }
    TotalIsPositiveIff(Credited(verdicts));
  }
}
