/** How far past its cap a cycle can get, given how many batches are in flight at once. */
module UsageOvershoot {
  import opened Options
  import opened UsageTable
  import opened UsageMachine
  import opened Folds

  /** models.py: a request body holds at most this many records. */
  const MAX_BATCH_RECORDS: nat := 10_000

  function Max0(x: int): int {
    if x > 0 then x else 0
  }

  /** What an admitted batch of workspace `w` may still add to a counter. */
  function Outstanding(w: string, d: Dimension): Batch -> int {
    (b: Batch) => if b.workspace == w && InFlight(b.phase) then Max0(Amount(b.amounts, d)) else 0
  }

  function FlightMark(w: string): Batch -> int {
    (b: Batch) => if b.workspace == w && InFlight(b.phase) then 1 else 0
  }

  function Flights(s: State, w: string): int {
    Sum(s.batches, FlightMark(w))
  }

  /** The counter plus everything already admitted but not yet counted. */
  function Exposure(s: State, k: CycleKey, d: Dimension): int {
    Counter(s.table, k, d) + Sum(s.batches, Outstanding(k.workspace, d))
  }

  /** The action meets the fixed cycle `k` and cap of the theorem whenever it concerns `k.workspace`. */
  predicate OnCycle(s: State, a: Action, k: CycleKey, d: Dimension, cap: int) {
    (a.ReadQuota? && a.i < |s.batches| && s.batches[a.i].workspace == k.workspace ==>
       a.cycle.Some? && a.cycle.value.start == k.start && ActiveCap(a.limits, d) == Some(cap)) &&
    (a.RecordUsage? && a.i < |s.batches| && s.batches[a.i].workspace == k.workspace ==>
       a.cycle.Some? ==> a.cycle.value.start == k.start)
  }

  /** At every point of the run at most `flights` batches of the workspace are in flight. */
  predicate OnCycleRun(s: State, acts: seq<Action>, k: CycleKey, d: Dimension, cap: int, flights: nat)
    decreases acts
  {
    Flights(s, k.workspace) <= flights &&
    (acts != [] ==> OnCycle(s, acts[0], k, d, cap) && OnCycleRun(Step(s, acts[0]), acts[1..], k, d, cap, flights))
  }

  predicate SmallBatches(s: State, w: string, d: Dimension, most: nat) {
    forall b :: b in s.batches && b.workspace == w ==> Amount(b.amounts, d) <= most
  }

  lemma StepKeepsAmounts(s: State, a: Action)
    ensures |Step(s, a).batches| == |s.batches|
    ensures forall i :: 0 <= i < |s.batches| ==>
              Step(s, a).batches[i].workspace == s.batches[i].workspace && Step(s, a).batches[i].amounts == s.batches[i].amounts
  {
    if a.Deliver? || a.Handle? || a.HandlerFails? {
      WebhooksOnlySeed(s, a);
    }
  }

  /** One batch changes phase: the exposure changes by that batch's outstanding amount and the counter. */
  lemma MoveExposure(s: State, s': State, i: nat, k: CycleKey, d: Dimension)
    requires i < |s.batches| && |s'.batches| == |s.batches|
    requires s'.batches == s.batches[i := s.batches[i].(phase := s'.batches[i].phase)]
    ensures Exposure(s', k, d) - Exposure(s, k, d) ==
            Counter(s'.table, k, d) - Counter(s.table, k, d)
            + Outstanding(k.workspace, d)(s'.batches[i]) - Outstanding(k.workspace, d)(s.batches[i])
  {
    SumUpdate(s.batches, i, s'.batches[i], Outstanding(k.workspace, d));
    assert s'.batches == s.batches[i := s'.batches[i]];
  }

  lemma ReadQuotaExposure(s: State, i: nat, cycle: Option<Cycle>, limits: Option<Limits>, k: CycleKey, d: Dimension, cap: int, most: nat)
    requires OnCycle(s, ReadQuota(i, cycle, limits), k, d, cap) && SmallBatches(s, k.workspace, d, most)
    ensures var s' := ReadQuotaStep(s, i, cycle, limits);
            Exposure(s', k, d) <= Exposure(s, k, d) || Exposure(s', k, d) <= cap - 1 + most * Flights(s', k.workspace)
  {
    if AtPhase(s, i, Arrived) {
      var s' := ReadQuotaStep(s, i, cycle, limits);
      MoveExposure(s, s', i, k, d);
      if s.batches[i].workspace == k.workspace && s'.batches[i].phase.UnderQuota? {
        assert ActiveCap(limits, d).Some?;
        AdmissionIsBelowCap(Seed(s.table, k, cycle.value.end), k, limits, d);
        FlightsBoundOutstanding(s', k.workspace, d, most);
      }
    }
  }

  lemma AdmissionIsBelowCap(t: Table, k: CycleKey, limits: Option<Limits>, d: Dimension)
    requires QuotaRefusal(t, k, limits).None? && ActiveCap(limits, d).Some?
    ensures Counter(t, k, d) < ActiveCap(limits, d).value
  {
  }

  lemma RecordUsageExposure(s: State, i: nat, cycle: Option<Cycle>, k: CycleKey, d: Dimension, cap: int)
    requires OnCycle(s, RecordUsage(i, cycle), k, d, cap)
    ensures Exposure(RecordUsageStep(s, i, cycle), k, d) <= Exposure(s, k, d)
  {
    if AtPhase(s, i, Cleared) {
      MoveExposure(s, RecordUsageStep(s, i, cycle), i, k, d);
    }
  }

  lemma ClaimExposure(s: State, i: nat, cap: Option<int>, k: CycleKey, d: Dimension)
    ensures Exposure(ClaimStep(s, i, cap), k, d) <= Exposure(s, k, d)
  {
    if i < |s.batches| && s.batches[i].phase.Metered? {
      MoveExposure(s, ClaimStep(s, i, cap), i, k, d);
    }
  }

  lemma QuietExposure(s: State, i: nat, limits: Option<Limits>, members: int, k: CycleKey, d: Dimension)
    ensures Exposure(CountSeatsStep(s, i, limits, members), k, d) <= Exposure(s, k, d)
    ensures Exposure(AbortStep(s, i), k, d) <= Exposure(s, k, d)
  {
    if i < |s.batches| {
      MoveExposure(s, CountSeatsStep(s, i, limits, members), i, k, d);
      MoveExposure(s, AbortStep(s, i), i, k, d);
    }
  }

  /** An admission leaves the exposure below the cap plus the flights' worth; every other step cannot raise it. */
  lemma StepExposure(s: State, a: Action, k: CycleKey, d: Dimension, cap: int, most: nat)
    requires OnCycle(s, a, k, d, cap) && SmallBatches(s, k.workspace, d, most)
    ensures Exposure(Step(s, a), k, d) <= Exposure(s, k, d)
         || Exposure(Step(s, a), k, d) <= cap - 1 + most * Flights(Step(s, a), k.workspace)
  {
    match a
    case ReadQuota(i, cycle, limits) => ReadQuotaExposure(s, i, cycle, limits, k, d, cap, most);
    case CountSeats(i, limits, members) => QuietExposure(s, i, limits, members, k, d);
    case RecordUsage(i, cycle) => RecordUsageExposure(s, i, cycle, k, d, cap);
    case ClaimThreshold(i, cap') => ClaimExposure(s, i, cap', k, d);
    case Abort(i) => QuietExposure(s, i, None, 0, k, d);
    case _ => WebhooksOnlySeed(s, a);
  }

  lemma FlightsBoundOutstanding(s: State, w: string, d: Dimension, most: nat)
    requires SmallBatches(s, w, d, most)
    ensures Sum(s.batches, Outstanding(w, d)) <= most * Flights(s, w)
  {
    SumScaled(s.batches, Outstanding(w, d), FlightMark(w), most);
  }

  lemma StepKeepsSmallBatches(s: State, a: Action, w: string, d: Dimension, most: nat)
    requires SmallBatches(s, w, d, most)
    ensures SmallBatches(Step(s, a), w, d, most)
  {
    StepKeepsAmounts(s, a);
    var s' := Step(s, a);
    forall b | b in s'.batches && b.workspace == w
      ensures Amount(b.amounts, d) <= most
    {
      var i :| 0 <= i < |s'.batches| && s'.batches[i] == b;
      assert s.batches[i] in s.batches;
    }
  }

  lemma MostTimes(n: int, flights: nat, most: nat)
    requires n <= flights
    ensures most * n <= flights * most
  {
    assert (flights - n) * most >= 0;
  }

  /** With at most `flights` batches in flight, each adding at most `most`, the counter plus what is
      in flight never exceeds `cap - 1 + flights * most`, in any interleaving. */
  lemma {:induction false} OvershootBound(s: State, acts: seq<Action>, k: CycleKey, d: Dimension, cap: int, flights: nat, most: nat)
    requires OnCycleRun(s, acts, k, d, cap, flights) && SmallBatches(s, k.workspace, d, most)
    requires Exposure(s, k, d) <= cap - 1 + flights * most
    ensures Exposure(Run(s, acts), k, d) <= cap - 1 + flights * most
    ensures Counter(Run(s, acts).table, k, d) <= cap - 1 + flights * most
    decreases acts
  {
    if acts == [] {
      SumNonnegative(s.batches, Outstanding(k.workspace, d));
    } else {
      var a, s' := acts[0], Step(s, acts[0]);
      StepExposure(s, a, k, d, cap, most);
      StepKeepsSmallBatches(s, a, k.workspace, d, most);
      MostTimes(Flights(s', k.workspace), flights, most);
      OvershootBound(s', acts[1..], k, d, cap, flights, most);
    }
  }

  /** The bound for the record counter as `IngestRequest` limits it. */
  lemma RequestOvershoot(s: State, acts: seq<Action>, k: CycleKey, cap: int, flights: nat)
    requires cap > 0
    requires forall b :: b in s.batches ==> b.amounts.requests <= MAX_BATCH_RECORDS && b.phase == Arrived
    requires Counter(s.table, k, Requests) < cap
    requires OnCycleRun(s, acts, k, Requests, cap, flights)
    ensures Counter(Run(s, acts).table, k, Requests) <= cap - 1 + flights * MAX_BATCH_RECORDS
  {
    SumZero(s.batches, Outstanding(k.workspace, Requests));
    OvershootBound(s, acts, k, Requests, cap, flights, MAX_BATCH_RECORDS);
  }

  // ---- the bound is attained ----

  predicate Uniform(a: Action, cycle: Cycle, limits: Limits) {
    match a
    case ReadQuota(_, c, l) => c == Some(cycle) && l == Some(limits)
    case RecordUsage(_, c) => c == Some(cycle)
    case _ => true
  }

  lemma {:induction false} UniformRunIsOnCycle(s: State, acts: seq<Action>, k: CycleKey, cycle: Cycle, limits: Limits, cap: int, flights: nat)
    requires |s.batches| <= flights && cycle.start == k.start && ActiveCap(Some(limits), Requests) == Some(cap)
    requires forall a :: a in acts ==> Uniform(a, cycle, limits)
    ensures OnCycleRun(s, acts, k, Requests, cap, flights)
    decreases acts
  {
    SumMonotone(s.batches, FlightMark(k.workspace), _ => 1);
    SumOfOnes(s.batches);
    if acts != [] {
      assert Uniform(acts[0], cycle, limits);
      StepKeepsAmounts(s, acts[0]);
      UniformRunIsOnCycle(Step(s, acts[0]), acts[1..], k, cycle, limits, cap, flights);
    }
  }

  lemma {:induction false} SumOfOnes<T>(s: seq<T>)
    ensures Sum(s, (_: T) => 1) == |s|
  {
    if s != [] {
      SumOfOnes(s[1..]);
      SumSame(s[1..], (_: T) => 1, (_: T) => 1);
    }
  }

  function Admissions(j: nat, n: nat, cycle: Cycle, limits: Limits): seq<Action>
    requires j <= n
    decreases n - j
  {
    if j == n then []
    else [ReadQuota(j, Some(cycle), Some(limits)), CountSeats(j, Some(limits), 0)] + Admissions(j + 1, n, cycle, limits)
  }

  function Recordings(j: nat, n: nat, cycle: Cycle): seq<Action>
    requires j <= n
    decreases n - j
  {
    if j == n then [] else [RecordUsage(j, Some(cycle))] + Recordings(j + 1, n, cycle)
  }

  /** Batches `j` and up are all alike: of workspace `k.workspace`, of size `most`, in phase `p`. */
  predicate Waiting(s: State, j: nat, p: Phase, k: CycleKey, most: nat) {
    forall i :: j <= i < |s.batches| ==>
                  s.batches[i].workspace == k.workspace && s.batches[i].amounts == Amounts(most, 0, 0) && s.batches[i].phase == p
  }

  lemma {:induction false} AdmitAll(s: State, j: nat, k: CycleKey, cycle: Cycle, cap: int, most: nat)
    requires j <= |s.batches| && Waiting(s, j, Arrived, k, most) && cycle.start == k.start
    requires forall i :: 0 <= i < j ==> s.batches[i] == Batch(k.workspace, Amounts(most, 0, 0), Cleared)
    requires cap > 0 && k in s.table && Counter(s.table, k, Requests) < cap
    ensures var limits := Limits(Some(cap), None, None, None);
            var e := Run(s, Admissions(j, |s.batches|, cycle, limits));
            e.table == s.table && |e.batches| == |s.batches| && Waiting(e, 0, Cleared, k, most)
    decreases |s.batches| - j
  {
    if j < |s.batches| {
      var limits := Limits(Some(cap), None, None, None);
      var a, b := ReadQuota(j, Some(cycle), Some(limits)), CountSeats(j, Some(limits), 0);
      var s1 := Step(s, a);
      assert ActiveCap(Some(limits), Requests).Some?;
      assert s1 == SetPhase(s, j, UnderQuota);
      var s2 := Step(s1, b);
      assert s2 == SetPhase(s1, j, Cleared);
      var acts := Admissions(j, |s.batches|, cycle, limits);
      assert acts[0] == a && acts[1..][0] == b && acts[1..][1..] == Admissions(j + 1, |s.batches|, cycle, limits);
      AdmitAll(s2, j + 1, k, cycle, cap, most);
    }
  }

  lemma OneMore(n: int, most: nat)
    ensures n * most == most + (n - 1) * most
  {
  }

  lemma {:induction false} RecordAll(s: State, j: nat, k: CycleKey, cycle: Cycle, most: nat)
    requires j <= |s.batches| && Waiting(s, j, Cleared, k, most) && cycle.start == k.start
    ensures Counter(Run(s, Recordings(j, |s.batches|, cycle)).table, k, Requests)
         == Counter(s.table, k, Requests) + (|s.batches| - j) * most
    decreases |s.batches| - j
  {
    if j < |s.batches| {
      var acts := Recordings(j, |s.batches|, cycle);
      assert acts[1..] == Recordings(j + 1, |s.batches|, cycle);
      RecordAll(Step(s, acts[0]), j + 1, k, cycle, most);
      OneMore(|s.batches| - j, most);
    }
  }

  /** No smaller bound holds: for every cap, number of flights and batch size some run reaches it exactly. */
  lemma OvershootIsAttained(k: CycleKey, cycle: Cycle, cap: int, flights: nat, most: nat) returns (s: State, acts: seq<Action>)
    requires cap > 0 && cycle.start == k.start
    ensures forall b :: b in s.batches ==> b.phase == Arrived && b.amounts.requests == most
    ensures Counter(s.table, k, Requests) < cap
    ensures OnCycleRun(s, acts, k, Requests, cap, flights)
    ensures Counter(Run(s, acts).table, k, Requests) == cap - 1 + flights * most
  {
    var limits := Limits(Some(cap), None, None, None);
    var batch := Batch(k.workspace, Amounts(most, 0, 0), Arrived);
    s := State(map[k := Row(cycle.end, cap - 1, 0, 0, false, false)], seq(flights, _ => batch), [], {}, map[], []);
    var admit, record := Admissions(0, flights, cycle, limits), Recordings(0, flights, cycle);
    acts := admit + record;
    AdmitAll(s, 0, k, cycle, cap, most);
    RecordAll(Run(s, admit), 0, k, cycle, most);
    RunConcat(s, admit, record);
    AllUniform(0, flights, cycle, limits);
    UniformRunIsOnCycle(s, acts, k, cycle, limits, cap, flights);
  }

  lemma {:induction false} AllUniform(j: nat, n: nat, cycle: Cycle, limits: Limits)
    requires j <= n
    ensures forall a :: a in Admissions(j, n, cycle, limits) + Recordings(j, n, cycle) ==> Uniform(a, cycle, limits)
    decreases n - j
  {
    if j < n {
      AllUniform(j + 1, n, cycle, limits);
      forall a | a in Admissions(j, n, cycle, limits) + Recordings(j, n, cycle)
        ensures Uniform(a, cycle, limits)
      {
        if a !in [ReadQuota(j, Some(cycle), Some(limits)), CountSeats(j, Some(limits), 0), RecordUsage(j, Some(cycle))] {
          assert a in Admissions(j + 1, n, cycle, limits) + Recordings(j + 1, n, cycle);
        }
      }
    }
  }
}
