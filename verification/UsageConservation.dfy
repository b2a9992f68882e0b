/** Usage counters are sums of recorded batches, and replayed webhooks leave no trace. */
module UsageConservation {
  import opened Options
  import opened UsageTable
  import opened UsageMachine
  import opened Folds

  /** What a batch has been charged to a cycle. */
  function Charge(k: CycleKey, d: Dimension): Batch -> int {
    (b: Batch) => if Counted(b.phase) && b.phase.key == k then Amount(b.amounts, d) else 0
  }

  function Charged(s: State, k: CycleKey, d: Dimension): int {
    Sum(s.batches, Charge(k, d))
  }

  /** One batch changes phase and the table changes with it: conservation is a matter of that batch alone. */
  lemma MoveConserves(s: State, s': State, i: nat, k: CycleKey, d: Dimension)
    requires i < |s.batches| && |s'.batches| == |s.batches|
    requires s'.batches == s.batches[i := s.batches[i].(phase := s'.batches[i].phase)]
    requires Counter(s'.table, k, d) - Counter(s.table, k, d) == Charge(k, d)(s'.batches[i]) - Charge(k, d)(s.batches[i])
    ensures Counter(s'.table, k, d) - Charged(s', k, d) == Counter(s.table, k, d) - Charged(s, k, d)
  {
    SumUpdate(s.batches, i, s'.batches[i], Charge(k, d));
    assert s'.batches == s.batches[i := s'.batches[i]];
  }

  lemma ReadQuotaConserves(s: State, i: nat, cycle: Option<Cycle>, limits: Option<Limits>, k: CycleKey, d: Dimension)
    ensures var s' := ReadQuotaStep(s, i, cycle, limits);
            Counter(s'.table, k, d) - Charged(s', k, d) == Counter(s.table, k, d) - Charged(s, k, d)
  {
    if AtPhase(s, i, Arrived) {
      MoveConserves(s, ReadQuotaStep(s, i, cycle, limits), i, k, d);
    }
  }

  lemma RecordUsageConserves(s: State, i: nat, cycle: Option<Cycle>, k: CycleKey, d: Dimension)
    ensures var s' := RecordUsageStep(s, i, cycle);
            Counter(s'.table, k, d) - Charged(s', k, d) == Counter(s.table, k, d) - Charged(s, k, d)
  {
    if AtPhase(s, i, Cleared) {
      MoveConserves(s, RecordUsageStep(s, i, cycle), i, k, d);
    }
  }

  lemma ClaimConserves(s: State, i: nat, cap: Option<int>, k: CycleKey, d: Dimension)
    ensures var s' := ClaimStep(s, i, cap);
            Counter(s'.table, k, d) - Charged(s', k, d) == Counter(s.table, k, d) - Charged(s, k, d)
  {
    if i < |s.batches| && s.batches[i].phase.Metered? {
      MoveConserves(s, ClaimStep(s, i, cap), i, k, d);
    }
  }

  lemma QuietConserves(s: State, i: nat, limits: Option<Limits>, members: int, k: CycleKey, d: Dimension)
    ensures var s' := CountSeatsStep(s, i, limits, members);
            Counter(s'.table, k, d) - Charged(s', k, d) == Counter(s.table, k, d) - Charged(s, k, d)
    ensures var s' := AbortStep(s, i);
            Counter(s'.table, k, d) - Charged(s', k, d) == Counter(s.table, k, d) - Charged(s, k, d)
  {
    if i < |s.batches| {
      MoveConserves(s, CountSeatsStep(s, i, limits, members), i, k, d);
      MoveConserves(s, AbortStep(s, i), i, k, d);
    }
  }

  /** No statement moves a counter except together with the batch it is charged to. */
  lemma StepConserves(s: State, a: Action, k: CycleKey, d: Dimension)
    ensures Counter(Step(s, a).table, k, d) - Charged(Step(s, a), k, d) == Counter(s.table, k, d) - Charged(s, k, d)
  {
    match a
    case ReadQuota(i, cycle, limits) => ReadQuotaConserves(s, i, cycle, limits, k, d);
    case CountSeats(i, limits, members) => QuietConserves(s, i, limits, members, k, d);
    case RecordUsage(i, cycle) => RecordUsageConserves(s, i, cycle, k, d);
    case ClaimThreshold(i, cap) => ClaimConserves(s, i, cap, k, d);
    case Abort(i) => QuietConserves(s, i, None, 0, k, d);
    case _ => WebhooksOnlySeed(s, a);
  }

  /** In every run, each cycle's counter has grown by exactly the batches recorded to it. */
  lemma {:induction false} CountersAreRecordedBatches(s: State, acts: seq<Action>, k: CycleKey, d: Dimension)
    ensures Counter(Run(s, acts).table, k, d) - Counter(s.table, k, d) == Charged(Run(s, acts), k, d) - Charged(s, k, d)
    decreases acts
  {
    if acts != [] {
      StepConserves(s, acts[0], k, d);
      CountersAreRecordedBatches(Step(s, acts[0]), acts[1..], k, d);
    }
  }

  /** A request counter is never lowered or reset, and no row disappears, whatever webhooks arrive meanwhile. */
  lemma {:induction false} RequestCountNeverFalls(s: State, acts: seq<Action>, k: CycleKey)
    ensures Counter(Run(s, acts).table, k, Requests) >= Counter(s.table, k, Requests)
    ensures s.table.Keys <= Run(s, acts).table.Keys
    decreases acts
  {
    if acts != [] {
      var a := acts[0];
      if a.Deliver? || a.Handle? || a.HandlerFails? {
        WebhooksOnlySeed(s, a);
      }
      RequestCountNeverFalls(Step(s, a), acts[1..], k);
    }
  }

  // ---- replayed webhooks ----

  /** The run with every delivery of an already delivered event id removed. */
  function WithoutReplays(acts: seq<Action>, seen: set<string>): seq<Action>
    decreases acts
  {
    if acts == [] then []
    else if acts[0].Deliver? && acts[0].event.id.Some? then
      var id := acts[0].event.id.value;
      if id in seen then WithoutReplays(acts[1..], seen)
      else [acts[0]] + WithoutReplays(acts[1..], seen + {id})
    else [acts[0]] + WithoutReplays(acts[1..], seen)
  }

  /** Any interleaving of deliveries, quota reads and usage records ends in the state of the run without replays. */
  lemma {:induction false} ReplaysChangeNothing(s: State, acts: seq<Action>)
    ensures Run(s, acts) == Run(s, WithoutReplays(acts, s.events))
    decreases acts
  {
    if acts != [] {
      var a := acts[0];
      ReplaysChangeNothing(Step(s, a), acts[1..]);
      if !(a.Deliver? && a.event.id.Some? && a.event.id.value in s.events) {
        var rest := WithoutReplays(acts[1..], Step(s, a).events);
        assert WithoutReplays(acts, s.events) == [a] + rest;
      }
    }
  }

  /** The deduplicated run delivers each event id at most once. */
  lemma {:induction false} EachEventOnce(acts: seq<Action>, seen: set<string>, i: nat, j: nat)
    requires i < j < |WithoutReplays(acts, seen)|
    requires WithoutReplays(acts, seen)[i].Deliver? && WithoutReplays(acts, seen)[i].event.id.Some?
    requires WithoutReplays(acts, seen)[j].Deliver? && WithoutReplays(acts, seen)[j].event.id.Some?
    ensures WithoutReplays(acts, seen)[i].event.id != WithoutReplays(acts, seen)[j].event.id
    decreases acts
  {
    if acts != [] {
      var taken := if acts[0].Deliver? && acts[0].event.id.Some? then seen + {acts[0].event.id.value} else seen;
      var rest := WithoutReplays(acts[1..], taken);
      if acts[0].Deliver? && acts[0].event.id.Some? && acts[0].event.id.value in seen {
        assert taken == seen;
        EachEventOnce(acts[1..], taken, i, j);
      } else if i == 0 {
        LaterEventsAreNew(acts[1..], taken, j - 1);
      } else {
        EachEventOnce(acts[1..], taken, i - 1, j - 1);
      }
    }
  }

  lemma {:induction false} LaterEventsAreNew(acts: seq<Action>, seen: set<string>, j: nat)
    requires j < |WithoutReplays(acts, seen)|
    requires WithoutReplays(acts, seen)[j].Deliver? && WithoutReplays(acts, seen)[j].event.id.Some?
    ensures WithoutReplays(acts, seen)[j].event.id.value !in seen
    decreases acts
  {
    if acts != [] {
      if acts[0].Deliver? && acts[0].event.id.Some? {
        var id := acts[0].event.id.value;
        if id in seen {
          LaterEventsAreNew(acts[1..], seen, j);
        } else if j > 0 {
          LaterEventsAreNew(acts[1..], seen + {id}, j - 1);
        }
      } else if j > 0 {
        LaterEventsAreNew(acts[1..], seen, j - 1);
      }
    }
  }
}
