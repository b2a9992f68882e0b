/** What every run of reservations and reconciliations keeps. */
module BudgetRuns {
  import opened Options
  import opened Totals
  import opened BudgetEngine

  /** An admitted request: what it reserved, and the actual costs it has been reconciled with so far. */
  datatype Reservation = Reservation(estimate: real, matches: seq<Match>, actuals: seq<real>)

  /** The counter table, the value each counter was first given, and every admission so far. */
  datatype State = State(counters: Counters, seeds: Counters, ledger: seq<Reservation>)

  datatype Action =
    | Reserve(request: Request, history: History)
    | Reconcile(i: nat, actual: real)

  datatype Config = Config(policies: seq<Policy>, blockUnpriced: bool)

  const INITIAL := State(map[], map[], [])

  function Step(cfg: Config, s: State, a: Action): State {
    match a
    case Reserve(r, h) =>
      var d := Decide(cfg.policies, cfg.blockUnpriced, s.counters, r, h);
      if d.Allowed? then
        State(Committed(s.counters, d, h), Seeded(s.counters, d.matches, h) + s.seeds,
              s.ledger + [Reservation(d.estimate, d.matches, [])])
      else s
    case Reconcile(i, actual) =>
      if i >= |s.ledger| then s
      else
        var r := s.ledger[i];
        s.(counters := Reconciled(s.counters, r.estimate, r.matches, actual),
           ledger := s.ledger[i := r.(actuals := r.actuals + [actual])])
  }

  function Run(cfg: Config, s: State, acts: seq<Action>): State
    decreases acts
  {
    if acts == [] then s else Run(cfg, Step(cfg, s, acts[0]), acts[1..])
  }

  // ---- conservation ----

  function Surplus(estimate: real): real -> real {
    (actual: real) => actual - estimate
  }

  /** What a reservation counts for: its estimate until it is reconciled, its actual cost once it has been. */
  function Worth(r: Reservation): real {
    r.estimate + Total(r.actuals, Surplus(r.estimate))
  }

  lemma WorthOnceReconciled(r: Reservation)
    ensures r.actuals == [] ==> Worth(r) == r.estimate
    ensures |r.actuals| == 1 ==> Worth(r) == r.actuals[0]
  {
    if |r.actuals| == 1 {
      assert r.actuals == [r.actuals[0]];
      TotalAppend([], r.actuals[0], Surplus(r.estimate));
      assert [] + [r.actuals[0]] == r.actuals;
    }
  }

  function Share(k: CounterKey): Reservation -> real {
    (r: Reservation) => Times(Uses(r.matches, k), Worth(r))
  }

  /** Every counter is its first value plus what its reservations are worth, counted with multiplicity. */
  predicate Conserved(s: State, k: CounterKey) {
    (k in s.seeds <==> k in s.counters) &&
    (k in s.counters ==> s.counters[k] == s.seeds[k] + Total(s.ledger, Share(k))) &&
    (k !in s.counters ==> forall r :: r in s.ledger ==> Uses(r.matches, k) == 0) &&
    (forall r :: r in s.ledger && r.matches != [] ==> r.estimate > 0.0)
  }

  /** What a committed admission does to one counter. */
  lemma CommittedCounter(c: Counters, ms: seq<Match>, d: real, h: History, k: CounterKey)
    ensures var seeded := Seeded(c, ms, h);
            var c' := AddAll(seeded, ms, d);
            (k in c' <==> k in seeded) && (k in seeded ==> c'[k] == seeded[k] + Times(Uses(ms, k), d)) &&
            (k in c ==> k in seeded && seeded[k] == c[k]) && (k !in seeded ==> Uses(ms, k) == 0)
  {
    SeededKeeps(c, ms, h);
    AddAllCounts(Seeded(c, ms, h), ms, d, k);
    UnusedKey(ms, k);
  }

  lemma AdmissionConserves(cfg: Config, s: State, r: Request, h: History, k: CounterKey)
    requires Conserved(s, k)
    ensures Conserved(Step(cfg, s, Reserve(r, h)), k)
  {
    var d := Decide(cfg.policies, cfg.blockUnpriced, s.counters, r, h);
    if d.Allowed? {
      AdmittedConserves(s, d.estimate, d.matches, h, k);
    }
  }

  lemma AdmittedConserves(s: State, estimate: real, ms: seq<Match>, h: History, k: CounterKey)
    requires Conserved(s, k) && (ms != [] ==> estimate > 0.0)
    ensures Conserved(State(AddAll(Seeded(s.counters, ms, h), ms, estimate), Seeded(s.counters, ms, h) + s.seeds,
                            s.ledger + [Reservation(estimate, ms, [])]), k)
  {
    var entry := Reservation(estimate, ms, []);
    CommittedCounter(s.counters, ms, estimate, h, k);
    TotalAppend(s.ledger, entry, Share(k));
    WorthOnceReconciled(entry);
    if k !in s.counters {
      TotalZero(s.ledger, Share(k));
    }
  }

  /** A counter no match names is used zero times. */
  lemma {:induction false} UnusedKey(ms: seq<Match>, k: CounterKey)
    ensures Uses(ms, k) == 0 <==> forall m :: m in ms ==> m.key != k
  {
    if ms != [] {
      UnusedKey(ms[1..], k);
    }
  }

  lemma ReconcileConserves(cfg: Config, s: State, i: nat, actual: real, k: CounterKey)
    requires Conserved(s, k)
    ensures Conserved(Step(cfg, s, Reconcile(i, actual)), k)
  {
    if i < |s.ledger| {
      var r := s.ledger[i];
      var r' := r.(actuals := r.actuals + [actual]);
      assert r in s.ledger;
      TotalUpdate(s.ledger, i, r', Share(k));
      TotalAppend(r.actuals, actual, Surplus(r.estimate));
      assert Worth(r') == Worth(r) + (actual - r.estimate);
      AddAllCounts(s.counters, r.matches, actual - r.estimate, k);
      TimesSplits(Uses(r.matches, k), Worth(r), actual - r.estimate);
      var ledger' := s.ledger[i := r'];
      forall q | q in ledger'
        ensures (q.matches != [] ==> q.estimate > 0.0) && (k !in s.counters ==> Uses(q.matches, k) == 0)
      {
        assert q == r' || q in s.ledger;
      }
    }
  }

  /** In every run, each counter equals its seed plus the estimates of its outstanding reservations plus the
      actual costs of its reconciled ones, even when a reconciliation comes after the period has rolled over. */
  lemma {:induction false} CountersAreConserved(cfg: Config, s: State, acts: seq<Action>, k: CounterKey)
    requires Conserved(s, k)
    ensures Conserved(Run(cfg, s, acts), k)
    decreases acts
  {
    if acts != [] {
      match acts[0] {
        case Reserve(r, h) => AdmissionConserves(cfg, s, r, h, k);
        case Reconcile(i, actual) => ReconcileConserves(cfg, s, i, actual, k);
      }
      CountersAreConserved(cfg, Step(cfg, s, acts[0]), acts[1..], k);
    }
  }

  /** Outstanding money and settled money, when nothing is reconciled twice. */
  function Outstanding(k: CounterKey): Reservation -> real {
    (r: Reservation) => if r.actuals == [] then Times(Uses(r.matches, k), r.estimate) else 0.0
  }

  function Settled(k: CounterKey): Reservation -> real {
    (r: Reservation) => if r.actuals == [] then 0.0 else Times(Uses(r.matches, k), r.actuals[0])
  }

  lemma CounterIsSeedPlusOutstandingPlusSettled(cfg: Config, acts: seq<Action>, k: CounterKey)
    requires forall r :: r in Run(cfg, INITIAL, acts).ledger ==> |r.actuals| <= 1
    requires k in Run(cfg, INITIAL, acts).counters
    ensures var e := Run(cfg, INITIAL, acts);
            k in e.seeds && e.counters[k] == e.seeds[k] + Total(e.ledger, Outstanding(k)) + Total(e.ledger, Settled(k))
  {
    CountersAreConserved(cfg, INITIAL, acts, k);
    SplitShares(Run(cfg, INITIAL, acts).ledger, k);
  }

  lemma {:induction false} SplitShares(ledger: seq<Reservation>, k: CounterKey)
    requires forall r :: r in ledger ==> |r.actuals| <= 1
    ensures Total(ledger, Share(k)) == Total(ledger, Outstanding(k)) + Total(ledger, Settled(k))
  {
    if ledger != [] {
      WorthOnceReconciled(ledger[0]);
      SplitShares(ledger[1..], k);
    }
  }

  // ---- admission ----

  predicate DistinctKeys(ms: seq<Match>) {
    forall i, j :: 0 <= i < j < |ms| ==> ms[i].key != ms[j].key
  }

  predicate DistinctNames(policies: seq<Policy>) {
    forall i, j :: 0 <= i < j < |policies| ==> policies[i].name != policies[j].name
  }

  lemma {:induction false} DistinctKeysUseOnce(ms: seq<Match>)
    ensures DistinctKeys(ms) <==> forall m :: m in ms ==> Uses(ms, m.key) == 1
  {
    if ms != [] {
      var rest := ms[1..];
      DistinctKeysUseOnce(rest);
      UnusedKey(rest, ms[0].key);
      if DistinctKeys(ms) {
        assert DistinctKeys(rest) by {
          forall i, j | 0 <= i < j < |rest|
            ensures rest[i].key != rest[j].key
          {
            assert ms[i + 1].key != ms[j + 1].key;
          }
        }
        forall m | m in rest
          ensures m.key != ms[0].key
        {
          var j :| 0 <= j < |rest| && rest[j] == m;
          assert ms[j + 1] == m;
        }
      } else {
        var i, j :| 0 <= i < j < |ms| && ms[i].key == ms[j].key;
        if i == 0 {
          assert rest[j - 1] in rest;
          assert Uses(ms, ms[0].key) != 1;
          assert ms[0] in ms;
        } else {
          assert rest[i - 1].key == rest[j - 1].key;
          var m :| m in rest && Uses(rest, m.key) != 1;
          UnusedKey(rest, m.key);
          assert m in ms && Uses(ms, m.key) != 1;
        }
      }
    }
  }

  /** Whatever the table and the estimate, reserving within the limits leaves every matched counter within its limit. */
  ghost predicate ReservationsStayWithin(ms: seq<Match>) {
    forall c: Counters, d: real :: d > 0.0 && AllWithin(c, ms, d) ==> AllWithin(AddAll(c, ms, d), ms, 0.0)
  }

  /** The check bounds what is reserved exactly when no two matched policies share a counter row. */
  lemma AdmissionNeedsDistinctCounters(ms: seq<Match>)
    ensures ReservationsStayWithin(ms) <==> DistinctKeys(ms)
  {
    DistinctKeysUseOnce(ms);
    if DistinctKeys(ms) {
      forall c: Counters, d: real | d > 0.0 && AllWithin(c, ms, d)
        ensures AllWithin(AddAll(c, ms, d), ms, 0.0)
      {
        DistinctStaysWithin(c, ms, d);
      }
    } else {
      var m :| m in ms && Uses(ms, m.key) != 1;
      UnusedKey(ms, m.key);
      var c := TightTable(ms, ms);
      TightTableFits(ms, ms);
      assert AllWithin(c, ms, 1.0);
      AddAllCounts(c, ms, 1.0, m.key);
      var tight := TightMatch(ms, ms, m);
      TimesUnits(Uses(ms, m.key));
      assert !Within(AddAll(c, ms, 1.0), tight, 0.0);
    }
  }

  lemma {:induction false} TimesUnits(n: nat)
    ensures Times(n, 1.0) == n as real
  {
    if n > 0 {
      TimesUnits(n - 1);
    }
  }

  lemma DistinctStaysWithin(c: Counters, ms: seq<Match>, d: real)
    requires DistinctKeys(ms) && AllWithin(c, ms, d)
    ensures AllWithin(AddAll(c, ms, d), ms, 0.0)
  {
    DistinctKeysUseOnce(ms);
    forall m | m in ms
      ensures Within(AddAll(c, ms, d), m, 0.0)
    {
      assert Within(c, m, d);
      AddAllCounts(c, ms, d, m.key);
    }
  }

  function LeastLimit(ms: seq<Match>, k: CounterKey): Option<real> {
    if ms == [] then None
    else
      var rest := LeastLimit(ms[1..], k);
      if ms[0].key != k then rest
      else if rest.Some? && rest.value < ms[0].policy.limit then rest
      else Some(ms[0].policy.limit)
  }

  /** One unit below the strictest limit on every counter that occurs in `todo`. */
  function TightTable(todo: seq<Match>, ms: seq<Match>): Counters {
    if todo == [] then map[]
    else
      var limit := LeastLimit(ms, todo[0].key);
      TightTable(todo[1..], ms)[todo[0].key := if limit.Some? then limit.value - 1.0 else 0.0]
  }

  lemma {:induction false} LeastLimitIsLeast(ms: seq<Match>, m: Match)
    requires m in ms
    ensures LeastLimit(ms, m.key).Some? && LeastLimit(ms, m.key).value <= m.policy.limit
  {
    if m != ms[0] {
      LeastLimitIsLeast(ms[1..], m);
    }
  }

  lemma {:induction false} TightTableFits(todo: seq<Match>, ms: seq<Match>)
    requires forall m :: m in todo ==> m in ms
    ensures forall m :: m in todo ==>
                          m.key in TightTable(todo, ms) && LeastLimit(ms, m.key).Some?
                          && TightTable(todo, ms)[m.key] == LeastLimit(ms, m.key).value - 1.0
                          && Within(TightTable(todo, ms), m, 1.0)
  {
    if todo != [] {
      TightTableFits(todo[1..], ms);
      forall m | m in todo
        ensures m.key in TightTable(todo, ms) && LeastLimit(ms, m.key).Some?
                && TightTable(todo, ms)[m.key] == LeastLimit(ms, m.key).value - 1.0
                && Within(TightTable(todo, ms), m, 1.0)
      {
        LeastLimitIsLeast(ms, m);
      }
    }
  }

  lemma {:induction false} TightMatch(todo: seq<Match>, ms: seq<Match>, m: Match) returns (t: Match)
    requires forall x :: x in todo ==> x in ms
    requires LeastLimit(todo, m.key).Some?
    ensures t in todo && t.key == m.key && t.policy.limit == LeastLimit(todo, m.key).value
  {
    if todo[0].key == m.key && todo[0].policy.limit == LeastLimit(todo, m.key).value {
      t := todo[0];
    } else {
      t := TightMatch(todo[1..], ms, m);
    }
  }

  // ---- bounded overshoot ----

  lemma {:induction false} MatchingComesFromPolicies(policies: seq<Policy>, r: Request)
    ensures forall m :: m in Matching(policies, r) ==> m.policy in policies && m == MatchOf(m.policy, r.now)
    ensures DistinctNames(policies) ==> DistinctKeys(Matching(policies, r))
  {
    if policies != [] {
      var rest := policies[1..];
      MatchingComesFromPolicies(rest, r);
      var tail := Matching(rest, r);
      if DistinctNames(policies) && Matches(policies[0], r.model, r.context) {
        assert DistinctNames(rest) by {
          forall i, j | 0 <= i < j < |rest|
            ensures rest[i].name != rest[j].name
          {
            assert policies[i + 1].name != policies[j + 1].name;
          }
        }
        forall m | m in tail
          ensures m.key.name != policies[0].name
        {
          var j :| 0 <= j < |rest| && rest[j] == m.policy;
          assert policies[j + 1] == m.policy;
        }
        assert Matching(policies, r) == [MatchOf(policies[0], r.now)] + tail;
      } else if DistinctNames(policies) {
        assert DistinctNames(rest) by {
          forall i, j | 0 <= i < j < |rest|
            ensures rest[i].name != rest[j].name
          {
            assert policies[i + 1].name != policies[j + 1].name;
          }
        }
        assert Matching(policies, r) == tail;
      }
    }
  }

  function Excess(estimate: real): real -> real {
    (actual: real) => if actual > estimate then actual - estimate else 0.0
  }

  /** How far a counter's reconciled requests went over what they had reserved. */
  function Overrun(k: CounterKey): Reservation -> real {
    (r: Reservation) => if Uses(r.matches, k) > 0 then Total(r.actuals, Excess(r.estimate)) else 0.0
  }

  predicate Bounded(s: State, p: Policy, k: CounterKey) {
    (k in s.counters ==> s.counters[k] <= p.limit + Total(s.ledger, Overrun(k))) &&
    (forall r :: r in s.ledger ==> DistinctKeys(r.matches))
  }

  lemma AdmissionBounds(cfg: Config, s: State, r: Request, h: History, p: Policy, k: CounterKey)
    requires DistinctNames(cfg.policies) && p in cfg.policies && k.name == p.name && Bounded(s, p, k)
    ensures Bounded(Step(cfg, s, Reserve(r, h)), p, k)
  {
    var d := Decide(cfg.policies, cfg.blockUnpriced, s.counters, r, h);
    if d.Allowed? {
      MatchingComesFromPolicies(cfg.policies, r);
      FirstViolationFinds(Seeded(s.counters, Matching(cfg.policies, r), h), Matching(cfg.policies, r), r.estimate);
      forall m | m in d.matches && m.key == k
        ensures m.policy == p
      {
      }
      AdmittedBounds(s, d.estimate, d.matches, h, p, k);
    }
  }

  lemma AdmittedBounds(s: State, estimate: real, ms: seq<Match>, h: History, p: Policy, k: CounterKey)
    requires Bounded(s, p, k) && DistinctKeys(ms) && AllWithin(Seeded(s.counters, ms, h), ms, estimate)
    requires forall m :: m in ms && m.key == k ==> m.policy == p
    ensures Bounded(State(AddAll(Seeded(s.counters, ms, h), ms, estimate), Seeded(s.counters, ms, h) + s.seeds,
                          s.ledger + [Reservation(estimate, ms, [])]), p, k)
  {
    var c := Seeded(s.counters, ms, h);
    SeededKeeps(s.counters, ms, h);
    CommittedCounter(s.counters, ms, estimate, h, k);
    UnusedKey(ms, k);
    TotalAppend(s.ledger, Reservation(estimate, ms, []), Overrun(k));
    OverrunsAreNonnegative(s.ledger, k);
    if k in c && Uses(ms, k) > 0 {
      var m :| m in ms && m.key == k;
      DistinctKeysUseOnce(ms);
      assert Within(c, m, estimate);
    }
  }

  lemma OverrunsAreNonnegative(ledger: seq<Reservation>, k: CounterKey)
    ensures Total(ledger, Overrun(k)) >= 0.0
  {
    forall r | r in ledger
      ensures Overrun(k)(r) >= 0.0
    {
      TotalNonnegative(r.actuals, Excess(r.estimate));
    }
    TotalNonnegative(ledger, Overrun(k));
  }

  lemma ReconcileBounds(cfg: Config, s: State, i: nat, actual: real, p: Policy, k: CounterKey)
    requires Bounded(s, p, k)
    ensures Bounded(Step(cfg, s, Reconcile(i, actual)), p, k)
  {
    if i < |s.ledger| {
      var r := s.ledger[i];
      var r' := r.(actuals := r.actuals + [actual]);
      assert r in s.ledger;
      TotalUpdate(s.ledger, i, r', Overrun(k));
      TotalAppend(r.actuals, actual, Excess(r.estimate));
      AddAllCounts(s.counters, r.matches, actual - r.estimate, k);
      DistinctKeysUseOnce(r.matches);
      UnusedKey(r.matches, k);
      var ledger' := s.ledger[i := r'];
      forall q | q in ledger'
        ensures DistinctKeys(q.matches)
      {
        assert q == r' || q in s.ledger;
      }
    }
  }

  /** With distinct policy names, no reachable counter exceeds its policy's limit by more than the amounts by
      which reconciled requests on it cost more than they had reserved. */
  lemma {:induction false} OvershootIsOnlyUnderestimates(cfg: Config, s: State, acts: seq<Action>, p: Policy, k: CounterKey)
    requires DistinctNames(cfg.policies) && p in cfg.policies && k.name == p.name && Bounded(s, p, k)
    ensures Bounded(Run(cfg, s, acts), p, k)
    decreases acts
  {
    if acts != [] {
      match acts[0] {
        case Reserve(r, h) => AdmissionBounds(cfg, s, r, h, p, k);
        case Reconcile(i, actual) => ReconcileBounds(cfg, s, i, actual, p, k);
      }
      OvershootIsOnlyUnderestimates(cfg, Step(cfg, s, acts[0]), acts[1..], p, k);
    }
  }

  /** A rejection leaves the table as it was; an admission with distinct names leaves every matched counter within its limit. */
  lemma AdmissionIsAllOrNothing(cfg: Config, c: Counters, r: Request, h: History)
    requires DistinctNames(cfg.policies)
    ensures var d := Decide(cfg.policies, cfg.blockUnpriced, c, r, h);
            (!d.Allowed? ==> Committed(c, d, h) == c) &&
            (d.Allowed? ==> AllWithin(Committed(c, d, h), d.matches, 0.0)) &&
            (d.Exceeded? ==> d.policy in cfg.policies && Matches(d.policy, r.model, r.context) && r.estimate > 0.0)
  {
    var d := Decide(cfg.policies, cfg.blockUnpriced, c, r, h);
    var ms := Matching(cfg.policies, r);
    MatchingComesFromPolicies(cfg.policies, r);
    MatchingMatches(cfg.policies, r);
    FirstViolationFinds(Seeded(c, ms, h), ms, r.estimate);
    if d.Allowed? && d.matches != [] {
      DistinctStaysWithin(Seeded(c, ms, h), ms, r.estimate);
    }
  }

  lemma {:induction false} MatchingMatches(policies: seq<Policy>, r: Request)
    ensures forall m :: m in Matching(policies, r) ==> Matches(m.policy, r.model, r.context)
    ensures forall p :: p in policies && Matches(p, r.model, r.context) ==> MatchOf(p, r.now) in Matching(policies, r)
  {
    if policies != [] {
      MatchingMatches(policies[1..], r);
    }
  }
}
