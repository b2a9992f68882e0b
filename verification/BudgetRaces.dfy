/**
 The engine without a shared lock. The proxy builds an engine, and with it a lock, for every request, so the
 check of one request and the reservation of another can interleave; each of the two is still one transaction.
 */
module BudgetRaces {
  import opened Options
  import opened Totals
  import opened BudgetEngine
  import opened BudgetRuns

  /** A request between its check and its reservation; `history` is what it read for missing counters. */
  datatype Flight = Flight(estimate: real, matches: seq<Match>, history: History)

  datatype Race = Race(counters: Counters, flights: seq<Flight>, ledger: seq<Reservation>)

  datatype Move =
    | Check(request: Request, history: History)
    | Commit(i: nat)
    | Settle(i: nat, actual: real)

  function CheckMove(cfg: Config, s: Race, r: Request, h: History): Race {
    var d := Decide(cfg.policies, cfg.blockUnpriced, s.counters, r, h);
    if d.Allowed? && d.matches != [] then s.(flights := s.flights + [Flight(d.estimate, d.matches, h)]) else s
  }

  function CommitMove(s: Race, i: nat): Race {
    if i >= |s.flights| then s
    else
      var f := s.flights[i];
      Race(AddAll(Seeded(s.counters, f.matches, f.history), f.matches, f.estimate),
           s.flights[..i] + s.flights[i + 1..], s.ledger + [Reservation(f.estimate, f.matches, [])])
  }

  function SettleMove(s: Race, i: nat, actual: real): Race {
    if i >= |s.ledger| then s
    else
      var r := s.ledger[i];
      s.(counters := Reconciled(s.counters, r.estimate, r.matches, actual),
         ledger := s.ledger[i := r.(actuals := r.actuals + [actual])])
  }

  function Next(cfg: Config, s: Race, a: Move): Race {
    match a
    case Check(r, h) => CheckMove(cfg, s, r, h)
    case Commit(i) => CommitMove(s, i)
    case Settle(i, actual) => SettleMove(s, i, actual)
  }

  function RunRace(cfg: Config, s: Race, acts: seq<Move>): Race
    decreases acts
  {
    if |acts| == 0 then s else RunRace(cfg, Next(cfg, s, acts[0]), acts[1..])
  }

  /** Uninterrupted, a check and its commit are the engine's one decision. */
  lemma UninterruptedCheckCommits(cfg: Config, s: Race, r: Request, h: History)
    ensures var d := Decide(cfg.policies, cfg.blockUnpriced, s.counters, r, h);
            var e := CommitMove(CheckMove(cfg, s, r, h), |s.flights|);
            e.counters == Committed(s.counters, d, h) && e.flights == s.flights &&
            e.ledger == s.ledger + if d.Allowed? && d.matches != [] then [Reservation(d.estimate, d.matches, [])] else []
  {
    var s1 := CheckMove(cfg, s, r, h);
    if |s1.flights| > |s.flights| {
      assert s1.flights[..|s.flights|] + s1.flights[|s.flights| + 1..] == s.flights;
    }
  }

  function OnCounter(k: CounterKey): Flight -> real {
    (f: Flight) => if Uses(f.matches, k) > 0 then f.estimate else 0.0
  }

  /** What requests in flight are about to reserve on a counter. */
  function Aloft(s: Race, k: CounterKey): real {
    Total(s.flights, OnCounter(k))
  }

  /** Beside any one request, the others in flight on the counter are about to reserve at most `slack`. */
  predicate Uncrowded(s: Race, k: CounterKey, slack: real) {
    forall i :: 0 <= i < |s.flights| && Uses(s.flights[i].matches, k) > 0 ==> Aloft(s, k) - s.flights[i].estimate <= slack
  }

  predicate UncrowdedRun(cfg: Config, s: Race, acts: seq<Move>, k: CounterKey, slack: real)
    decreases acts
  {
    Uncrowded(s, k, slack) && (|acts| > 0 ==> UncrowdedRun(cfg, Next(cfg, s, acts[0]), acts[1..], k, slack))
  }

  /** A flight still fits under the limit of every counter that has no row yet. */
  predicate Fits(f: Flight, c: Counters) {
    f.estimate > 0.0 && DistinctKeys(f.matches) &&
    forall m :: m in f.matches && m.key !in c ==> f.history(m.policy, m.key.start) + f.estimate <= m.policy.limit
  }

  predicate Known(cfg: Config, ms: seq<Match>) {
    forall m :: m in ms ==> m.policy in cfg.policies && m.key.name == m.policy.name
  }

  /** The counter and all that is about to be reserved on it stay within the limit, up to the slack and to what
      reconciled requests cost beyond their estimates. */
  ghost predicate Held(cfg: Config, s: Race, p: Policy, k: CounterKey, slack: real) {
    (k in s.counters ==> s.counters[k] + Aloft(s, k) <= p.limit + slack + Total(s.ledger, Overrun(k)))
    && (forall r :: r in s.ledger ==> DistinctKeys(r.matches))
    && (forall i :: 0 <= i < |s.flights| ==> Fits(s.flights[i], s.counters) && Known(cfg, s.flights[i].matches))
  }

  lemma {:induction false} NewRowIsHistory(c: Counters, ms: seq<Match>, h: History, m: Match)
    requires DistinctKeys(ms) && m in ms && m.key !in c
    ensures m.key in Seeded(c, ms, h) && Seeded(c, ms, h)[m.key] == h(m.policy, m.key.start)
    decreases ms
  {
    var c' := if ms[0].key in c then c else c[ms[0].key := h(ms[0].policy, ms[0].key.start)];
    if m == ms[0] {
      SeededKeeps(c', ms[1..], h);
    } else {
      var j :| 0 <= j < |ms| && ms[j] == m;
      assert ms[0].key != ms[j].key;
      assert DistinctKeys(ms[1..]) by {
        assert forall i, j :: 0 <= i < j < |ms[1..]| ==> ms[1..][i] == ms[i + 1] && ms[1..][j] == ms[j + 1];
      }
      NewRowIsHistory(c', ms[1..], h, m);
    }
  }

  lemma CheckedFits(cfg: Config, c: Counters, r: Request, h: History)
    requires DistinctNames(cfg.policies)
    ensures var d := Decide(cfg.policies, cfg.blockUnpriced, c, r, h);
            d.Allowed? && d.matches != [] ==>
              Fits(Flight(d.estimate, d.matches, h), c) && AllWithin(Seeded(c, d.matches, h), d.matches, d.estimate)
              && Known(cfg, d.matches)
  {
    var d := Decide(cfg.policies, cfg.blockUnpriced, c, r, h);
    if d.Allowed? && d.matches != [] {
      MatchingComesFromPolicies(cfg.policies, r);
      FirstViolationFinds(Seeded(c, d.matches, h), d.matches, d.estimate);
      forall m | m in d.matches && m.key !in c
        ensures h(m.policy, m.key.start) + d.estimate <= m.policy.limit
      {
        NewRowIsHistory(c, d.matches, h, m);
        assert Within(Seeded(c, d.matches, h), m, d.estimate);
      }
    }
  }

  /** The policy behind a match on `k` is the one policy of that name. */
  lemma UserOf(cfg: Config, ms: seq<Match>, p: Policy, k: CounterKey) returns (m: Match)
    requires DistinctNames(cfg.policies) && p in cfg.policies && k.name == p.name && Uses(ms, k) > 0
    requires Known(cfg, ms)
    ensures m in ms && m.key == k && m.policy == p
  {
    UnusedKey(ms, k);
    m :| m in ms && m.key == k;
  }

  lemma CheckHolds(cfg: Config, s: Race, r: Request, h: History, p: Policy, k: CounterKey, slack: real)
    requires DistinctNames(cfg.policies) && p in cfg.policies && k.name == p.name && Held(cfg, s, p, k, slack)
    requires Uncrowded(CheckMove(cfg, s, r, h), k, slack)
    ensures Held(cfg, CheckMove(cfg, s, r, h), p, k, slack)
  {
    var d, s' := Decide(cfg.policies, cfg.blockUnpriced, s.counters, r, h), CheckMove(cfg, s, r, h);
    if d.Allowed? && d.matches != [] {
      var f := Flight(d.estimate, d.matches, h);
      CheckedFits(cfg, s.counters, r, h);
      TotalAppend(s.flights, f, OnCounter(k));
      OverrunsAreNonnegative(s.ledger, k);
      if k in s.counters && Uses(d.matches, k) > 0 {
        var m := UserOf(cfg, d.matches, p, k);
        SeededKeeps(s.counters, d.matches, h);
        assert Within(Seeded(s.counters, d.matches, h), m, d.estimate);
        assert s'.flights[|s.flights|] == f;
      }
    }
  }

  /** The counter's new value once a flight commits. */
  lemma CommitCounter(cfg: Config, c: Counters, f: Flight, p: Policy, k: CounterKey)
    requires DistinctNames(cfg.policies) && p in cfg.policies && k.name == p.name && Fits(f, c) && Known(cfg, f.matches)
    ensures var c' := AddAll(Seeded(c, f.matches, f.history), f.matches, f.estimate);
            (k in c' <==> k in c || Uses(f.matches, k) > 0) &&
            (k in c ==> c'[k] == c[k] + OnCounter(k)(f)) &&
            (k !in c && k in c' ==> c'[k] <= p.limit)
  {
    SeededKeeps(c, f.matches, f.history);
    AddAllCounts(Seeded(c, f.matches, f.history), f.matches, f.estimate, k);
    UnusedKey(f.matches, k);
    DistinctKeysUseOnce(f.matches);
    if Uses(f.matches, k) > 0 {
      var m := UserOf(cfg, f.matches, p, k);
      TimesOnce(f.estimate);
      if k !in c {
        NewRowIsHistory(c, f.matches, f.history, m);
      }
    }
  }

  lemma TimesOnce(x: real)
    ensures Times(1, x) == x
  {
  }

  lemma KeysStay(c: Counters, f: Flight)
    ensures c.Keys <= AddAll(Seeded(c, f.matches, f.history), f.matches, f.estimate).Keys
  {
    SeededKeeps(c, f.matches, f.history);
    forall k | k in c
      ensures k in AddAll(Seeded(c, f.matches, f.history), f.matches, f.estimate)
    {
      AddAllCounts(Seeded(c, f.matches, f.history), f.matches, f.estimate, k);
    }
  }

  lemma CommitHolds(cfg: Config, s: Race, i: nat, p: Policy, k: CounterKey, slack: real)
    requires DistinctNames(cfg.policies) && p in cfg.policies && k.name == p.name && Held(cfg, s, p, k, slack)
    requires Uncrowded(s, k, slack)
    ensures Held(cfg, CommitMove(s, i), p, k, slack)
  {
    if i < |s.flights| {
      var f, s' := s.flights[i], CommitMove(s, i);
      CommitCounter(cfg, s.counters, f, p, k);
      KeysStay(s.counters, f);
      TotalDrop(s.flights, i, OnCounter(k));
      TotalAppend(s.ledger, Reservation(f.estimate, f.matches, []), Overrun(k));
      OverrunsAreNonnegative(s.ledger, k);
      forall j | 0 <= j < |s'.flights|
        ensures Fits(s'.flights[j], s'.counters) && Known(cfg, s'.flights[j].matches)
      {
        assert s'.flights[j] == s.flights[if j < i then j else j + 1];
      }
    }
  }

  lemma SettleHolds(cfg: Config, s: Race, i: nat, actual: real, p: Policy, k: CounterKey, slack: real)
    requires Held(cfg, s, p, k, slack)
    ensures Held(cfg, SettleMove(s, i, actual), p, k, slack)
  {
    if i < |s.ledger| {
      var t := State(s.counters, map[], s.ledger);
      ReconcileBounds(cfg, t, i, actual, p.(limit := p.limit + slack - Aloft(s, k)), k);
      var r := s.ledger[i];
      forall key
        ensures key in Reconciled(s.counters, r.estimate, r.matches, actual) <==> key in s.counters
      {
        AddAllCounts(s.counters, r.matches, actual - r.estimate, key);
      }
    }
  }

  /** In every interleaving of checks, reservations and reconciliations, with distinct names, a counter exceeds its
      limit by at most the underestimates of reconciled requests plus what was in flight beside a request. With one
      request in flight at a time, as under a shared lock, the slack is zero. */
  lemma {:induction false} RacesOvershootBySlack(cfg: Config, s: Race, acts: seq<Move>, p: Policy, k: CounterKey, slack: real)
    requires DistinctNames(cfg.policies) && p in cfg.policies && k.name == p.name && Held(cfg, s, p, k, slack)
    requires UncrowdedRun(cfg, s, acts, k, slack)
    ensures Held(cfg, RunRace(cfg, s, acts), p, k, slack)
    ensures var e := RunRace(cfg, s, acts);
            k in e.counters ==> e.counters[k] <= p.limit + slack + Total(e.ledger, Overrun(k))
    decreases acts
  {
    if |acts| > 0 {
      match acts[0] {
        case Check(r, h) => CheckHolds(cfg, s, r, h, p, k, slack);
        case Commit(i) => CommitHolds(cfg, s, i, p, k, slack);
        case Settle(i, actual) => SettleHolds(cfg, s, i, actual, p, k, slack);
      }
      RacesOvershootBySlack(cfg, Next(cfg, s, acts[0]), acts[1..], p, k, slack);
    } else {
      forall f | f in s.flights
        ensures OnCounter(k)(f) >= 0.0
      {
        var i :| 0 <= i < |s.flights| && s.flights[i] == f;
      }
      TotalNonnegative(s.flights, OnCounter(k));
    }
  }

  // ---- exactly when the limit can be passed ----

  function Commits(s: Race, order: seq<nat>): Race
    decreases order
  {
    if order == [] then s else Commits(CommitMove(s, order[0]), order[1..])
  }

  /** Every request in flight passed its check and comes from the configuration. */
  ghost predicate Airworthy(cfg: Config, s: Race) {
    forall i :: 0 <= i < |s.flights| ==> Fits(s.flights[i], s.counters) && Known(cfg, s.flights[i].matches)
  }

  lemma CommitAirworthy(cfg: Config, s: Race, i: nat)
    requires Airworthy(cfg, s)
    ensures Airworthy(cfg, CommitMove(s, i))
  {
    if i < |s.flights| {
      var s' := CommitMove(s, i);
      KeysStay(s.counters, s.flights[i]);
      forall j | 0 <= j < |s'.flights|
        ensures Fits(s'.flights[j], s'.counters) && Known(cfg, s'.flights[j].matches)
      {
        assert s'.flights[j] == s.flights[if j < i then j else j + 1];
      }
    }
  }

  lemma AloftIsNonnegative(cfg: Config, s: Race, k: CounterKey)
    requires Airworthy(cfg, s)
    ensures Aloft(s, k) >= 0.0
  {
    forall f | f in s.flights
      ensures OnCounter(k)(f) >= 0.0
    {
      var i :| 0 <= i < |s.flights| && s.flights[i] == f;
    }
    TotalNonnegative(s.flights, OnCounter(k));
  }

  /** What the counter will come to once everything in flight is committed, for a counter that has a row. */
  function Due(s: Race, k: CounterKey): real
    requires k in s.counters
  {
    s.counters[k] + Aloft(s, k)
  }

  lemma CommitKeepsDue(cfg: Config, s: Race, i: nat, p: Policy, k: CounterKey)
    requires DistinctNames(cfg.policies) && p in cfg.policies && k.name == p.name && Airworthy(cfg, s) && k in s.counters
    ensures k in CommitMove(s, i).counters && Due(CommitMove(s, i), k) == Due(s, k)
  {
    if i < |s.flights| {
      CommitCounter(cfg, s.counters, s.flights[i], p, k);
      TotalDrop(s.flights, i, OnCounter(k));
    }
  }

  lemma {:induction false} CommitsKeepDue(cfg: Config, s: Race, order: seq<nat>, p: Policy, k: CounterKey)
    requires DistinctNames(cfg.policies) && p in cfg.policies && k.name == p.name && Airworthy(cfg, s) && k in s.counters
    ensures Airworthy(cfg, Commits(s, order)) && k in Commits(s, order).counters && Due(Commits(s, order), k) == Due(s, k)
    decreases order
  {
    if order != [] {
      CommitKeepsDue(cfg, s, order[0], p, k);
      CommitAirworthy(cfg, s, order[0]);
      CommitsKeepDue(cfg, CommitMove(s, order[0]), order[1..], p, k);
    }
  }

  lemma {:induction false} CommitAll(s: Race) returns (order: seq<nat>)
    ensures Commits(s, order).flights == []
    decreases |s.flights|
  {
    if |s.flights| == 0 {
      order := [];
    } else {
      var rest := CommitAll(CommitMove(s, 0));
      order := [0] + rest;
      assert order[1..] == rest;
    }
  }

  /** Committing everything in flight leaves a counter that has a row at its value plus all that was aloft on it. */
  lemma CommittingAllReachesDue(cfg: Config, s: Race, p: Policy, k: CounterKey) returns (order: seq<nat>)
    requires DistinctNames(cfg.policies) && p in cfg.policies && k.name == p.name && Airworthy(cfg, s) && k in s.counters
    ensures k in Commits(s, order).counters && Commits(s, order).counters[k] == s.counters[k] + Aloft(s, k)
  {
    order := CommitAll(s);
    CommitsKeepDue(cfg, s, order, p, k);
    assert Aloft(Commits(s, order), k) == 0.0;
  }

  /** No order of committing what is in flight takes the counter over the limit. */
  ghost predicate StaysWithin(s: Race, k: CounterKey, limit: real) {
    forall order: seq<nat> :: k in Commits(s, order).counters ==> Commits(s, order).counters[k] <= limit
  }

  /** The room a counter must have: for one without a row, the first of its requests to commit sets the base. */
  ghost predicate HasRoom(s: Race, p: Policy, k: CounterKey) {
    if k in s.counters then Due(s, k) <= p.limit
    else forall i :: 0 <= i < |s.flights| && Uses(s.flights[i].matches, k) > 0 ==>
                       s.flights[i].history(p, k.start) + Aloft(s, k) <= p.limit
  }

  /** Committing a request that meets no row: the row is its history plus its estimate. */
  lemma FirstCommit(cfg: Config, s: Race, i: nat, p: Policy, k: CounterKey)
    requires DistinctNames(cfg.policies) && p in cfg.policies && k.name == p.name && Airworthy(cfg, s)
    requires k !in s.counters && i < |s.flights| && Uses(s.flights[i].matches, k) > 0
    ensures k in CommitMove(s, i).counters && Due(CommitMove(s, i), k) == s.flights[i].history(p, k.start) + Aloft(s, k)
  {
    var f := s.flights[i];
    var m := UserOf(cfg, f.matches, p, k);
    NewRowIsHistory(s.counters, f.matches, f.history, m);
    AddAllCounts(Seeded(s.counters, f.matches, f.history), f.matches, f.estimate, k);
    DistinctKeysUseOnce(f.matches);
    TimesOnce(f.estimate);
    TotalDrop(s.flights, i, OnCounter(k));
  }

  lemma OtherCommit(cfg: Config, s: Race, i: nat, p: Policy, k: CounterKey)
    requires DistinctNames(cfg.policies) && p in cfg.policies && k.name == p.name && Airworthy(cfg, s) && HasRoom(s, p, k)
    requires k !in s.counters && i < |s.flights| && Uses(s.flights[i].matches, k) == 0
    ensures k !in CommitMove(s, i).counters && HasRoom(CommitMove(s, i), p, k)
  {
    var s' := CommitMove(s, i);
    CommitCounter(cfg, s.counters, s.flights[i], p, k);
    TotalDrop(s.flights, i, OnCounter(k));
    forall j | 0 <= j < |s'.flights| && Uses(s'.flights[j].matches, k) > 0
      ensures s'.flights[j].history(p, k.start) + Aloft(s', k) <= p.limit
    {
      assert s'.flights[j] == s.flights[if j < i then j else j + 1];
    }
  }

  lemma CommitKeepsRoom(cfg: Config, s: Race, i: nat, p: Policy, k: CounterKey)
    requires DistinctNames(cfg.policies) && p in cfg.policies && k.name == p.name && Airworthy(cfg, s) && HasRoom(s, p, k)
    ensures HasRoom(CommitMove(s, i), p, k)
  {
    if i < |s.flights| {
      if k in s.counters {
        CommitKeepsDue(cfg, s, i, p, k);
      } else if Uses(s.flights[i].matches, k) > 0 {
        FirstCommit(cfg, s, i, p, k);
      } else {
        OtherCommit(cfg, s, i, p, k);
      }
    }
  }

  lemma {:induction false} RoomKeepsWithin(cfg: Config, s: Race, order: seq<nat>, p: Policy, k: CounterKey)
    requires DistinctNames(cfg.policies) && p in cfg.policies && k.name == p.name && Airworthy(cfg, s) && HasRoom(s, p, k)
    ensures k in Commits(s, order).counters ==> Commits(s, order).counters[k] <= p.limit
    decreases order
  {
    if order == [] {
      AloftIsNonnegative(cfg, s, k);
    } else {
      CommitKeepsRoom(cfg, s, order[0], p, k);
      CommitAirworthy(cfg, s, order[0]);
      RoomKeepsWithin(cfg, CommitMove(s, order[0]), order[1..], p, k);
    }
  }

  /** What checks run side by side can break, exactly: whatever requests are in flight, in no order of their commits does
      the counter pass its limit if and only if there is room for all of them together. */
  lemma LimitHoldsIff(cfg: Config, s: Race, p: Policy, k: CounterKey)
    requires DistinctNames(cfg.policies) && p in cfg.policies && k.name == p.name && Airworthy(cfg, s)
    ensures StaysWithin(s, k, p.limit) <==> HasRoom(s, p, k)
  {
    if HasRoom(s, p, k) {
      forall order: seq<nat>
        ensures k in Commits(s, order).counters ==> Commits(s, order).counters[k] <= p.limit
      {
        RoomKeepsWithin(cfg, s, order, p, k);
      }
    } else if k in s.counters {
      var order := CommittingAllReachesDue(cfg, s, p, k);
    } else {
      var i :| 0 <= i < |s.flights| && Uses(s.flights[i].matches, k) > 0
               && s.flights[i].history(p, k.start) + Aloft(s, k) > p.limit;
      FirstCommit(cfg, s, i, p, k);
      CommitAirworthy(cfg, s, i);
      var rest := CommittingAllReachesDue(cfg, CommitMove(s, i), p, k);
      var order := [i] + rest;
      assert order[1..] == rest;
      assert Commits(s, order) == Commits(CommitMove(s, i), rest);
    }
  }

  lemma CheckAirworthy(cfg: Config, s: Race, r: Request, h: History)
    requires DistinctNames(cfg.policies) && Airworthy(cfg, s)
    ensures Airworthy(cfg, CheckMove(cfg, s, r, h))
  {
    CheckedFits(cfg, s.counters, r, h);
  }

  lemma SettleAirworthy(cfg: Config, s: Race, i: nat, actual: real)
    requires Airworthy(cfg, s)
    ensures Airworthy(cfg, SettleMove(s, i, actual))
  {
    if i < |s.ledger| {
      var r := s.ledger[i];
      forall key
        ensures key in Reconciled(s.counters, r.estimate, r.matches, actual) <==> key in s.counters
      {
        AddAllCounts(s.counters, r.matches, actual - r.estimate, key);
      }
    }
  }

  /** Every reachable state is one the exact condition applies to. */
  lemma {:induction false} AlwaysAirworthy(cfg: Config, s: Race, acts: seq<Move>)
    requires DistinctNames(cfg.policies) && Airworthy(cfg, s)
    ensures Airworthy(cfg, RunRace(cfg, s, acts))
    decreases acts
  {
    if |acts| > 0 {
      match acts[0] {
        case Check(r, h) => CheckAirworthy(cfg, s, r, h);
        case Commit(i) => CommitAirworthy(cfg, s, i);
        case Settle(i, actual) => SettleAirworthy(cfg, s, i, actual);
      }
      AlwaysAirworthy(cfg, Next(cfg, s, acts[0]), acts[1..]);
    }
  }

  /** The slack is real: whatever the limit, two requests for all of it that check before either reserves are both
      admitted, and the counter ends at twice the limit. */
  lemma UnsharedLocksOvershoot(limit: real, name: string, model: string, h: History)
    requires limit > 0.0 && model != ""
    requires h(Policy(name, Model, "*", limit, Monthly), 0) == 0.0
    ensures var cfg := Config([Policy(name, Model, "*", limit, Monthly)], true);
            var r := Request(model, Context(None, None, None, None), Clock(0, 0), limit, true);
            var e := Next(cfg, Next(cfg, Next(cfg, Next(cfg, Race(map[], [], []), Check(r, h)), Check(r, h)), Commit(0)), Commit(0));
            e.counters == map[CounterKey(name, 0) := limit + limit]
  {
    var p := Policy(name, Model, "*", limit, Monthly);
    var r := Request(model, Context(None, None, None, None), Clock(0, 0), limit, true);
    var m := Match(p, CounterKey(name, 0));
    SoleRequestIsAllowed(p, r, m, h);
    var f := Flight(limit, [m], h);
    var s2 := Race(map[], [f, f], []);
    assert CheckMove(Config([p], true), CheckMove(Config([p], true), Race(map[], [], []), r, h), r, h) == s2;
    CommitOne(s2, m, limit, h);
    var s3 := CommitMove(s2, 0);
    assert s3.flights == [f];
    CommitOne(s3, m, limit, h);
  }

  lemma SoleRequestIsAllowed(p: Policy, r: Request, m: Match, h: History)
    requires Matches(p, r.model, r.context) && m == MatchOf(p, r.now) && 0.0 < r.estimate <= p.limit
    requires h(p, m.key.start) == 0.0
    ensures Decide([p], true, map[], r, h) == Allowed(r.estimate, [m])
  {
    assert [p][1..] == [] && [m][1..] == [];
    assert Matching([p], r) == [m];
    var c := map[m.key := 0.0];
    assert Seeded(map[], [m], h) == Seeded(c, [], h) == c;
    assert FirstViolation(c, [m], r.estimate) == FirstViolation(c, [], r.estimate) == None;
  }

  lemma CommitOne(s: Race, m: Match, d: real, h: History)
    requires |s.flights| > 0 && s.flights[0] == Flight(d, [m], h) && h(m.policy, m.key.start) == 0.0
    requires s.counters.Keys <= {m.key}
    ensures CommitMove(s, 0).counters == map[m.key := (if m.key in s.counters then s.counters[m.key] else 0.0) + d]
  {
    assert [m][1..] == [];
    var c := if m.key in s.counters then s.counters else s.counters[m.key := 0.0];
    assert Seeded(s.counters, [m], h) == Seeded(c, [], h) == c;
    AddOne(c, m, d);
  }

  lemma AddOne(c: Counters, m: Match, d: real)
    requires m.key in c
    ensures AddAll(c, [m], d) == c[m.key := c[m.key] + d]
  {
  }
}
