/** Budget policies, the counters behind them, and the engine that reserves and reconciles. */
module BudgetEngine {
  import opened Options

  datatype Scope = Org | Team | App | Customer | Model | OtherScope
  datatype Period = Daily | Weekly | Monthly
  datatype Policy = Policy(name: string, scope: Scope, target: string, limit: real, period: Period)

  /** What is known about a request; a missing or empty value matches no policy. */
  datatype Context = Context(org: Option<string>, team: Option<string>, app: Option<string>, customer: Option<string>)

  /** The current UTC day, and the day its month began, as days since 1970-01-01. */
  datatype Clock = Clock(day: int, monthStart: int)

  datatype CounterKey = CounterKey(name: string, start: int)
  type Counters = map<CounterKey, real>

  datatype Match = Match(policy: Policy, key: CounterKey)

  /** A call of `check_and_reserve`, with the estimate and the pricing lookup already made. */
  datatype Request = Request(model: string, context: Context, now: Clock, estimate: real, priced: bool)

  datatype Decision =
    | Allowed(estimate: real, matches: seq<Match>)
    | Exceeded(policy: Policy, estimate: real)
    | Unpriced

  /** Spend already logged for a policy since a period start: the initial value of a missing counter. */
  type History = (Policy, int) -> real

  // ---- which policies apply ----

  function ContextValue(scope: Scope, model: string, c: Context): Option<string> {
    match scope
    case Org => c.org
    case Team => c.team
    case App => c.app
    case Customer => c.customer
    case Model => Some(model)
    case OtherScope => None
  }

  predicate Matches(p: Policy, model: string, c: Context) {
    var v := ContextValue(p.scope, model, c);
    v.Some? && v.value != "" && (p.target == "*" || p.target == v.value)
  }

  /** Days run from midnight, weeks from Monday, months from the first; day 0 was a Thursday. */
  function PeriodStart(p: Period, now: Clock): int {
    match p
    case Daily => now.day
    case Weekly => now.day - (now.day + 3) % 7
    case Monthly => now.monthStart
  }

  function MatchOf(p: Policy, now: Clock): Match {
    Match(p, CounterKey(p.name, PeriodStart(p.period, now)))
  }

  function Matching(policies: seq<Policy>, r: Request): seq<Match> {
    if policies == [] then []
    else (if Matches(policies[0], r.model, r.context) then [MatchOf(policies[0], r.now)] else []) + Matching(policies[1..], r)
  }

  /** A given, nonempty value that the target names or that the wildcard takes. */
  predicate Names(target: string, v: Option<string>) {
    v.Some? && v.value != "" && (target == "*" || target == v.value)
  }

  /** A policy is in force by the one field its scope is about. */
  predicate InForce(p: Policy, model: string, c: Context) {
    (p.scope == Org && Names(p.target, c.org)) || (p.scope == Team && Names(p.target, c.team)) ||
    (p.scope == App && Names(p.target, c.app)) || (p.scope == Customer && Names(p.target, c.customer)) ||
    (p.scope == Model && model != "" && (p.target == "*" || p.target == model))
  }

  /** A day starts at midnight, a week on the Monday of the seven days that hold the current one (the fifth day of 1970
      was a Monday), a month on its first. */
  predicate Starts(p: Period, now: Clock, start: int) {
    (p == Daily ==> start == now.day) && (p == Monthly ==> start == now.monthStart) &&
    (p == Weekly ==> start <= now.day < start + 7 && (start - 4) % 7 == 0)
  }

  lemma PeriodStartIs(p: Period, now: Clock, start: int)
    ensures Starts(p, now, start) <==> start == PeriodStart(p, now)
  {
  }

  /** The match of a policy in force: the policy, its name, and the start of its current period. */
  predicate IsMatch(m: Match, p: Policy, r: Request) {
    InForce(p, r.model, r.context) && m.policy == p && m.key.name == p.name && Starts(p.period, r.now, m.key.start)
  }

  lemma MatchIs(m: Match, p: Policy, r: Request)
    ensures IsMatch(m, p, r) <==> Matches(p, r.model, r.context) && m == MatchOf(p, r.now)
  {
    PeriodStartIs(p.period, r.now, m.key.start);
  }

  /** Policies are taken one by one and in order: a policy in force adds its match, any other nothing. */
  lemma {:induction false} MatchingSplits(before: seq<Policy>, p: Policy, after: seq<Policy>, r: Request)
    ensures Matching(before + [p] + after, r) ==
            Matching(before, r) + (if InForce(p, r.model, r.context) then [MatchOf(p, r.now)] else []) + Matching(after, r)
  {
    if before == [] {
      assert [] + [p] + after == [p] + after;
      assert ([p] + after)[1..] == after;
      MatchIs(MatchOf(p, r.now), p, r);
    } else {
      assert (before + [p] + after)[1..] == before[1..] + [p] + after;
      MatchingSplits(before[1..], p, after, r);
    }
  }

  /** The matches are exactly those of the policies in force. */
  lemma {:induction false} MatchingIs(policies: seq<Policy>, r: Request, m: Match)
    ensures m in Matching(policies, r) <==> exists p :: p in policies && IsMatch(m, p, r)
  {
    if policies != [] {
      MatchingIs(policies[1..], r, m);
      MatchIs(m, policies[0], r);
      assert policies == [policies[0]] + policies[1..];
    }
  }

  // ---- the counter table ----

  /** The table once every matched counter has a row; a row already there keeps its value. */
  function Seeded(c: Counters, ms: seq<Match>, h: History): Counters
    decreases ms
  {
    if ms == [] then c
    else Seeded(if ms[0].key in c then c else c[ms[0].key := h(ms[0].policy, ms[0].key.start)], ms[1..], h)
  }

  /** `UPDATE ... SET current_spend = current_spend + d` for each match in turn; a missing row is not touched. */
  function AddAll(c: Counters, ms: seq<Match>, d: real): Counters
    decreases ms
  {
    if ms == [] then c
    else AddAll(if ms[0].key in c then c[ms[0].key := c[ms[0].key] + d] else c, ms[1..], d)
  }

  predicate Within(c: Counters, m: Match, d: real) {
    m.key in c && c[m.key] + d <= m.policy.limit
  }

  predicate AllWithin(c: Counters, ms: seq<Match>, d: real) {
    forall m :: m in ms ==> Within(c, m, d)
  }

  lemma {:induction false} SeededKeeps(c: Counters, ms: seq<Match>, h: History)
    ensures c.Keys <= Seeded(c, ms, h).Keys
    ensures forall k :: k in c ==> Seeded(c, ms, h)[k] == c[k]
    ensures forall m :: m in ms ==> m.key in Seeded(c, ms, h)
    ensures forall k :: k in Seeded(c, ms, h) && k !in c ==> exists m :: m in ms && m.key == k
    decreases ms
  {
    if ms != [] {
      var c' := if ms[0].key in c then c else c[ms[0].key := h(ms[0].policy, ms[0].key.start)];
      SeededKeeps(c', ms[1..], h);
      forall k | k in Seeded(c, ms, h) && k !in c
        ensures exists m :: m in ms && m.key == k
      {
        if k in c' {
          assert ms[0] in ms && ms[0].key == k;
        } else {
          var m :| m in ms[1..] && m.key == k;
          assert m in ms;
        }
      }
    }
  }

  /** Seeding in two goes is seeding once: the check loop may be read with every row already there. */
  lemma {:induction false} SeededSplit(c: Counters, a: seq<Match>, b: seq<Match>, h: History)
    ensures Seeded(c, a + b, h) == Seeded(Seeded(c, a, h), b, h)
    decreases a
  {
    if a == [] {
      assert a + b == b;
    } else {
      assert (a + b)[0] == a[0] && (a + b)[1..] == a[1..] + b;
      SeededSplit(if a[0].key in c then c else c[a[0].key := h(a[0].policy, a[0].key.start)], a[1..], b, h);
    }
  }

  lemma {:induction false} AddAllSplit(c: Counters, a: seq<Match>, b: seq<Match>, d: real)
    ensures AddAll(c, a + b, d) == AddAll(AddAll(c, a, d), b, d)
    decreases a
  {
    if a == [] {
      assert a + b == b;
    } else {
      assert (a + b)[0] == a[0] && (a + b)[1..] == a[1..] + b;
      AddAllSplit(if a[0].key in c then c[a[0].key := c[a[0].key] + d] else c, a[1..], b, d);
    }
  }

  /** How often a counter occurs among the matches. */
  function Uses(ms: seq<Match>, k: CounterKey): nat {
    if ms == [] then 0 else (if ms[0].key == k then 1 else 0) + Uses(ms[1..], k)
  }

  /** An amount taken `n` times. */
  function Times(n: nat, x: real): real {
    if n == 0 then 0.0 else x + Times(n - 1, x)
  }

  /** A counter moves by the difference once for every match that names it, and no row appears or goes. */
  lemma {:induction false} AddAllCounts(c: Counters, ms: seq<Match>, d: real, k: CounterKey)
    ensures k in AddAll(c, ms, d) <==> k in c
    ensures k in c ==> AddAll(c, ms, d)[k] == c[k] + Times(Uses(ms, k), d)
    decreases ms
  {
    if ms != [] {
      var c' := if ms[0].key in c then c[ms[0].key := c[ms[0].key] + d] else c;
      AddAllCounts(c', ms[1..], d, k);
    }
  }

  lemma {:induction false} TimesSplits(n: nat, x: real, y: real)
    ensures Times(n, x + y) == Times(n, x) + Times(n, y)
  {
    if n > 0 {
      TimesSplits(n - 1, x, y);
    }
  }

  // ---- the decision, as one atomic operation ----

  /** The first policy whose counter would pass its limit. */
  function FirstViolation(c: Counters, ms: seq<Match>, d: real): Option<Match> {
    if ms == [] then None
    else if !Within(c, ms[0], d) then Some(ms[0])
    else FirstViolation(c, ms[1..], d)
  }

  lemma {:induction false} FirstViolationFinds(c: Counters, ms: seq<Match>, d: real)
    ensures FirstViolation(c, ms, d).None? <==> AllWithin(c, ms, d)
    ensures FirstViolation(c, ms, d).Some? ==>
              exists i :: 0 <= i < |ms| && ms[i] == FirstViolation(c, ms, d).value
                          && !Within(c, ms[i], d) && AllWithin(c, ms[..i], d)
    decreases ms
  {
    if ms != [] {
      FirstViolationFinds(c, ms[1..], d);
      if Within(c, ms[0], d) && FirstViolation(c, ms[1..], d).Some? {
        var i :| 0 <= i < |ms[1..]| && ms[1..][i] == FirstViolation(c, ms[1..], d).value
                 && !Within(c, ms[1..][i], d) && AllWithin(c, ms[1..][..i], d);
        assert ms[..i + 1] == [ms[0]] + ms[1..][..i];
        assert ms[i + 1] == ms[1..][i];
      } else if !Within(c, ms[0], d) {
        assert ms[..0] == [];
      }
    }
  }

  /** What the check reads for a counter: its row, or the history of the first match that names it. */
  function Base(c: Counters, ms: seq<Match>, h: History, k: CounterKey): real {
    if k in c then c[k]
    else if ms == [] then 0.0
    else if ms[0].key == k then h(ms[0].policy, ms[0].key.start)
    else Base(c, ms[1..], h, k)
  }

  lemma {:induction false} SeededIsBase(c: Counters, ms: seq<Match>, h: History, k: CounterKey)
    requires k in c || exists m :: m in ms && m.key == k
    ensures k in Seeded(c, ms, h) && Seeded(c, ms, h)[k] == Base(c, ms, h, k)
    decreases ms
  {
    SeededKeeps(c, ms, h);
    if k !in c {
      var c' := if ms[0].key in c then c else c[ms[0].key := h(ms[0].policy, ms[0].key.start)];
      if ms[0].key == k {
        SeededKeeps(c', ms[1..], h);
      } else {
        SeededIsBase(c', ms[1..], h, k);
        BaseOf(c, c', ms[1..], h, k);
      }
    }
  }

  lemma {:induction false} BaseOf(c: Counters, c': Counters, ms: seq<Match>, h: History, k: CounterKey)
    requires (k in c <==> k in c') && (k in c ==> c[k] == c'[k])
    ensures Base(c, ms, h, k) == Base(c', ms, h, k)
    decreases ms
  {
    if ms != [] {
      BaseOf(c, c', ms[1..], h, k);
    }
  }

  function Decide(policies: seq<Policy>, blockUnpriced: bool, c: Counters, r: Request, h: History): Decision {
    var ms := Matching(policies, r);
    if ms == [] then Allowed(r.estimate, [])
    else if r.estimate <= 0.0 then
      if blockUnpriced && !r.priced then Unpriced else Allowed(0.0, [])
    else
      var v := FirstViolation(Seeded(c, ms, h), ms, r.estimate);
      if v.Some? then Exceeded(v.value.policy, r.estimate) else Allowed(r.estimate, ms)
  }

  /** A policy in force whose counter, as the check reads it, has no room for the estimate. */
  predicate LeavesNoRoom(policies: seq<Policy>, c: Counters, r: Request, h: History, m: Match) {
    m in Matching(policies, r) && Base(c, Matching(policies, r), h, m.key) + r.estimate > m.policy.limit
  }

  /** When a request is refused and when it is admitted. */
  lemma DecisionIs(policies: seq<Policy>, blockUnpriced: bool, c: Counters, r: Request, h: History)
    ensures var d := Decide(policies, blockUnpriced, c, r, h);
            var some := exists p :: p in policies && InForce(p, r.model, r.context);
            (d.Exceeded? <==> r.estimate > 0.0 && exists m :: LeavesNoRoom(policies, c, r, h, m)) &&
            (d.Unpriced? <==> r.estimate <= 0.0 && some && blockUnpriced && !r.priced) &&
            (d.Exceeded? ==> d.estimate == r.estimate && exists m :: LeavesNoRoom(policies, c, r, h, m) && m.policy == d.policy) &&
            (d.Allowed? ==> d.matches == (if r.estimate > 0.0 then Matching(policies, r) else []) &&
                            d.estimate == if some && r.estimate <= 0.0 then 0.0 else r.estimate)
  {
    var ms := Matching(policies, r);
    SomeInForce(policies, r);
    FirstViolationFinds(Seeded(c, ms, h), ms, r.estimate);
    forall m | m in ms
      ensures Within(Seeded(c, ms, h), m, r.estimate) <==> Base(c, ms, h, m.key) + r.estimate <= m.policy.limit
    {
      SeededIsBase(c, ms, h, m.key);
    }
    var v := FirstViolation(Seeded(c, ms, h), ms, r.estimate);
    if v.Some? {
      assert v.value in ms;
    }
    assert forall m :: LeavesNoRoom(policies, c, r, h, m) <==> m in ms && !Within(Seeded(c, ms, h), m, r.estimate);
  }

  /** Whatever the scope: a policy in force whose counter row has no room for the estimate refuses the request. */
  lemma SpentPolicyRefuses(policies: seq<Policy>, blockUnpriced: bool, c: Counters, r: Request, h: History, p: Policy, start: int)
    requires p in policies && InForce(p, r.model, r.context) && Starts(p.period, r.now, start) && r.estimate > 0.0
    requires CounterKey(p.name, start) in c && c[CounterKey(p.name, start)] + r.estimate > p.limit
    ensures Decide(policies, blockUnpriced, c, r, h).Exceeded?
  {
    var m := Match(p, CounterKey(p.name, start));
    assert IsMatch(m, p, r);
    MatchingIs(policies, r, m);
    DecisionIs(policies, blockUnpriced, c, r, h);
    assert LeavesNoRoom(policies, c, r, h, m);
  }

  lemma SomeInForce(policies: seq<Policy>, r: Request)
    ensures Matching(policies, r) == [] <==> forall p :: p in policies ==> !InForce(p, r.model, r.context)
  {
    forall p | p in policies && InForce(p, r.model, r.context)
      ensures MatchOf(p, r.now) in Matching(policies, r)
    {
      MatchIs(MatchOf(p, r.now), p, r);
      MatchingIs(policies, r, MatchOf(p, r.now));
      assert IsMatch(MatchOf(p, r.now), p, r);
    }
    if Matching(policies, r) != [] {
      MatchingIs(policies, r, Matching(policies, r)[0]);
    }
  }

  /** The table after a decision: only an admission that reserves something is committed. */
  function Committed(c: Counters, d: Decision, h: History): Counters {
    if d.Allowed? then AddAll(Seeded(c, d.matches, h), d.matches, d.estimate) else c
  }

  /** `reconcile` does nothing for a reservation that reserved nothing. */
  function Reconciled(c: Counters, estimate: real, ms: seq<Match>, actual: real): Counters {
    if ms == [] || estimate <= 0.0 then c else AddAll(c, ms, actual - estimate)
  }

  /** One turn of the check loop: the row it reads is the row the fully seeded table holds. */
  lemma CheckedPrefix(c: Counters, ms: seq<Match>, i: nat, h: History)
    requires i < |ms|
    ensures var before, m := Seeded(c, ms[..i], h), ms[i];
            var after := if m.key in before then before else before[m.key := h(m.policy, m.key.start)];
            after == Seeded(c, ms[..i + 1], h) && m.key in Seeded(c, ms, h) && Seeded(c, ms, h)[m.key] == after[m.key]
    ensures ms[i..][0] == ms[i] && ms[i..][1..] == ms[i + 1..]
  {
    assert ms[..i + 1] == ms[..i] + [ms[i]];
    assert ms == ms[..i + 1] + ms[i + 1..];
    assert [ms[i]][1..] == [];
    SeededSplit(c, ms[..i], [ms[i]], h);
    SeededSplit(c, ms[..i + 1], ms[i + 1..], h);
    SeededKeeps(Seeded(c, ms[..i + 1], h), ms[i + 1..], h);
  }

  lemma ReconciledIs(c: Counters, estimate: real, ms: seq<Match>, actual: real)
    ensures var c' := Reconciled(c, estimate, ms, actual);
            c'.Keys == c.Keys &&
            forall k :: k in c' ==> c'[k] == c[k] + if estimate > 0.0 then Times(Uses(ms, k), actual - estimate) else 0.0
  {
    forall k
      ensures k in AddAll(c, ms, actual - estimate) <==> k in c
      ensures k in c ==> AddAll(c, ms, actual - estimate)[k] == c[k] + Times(Uses(ms, k), actual - estimate)
    {
      AddAllCounts(c, ms, actual - estimate, k);
    }
  }

  /** An admission writes every counter that a policy in force names: what was read for it, and the estimate once for each
      such policy; it writes no other. */
  lemma CommittedIs(c: Counters, ms: seq<Match>, estimate: real, h: History, k: CounterKey)
    ensures var c' := Committed(c, Allowed(estimate, ms), h);
            (k in c' <==> k in c || Uses(ms, k) > 0) && (k in c' ==> c'[k] == Base(c, ms, h, k) + Times(Uses(ms, k), estimate))
  {
    SeededKeeps(c, ms, h);
    AddAllCounts(Seeded(c, ms, h), ms, estimate, k);
    UsesIff(ms, k);
    if k in c || Uses(ms, k) > 0 {
      SeededIsBase(c, ms, h, k);
    }
  }

  lemma {:induction false} UsesIff(ms: seq<Match>, k: CounterKey)
    ensures Uses(ms, k) > 0 <==> exists m :: m in ms && m.key == k
  {
    if ms != [] {
      UsesIff(ms[1..], k);
      assert ms[0] in ms;
      assert forall m :: m in ms[1..] ==> m in ms;
    }
  }

  class Engine {
    const policies: seq<Policy>
    const blockUnpriced: bool
    var counters: Counters

    constructor (policies: seq<Policy>, blockUnpriced: bool)
      ensures this.policies == policies && this.blockUnpriced == blockUnpriced && counters == map[]
    {
      this.policies, this.blockUnpriced, counters := policies, blockUnpriced, map[];
    }

    method MatchPolicies(r: Request) returns (ms: seq<Match>)
      ensures ms == Matching(policies, r)
      ensures forall m :: m in ms <==> exists p :: p in policies && IsMatch(m, p, r)
    {
      ms := [];
      for i := 0 to |policies|
        invariant ms + Matching(policies[i..], r) == Matching(policies, r)
      {
        if Matches(policies[i], r.model, r.context) {
          ms := ms + [MatchOf(policies[i], r.now)];
        }
        assert policies[i..][1..] == policies[i + 1..];
      }
      assert policies[|policies|..] == [];
      forall m
        ensures m in ms <==> exists p :: p in policies && IsMatch(m, p, r)
      {
        MatchingIs(policies, r, m);
      }
    }

    /** The check loop: missing counters are inserted into the open transaction as they are met. */
    method CheckAll(ms: seq<Match>, estimate: real, h: History) returns (violated: Option<Match>, staged: Counters)
      ensures violated == FirstViolation(Seeded(counters, ms, h), ms, estimate)
      ensures violated.None? ==> staged == Seeded(counters, ms, h)
    {
      staged := counters;
      ghost var full := Seeded(counters, ms, h);
      assert ms[..0] == [] && ms[0..] == ms;
      for i := 0 to |ms|
        invariant staged == Seeded(counters, ms[..i], h)
        invariant FirstViolation(full, ms, estimate) == FirstViolation(full, ms[i..], estimate)
      {
        if ms[i].key !in staged {
          staged := staged[ms[i].key := h(ms[i].policy, ms[i].key.start)];
        }
        CheckedPrefix(counters, ms, i, h);
        if staged[ms[i].key] + estimate > ms[i].policy.limit {
          return Some(ms[i]), staged;
        }
      }
      assert ms[..|ms|] == ms && ms[|ms|..] == [];
      violated := None;
    }

    /** The reserve loop, on the transaction's own copy of the table. */
    method ReserveAll(c: Counters, ms: seq<Match>, d: real) returns (staged: Counters)
      ensures staged == AddAll(c, ms, d)
    {
      staged := c;
      assert ms[..0] == [];
      for i := 0 to |ms|
        invariant staged == AddAll(c, ms[..i], d)
      {
        assert ms[..i + 1] == ms[..i] + [ms[i]];
        AddAllSplit(c, ms[..i], [ms[i]], d);
        assert [ms[i]][1..] == [];
        if ms[i].key in staged {
          staged := staged[ms[i].key := staged[ms[i].key] + d];
        }
      }
      assert ms[..|ms|] == ms;
    }

    /** All or nothing: every matched counter stays within its limit and takes the estimate, or the whole
        table is as it was and the first policy that would be exceeded is named. */
    method CheckAndReserve(r: Request, h: History) returns (d: Decision)
      modifies this`counters
      ensures d == Decide(policies, blockUnpriced, old(counters), r, h)
      ensures counters == Committed(old(counters), d, h)
      ensures !d.Allowed? ==> counters == old(counters)
      ensures d.Allowed? ==>
              forall k :: (k in counters <==> k in old(counters) || Uses(d.matches, k) > 0) &&
                          (k in counters ==> counters[k] == Base(old(counters), d.matches, h, k) + Times(Uses(d.matches, k), d.estimate))
      ensures r.estimate > 0.0 ==> (d.Allowed? <==> !exists m :: LeavesNoRoom(policies, old(counters), r, h, m))
      ensures d.Exceeded? ==> exists m :: LeavesNoRoom(policies, old(counters), r, h, m) && m.policy == d.policy
      ensures r.estimate <= 0.0 ==>
              (d.Unpriced? <==> blockUnpriced && !r.priced && exists p :: p in policies && InForce(p, r.model, r.context))
    {
      DecisionIs(policies, blockUnpriced, counters, r, h);
      ghost var was := counters;
      forall k: CounterKey, ms: seq<Match>, e: real
        ensures var c' := Committed(was, Allowed(e, ms), h);
                (k in c' <==> k in was || Uses(ms, k) > 0) && (k in c' ==> c'[k] == Base(was, ms, h, k) + Times(Uses(ms, k), e))
      {
        CommittedIs(was, ms, e, h, k);
      }
      var ms := MatchPolicies(r);
      if ms == [] {
        return Allowed(r.estimate, []);
      }
      if r.estimate <= 0.0 {
        if blockUnpriced && !r.priced {
          return Unpriced;
        }
        return Allowed(0.0, []);
      }
      var violated, staged := CheckAll(ms, r.estimate, h);
      if violated.Some? {
        return Exceeded(violated.value.policy, r.estimate);
      }
      counters := ReserveAll(staged, ms, r.estimate);
      d := Allowed(r.estimate, ms);
    }

    /** Adds the difference between actual and estimated cost to every counter the reservation touched. */
    method Reconcile(actual: real, estimate: real, ms: seq<Match>)
      modifies this`counters
      ensures counters == Reconciled(old(counters), estimate, ms, actual)
      ensures counters.Keys == old(counters).Keys
      ensures forall k :: k in counters ==>
                            counters[k] == old(counters)[k] + if estimate > 0.0 then Times(Uses(ms, k), actual - estimate) else 0.0
    {
      ReconciledIs(counters, estimate, ms, actual);
      if ms == [] || estimate <= 0.0 {
        return;
      }
      var diff := actual - estimate;
      for i := 0 to |ms|
        invariant counters == AddAll(old(counters), ms[..i], diff)
      {
        assert ms[..i + 1] == ms[..i] + [ms[i]];
        AddAllSplit(old(counters), ms[..i], [ms[i]], diff);
        assert [ms[i]][1..] == [];
        if ms[i].key in counters {
          counters := counters[ms[i].key := counters[ms[i].key] + diff];
        }
      }
      assert ms[..|ms|] == ms;
    }
  }
}
