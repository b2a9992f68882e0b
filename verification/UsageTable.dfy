/**
 The `workspace_usage_cycles` table, one row per (workspace, cycle start), and the SQL
 statements that read and write it. Every function here is one statement, so one atomic step.
 Spend is in units of 1e-8 USD, the resolution of the NUMERIC(12,8) column.
 */
module UsageTable {
  import opened Options

  datatype CycleKey = CycleKey(workspace: string, start: int)
  datatype Cycle = Cycle(start: int, end: int)

  datatype Dimension = Requests | Tokens | Spend
  datatype Threshold = Eighty | Hundred

  datatype Row = Row(end: int, requests: int, tokens: int, spend: int, notified80: bool, notified100: bool)
  type Table = map<CycleKey, Row>

  /** What one accepted batch adds to each counter. Only the record count is known to be nonnegative. */
  datatype Amounts = Amounts(requests: nat, tokens: int, spend: int)

  /** The result of `resolve_limits`; `None` in a field means unlimited. */
  datatype Limits = Limits(requestCap: Option<int>, tokenCap: Option<int>, spendCap: Option<int>, seatCount: Option<int>)

  function Amount(a: Amounts, d: Dimension): int {
    match d
    case Requests => a.requests
    case Tokens => a.tokens
    case Spend => a.spend
  }

  /** A counter as a reader sees it: a cycle without a row has used nothing. */
  function Counter(t: Table, k: CycleKey, d: Dimension): int {
    if k !in t then 0 else
      match d
      case Requests => t[k].requests
      case Tokens => t[k].tokens
      case Spend => t[k].spend
  }

  predicate Notified(t: Table, k: CycleKey, th: Threshold) {
    k in t && (if th.Eighty? then t[k].notified80 else t[k].notified100)
  }

  /** INSERT of a zero row that leaves an existing row alone: the webhook seed and the no-op upsert. */
  function Seed(t: Table, k: CycleKey, end: int): Table {
    if k in t then t else t[k := Row(end, 0, 0, 0, false, false)]
  }

  /** The usage upsert: insert the batch's amounts, or add them to the row that is there. */
  function AddUsage(t: Table, k: CycleKey, end: int, a: Amounts): Table {
    if k !in t then
      t[k := Row(end, a.requests, a.tokens, a.spend, false, false)]
    else
      var r := t[k];
      t[k := r.(requests := r.requests + a.requests, tokens := r.tokens + a.tokens, spend := r.spend + a.spend)]
  }

  /** `UPDATE ... SET notified = now() WHERE notified IS NULL`; the claim is won when a row changed. */
  predicate WinsClaim(t: Table, k: CycleKey, th: Threshold) {
    k in t && !Notified(t, k, th)
  }

  function Claim(t: Table, k: CycleKey, th: Threshold): Table {
    if !WinsClaim(t, k, th) then t
    else if th.Eighty? then t[k := t[k].(notified80 := true)]
    else t[k := t[k].(notified100 := true)]
  }

  /** A cap is enforced only when it is present and positive. */
  function ActiveCap(limits: Option<Limits>, d: Dimension): Option<int> {
    if limits.None? then None else
      var cap := match d
                 case Requests => limits.value.requestCap
                 case Tokens => limits.value.tokenCap
                 case Spend => limits.value.spendCap;
      if cap.Some? && cap.value > 0 then cap else None
  }

  predicate OverCap(t: Table, k: CycleKey, limits: Option<Limits>, d: Dimension) {
    ActiveCap(limits, d).Some? && Counter(t, k, d) >= ActiveCap(limits, d).value
  }

  /** The first breached dimension, in the order requests, tokens, spend. */
  function QuotaRefusal(t: Table, k: CycleKey, limits: Option<Limits>): Option<Dimension> {
    if OverCap(t, k, limits, Requests) then Some(Requests)
    else if OverCap(t, k, limits, Tokens) then Some(Tokens)
    else if OverCap(t, k, limits, Spend) then Some(Spend)
    else None
  }

  predicate ReadsCounters(limits: Option<Limits>) {
    exists d: Dimension :: ActiveCap(limits, d).Some?
  }

  predicate SeatsRefused(limits: Option<Limits>, members: int) {
    limits.Some? && limits.value.seatCount.Some? && limits.value.seatCount.value > 0
    && members > limits.value.seatCount.value
  }

  /** The threshold a batch that moved the counter from `prev` to `now` must claim; 100% takes precedence. */
  function DueClaim(prev: int, now: int, cap: Option<int>): Option<Threshold> {
    if cap.None? || cap.value <= 0 then None
    else if (prev as real) / (cap.value as real) < 1.0 <= (now as real) / (cap.value as real) then Some(Hundred)
    else if (prev as real) / (cap.value as real) < 0.8 <= (now as real) / (cap.value as real) then Some(Eighty)
    else None
  }

  /** The least request count that is at least 80% of the cap. */
  function EightyMark(cap: int): int
    requires cap > 0
  {
    (4 * cap + 4) / 5
  }

  /** The ratio tests of the notifier are integer crossings of the cap and of the 80% mark. */
  lemma DueClaimIsCrossing(prev: int, now: int, cap: int)
    requires cap > 0
    ensures DueClaim(prev, now, Some(cap)) == Some(Hundred) <==> prev < cap <= now
    ensures DueClaim(prev, now, Some(cap)) == Some(Eighty) <==>
            prev < EightyMark(cap) <= now && !(prev < cap <= now)
  {
    RatioBelow(prev, cap);
    RatioBelow(now, cap);
  }

  lemma RatioBelow(n: int, cap: int)
    requires cap > 0
    ensures (n as real) / (cap as real) < 1.0 <==> n < cap
    ensures (n as real) / (cap as real) < 0.8 <==> n < EightyMark(cap)
  {
    DivideBelow(n as real, cap as real, 1.0);
    DivideBelow(n as real, cap as real, 0.8);
    assert (n as real) < 0.8 * (cap as real) <==> ((5 * n) as real) < ((4 * cap) as real);
  }

  lemma DivideBelow(x: real, c: real, r: real)
    requires c > 0.0
    ensures x / c < r <==> x < r * c
  {
  }

  /** Seeding, the no-op upsert and the claims never move a counter, and no statement lowers one
      except by an amount a batch itself carries. */
  lemma StatementsMoveCounters(t: Table, k: CycleKey, end: int, a: Amounts, th: Threshold, k': CycleKey, d: Dimension)
    ensures Counter(Seed(t, k, end), k', d) == Counter(t, k', d)
    ensures Counter(Claim(t, k, th), k', d) == Counter(t, k', d)
    ensures Counter(AddUsage(t, k, end, a), k', d) == Counter(t, k', d) + if k' == k then Amount(a, d) else 0
  {
  }

  /** The 80% mark is the exact four fifths. */
  lemma EightyIsFourFifths(n: int, cap: int)
    requires cap > 0
    ensures n >= EightyMark(cap) <==> 5 * n >= 4 * cap
  {
  }
}
