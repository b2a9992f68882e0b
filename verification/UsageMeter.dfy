/** The ingest handler's own form: methods that update the usage table in place. */
module UsageMeter {
  import opened Options
  import opened UsageTable
  import opened UsageMachine
  import opened Folds

  datatype Record = Record(inputTokens: int, outputTokens: int, reasoningTokens: Option<int>, cost: int)

  datatype Refusal = OverDimension(d: Dimension) | OverSeats

  function RecordTokens(r: Record): int {
    r.inputTokens + r.outputTokens + if r.reasoningTokens.Some? then r.reasoningTokens.value else 0
  }

  function RecordCost(r: Record): int {
    r.cost
  }

  /** What a request body adds to each counter. */
  method BatchAmounts(records: seq<Record>) returns (a: Amounts)
    ensures a == Amounts(|records|, Sum(records, RecordTokens), Sum(records, RecordCost))
  {
    var tokens, spend := 0, 0;
    for i := 0 to |records|
      invariant tokens == Sum(records[..i], RecordTokens)
      invariant spend == Sum(records[..i], RecordCost)
    {
      assert records[..i + 1] == records[..i] + [records[i]];
      SumAppend(records[..i], records[i], RecordTokens);
      SumAppend(records[..i], records[i], RecordCost);
      tokens := tokens + RecordTokens(records[i]);
      spend := spend + records[i].cost;
    }
    assert records[..|records|] == records;
    a := Amounts(|records|, tokens, spend);
  }

  /** A cap refuses when it is given, positive and reached. */
  predicate Reached(cap: Option<int>, used: int) {
    cap.Some? && cap.value > 0 && used >= cap.value
  }

  /** A cycle's row, or the zero row of a cycle that has none. */
  function RowOf(t: Table, k: CycleKey, end: int): Row {
    if k in t then t[k] else Row(end, 0, 0, 0, false, false)
  }

  /** The answer of the check over the fields of the row and of the plan. */
  function Answer(row: Option<Row>, limits: Option<Limits>, members: int): Option<Refusal> {
    if limits.None? then None
    else if row.Some? && Reached(limits.value.requestCap, row.value.requests) then Some(OverDimension(Requests))
    else if row.Some? && Reached(limits.value.tokenCap, row.value.tokens) then Some(OverDimension(Tokens))
    else if row.Some? && Reached(limits.value.spendCap, row.value.spend) then Some(OverDimension(Spend))
    else if limits.value.seatCount.Some? && limits.value.seatCount.value > 0 && members > limits.value.seatCount.value then Some(OverSeats)
    else None
  }

  /** The share of the cap lies below a mark before the batch and at or above it after. */
  predicate Passes(prev: int, now: int, num: int, den: int, cap: int) {
    den * prev < num * cap <= den * now
  }

  /** The mail a batch owes: the 100% one if it passes the cap, else the 80% one if it passes four fifths of it. */
  function Owed(prev: int, now: int, cap: Option<int>): Option<Threshold> {
    if cap.None? || cap.value <= 0 then None
    else if Passes(prev, now, 1, 1, cap.value) then Some(Hundred)
    else if Passes(prev, now, 4, 5, cap.value) then Some(Eighty)
    else None
  }

  lemma DueIsOwed(prev: int, now: int, cap: Option<int>)
    ensures DueClaim(prev, now, cap) == Owed(prev, now, cap)
  {
    if cap.Some? && cap.value > 0 {
      DueClaimIsCrossing(prev, now, cap.value);
      EightyIsFourFifths(prev, cap.value);
      EightyIsFourFifths(now, cap.value);
    }
  }

  /** A row after a batch has been added and its notification claimed. */
  function RowAfter(row: Row, a: Amounts, cap: Option<int>): Row {
    var owed := Owed(row.requests, row.requests + a.requests, cap);
    Row(row.end, row.requests + a.requests, row.tokens + a.tokens, row.spend + a.spend,
        row.notified80 || owed == Some(Eighty), row.notified100 || owed == Some(Hundred))
  }

  predicate SendsMail(row: Row, a: Amounts, cap: Option<int>) {
    var owed := Owed(row.requests, row.requests + a.requests, cap);
    (owed == Some(Eighty) && !row.notified80) || (owed == Some(Hundred) && !row.notified100)
  }

  /** The step machine refuses like this answer does. */
  lemma MachineAnswers(t: Table, k: CycleKey, end: int, limits: Option<Limits>, members: int)
    ensures var r := Answer(Some(RowOf(t, k, end)), limits, members);
            (QuotaRefusal(t, k, limits).Some? <==> r.Some? && r.value.OverDimension?) &&
            (QuotaRefusal(t, k, limits).Some? ==> QuotaRefusal(t, k, limits).value == r.value.d) &&
            (QuotaRefusal(t, k, limits).None? ==> (SeatsRefused(limits, members) <==> r == Some(OverSeats)))
  {
  }

  /** A batch whose two check steps nothing interrupts is cleared exactly when the answer is to admit, and refused
      otherwise; the check leaves at most a zero row. */
  lemma UninterruptedCheck(s: State, i: nat, cycle: Option<Cycle>, limits: Option<Limits>, members: int)
    requires AtPhase(s, i, Arrived)
    ensures var w := s.batches[i].workspace;
            var e := Step(Step(s, ReadQuota(i, cycle, limits)), CountSeats(i, limits, members));
            var row := if cycle.Some? then Some(RowOf(s.table, CycleKey(w, cycle.value.start), cycle.value.end)) else None;
            e.batches == s.batches[i := s.batches[i].(phase := if Answer(row, limits, members).None? then Cleared else Refused)] &&
            e.table == (if cycle.Some? && ReadsCounters(limits) then s.table[CycleKey(w, cycle.value.start) := row.value] else s.table)
  {
    var s1 := ReadQuotaStep(s, i, cycle, limits);
    NoCapNoAnswer(limits);
    if cycle.Some? {
      var k := CycleKey(s.batches[i].workspace, cycle.value.start);
      MachineAnswers(s.table, k, cycle.value.end, limits, members);
      SeedKeepsRefusal(s.table, k, cycle.value.end, limits);
    }
  }

  lemma NoCapNoAnswer(limits: Option<Limits>)
    ensures !ReadsCounters(limits) ==>
            forall row, members :: Answer(row, limits, members) == if SeatsRefused(limits, members) then Some(OverSeats) else None
  {
    assert !ReadsCounters(limits) ==> ActiveCap(limits, Requests).None? && ActiveCap(limits, Tokens).None? && ActiveCap(limits, Spend).None?;
  }

  lemma SeedKeepsRefusal(t: Table, k: CycleKey, end: int, limits: Option<Limits>)
    ensures QuotaRefusal(Seed(t, k, end), k, limits) == QuotaRefusal(t, k, limits) && Seed(t, k, end) == t[k := RowOf(t, k, end)]
  {
  }

  class UsageStore {
    var table: Table
    var emails: seq<Email>

    constructor ()
      ensures table == map[] && emails == []
    {
      table, emails := map[], [];
    }

    /** Admitted exactly when every active cap is above its counter and the seats fit; no counter moves. */
    method CheckQuota(workspace: string, cycle: Option<Cycle>, limits: Option<Limits>, members: int) returns (r: Option<Refusal>)
      modifies this`table
      ensures forall k, d :: Counter(table, k, d) == Counter(old(table), k, d)
      ensures forall k, th :: Notified(table, k, th) == Notified(old(table), k, th)
      ensures cycle.Some? && ReadsCounters(limits) ==> table.Keys == old(table).Keys + {CycleKey(workspace, cycle.value.start)}
      ensures cycle.None? || !ReadsCounters(limits) ==> table == old(table)
      ensures r == Answer(if cycle.Some? then Some(RowOf(old(table), CycleKey(workspace, cycle.value.start), cycle.value.end)) else None,
                          limits, members)
      ensures r.None? <==>
              !SeatsRefused(limits, members) &&
              (cycle.Some? ==> forall d :: ActiveCap(limits, d).Some? ==>
                                             Counter(old(table), CycleKey(workspace, cycle.value.start), d) < ActiveCap(limits, d).value)
      ensures r.Some? && r.value.OverDimension? ==>
              cycle.Some? && ActiveCap(limits, r.value.d).Some? &&
              Counter(old(table), CycleKey(workspace, cycle.value.start), r.value.d) >= ActiveCap(limits, r.value.d).value
    {
      if cycle.Some? {
        var k := CycleKey(workspace, cycle.value.start);
        if ActiveCap(limits, Requests).Some? || ActiveCap(limits, Tokens).Some? || ActiveCap(limits, Spend).Some? {
          table := Seed(table, k, cycle.value.end);
          if OverCap(table, k, limits, Requests) {
            return Some(OverDimension(Requests));
          }
          if OverCap(table, k, limits, Tokens) {
            return Some(OverDimension(Tokens));
          }
          if OverCap(table, k, limits, Spend) {
            return Some(OverDimension(Spend));
          }
        }
      }
      if SeatsRefused(limits, members) {
        return Some(OverSeats);
      }
      return None;
    }

    /** Undisturbed, the upsert and the claim leave what the step machine leaves after both steps. */
    method RecordUsage(ghost s: State, i: nat, batch: Batch, cycle: Cycle, cap: Option<int>)
      requires s.table == table && s.emails == emails && AtPhase(s, i, Cleared) && s.batches[i] == batch
      modifies this
      ensures var e := Run(s, [Action.RecordUsage(i, Some(cycle)), ClaimThreshold(i, cap)]);
              table == e.table && emails == e.emails
      ensures var k := CycleKey(batch.workspace, cycle.start);
              var row := RowOf(old(table), k, cycle.end);
              var owed := Owed(row.requests, row.requests + batch.amounts.requests, cap);
              table == old(table)[k := RowAfter(row, batch.amounts, cap)] &&
              emails == old(emails) +
                        if SendsMail(row, batch.amounts, cap)
                        then [Email(k, owed.value, i, row.requests + batch.amounts.requests, cap.value)] else []
    {
      RunTwo(s, Action.RecordUsage(i, Some(cycle)), ClaimThreshold(i, cap));
      var k := CycleKey(batch.workspace, cycle.start);
      table := AddUsage(table, k, cycle.end, batch.amounts);
      var newCount := Counter(table, k, Requests);
      var prevCount := newCount - batch.amounts.requests;
      ghost var metered := Step(s, Action.RecordUsage(i, Some(cycle)));
      assert metered.table == table && metered.emails == emails;
      assert metered.batches[i].phase == Metered(k, prevCount, newCount);
      var due := DueClaim(prevCount, newCount, cap);
      DueIsOwed(prevCount, newCount, cap);
      if due.Some? {
        if WinsClaim(table, k, due.value) {
          table := Claim(table, k, due.value);
          emails := emails + [Email(k, due.value, i, newCount, cap.value)];
        }
      }
    }
  }
}
