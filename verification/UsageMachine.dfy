/**
 Every interleaving of in-flight ingest batches and billing webhooks over the usage table.
 Each action is one awaited database statement; an action that is not enabled changes nothing,
 so a run is any sequence of actions whatsoever. Values read outside the modelled tables (plan
 limits, the cycle a statement selected, member counts) are arguments of the action.
 */
module UsageMachine {
  import opened Options
  import opened UsageTable

  /** Where a batch is on its way through `ingest`. */
  datatype Phase =
    | Arrived
    | UnderQuota                                       // passed the counter check, seats not yet counted
    | Cleared                                          // passed every check, rows being inserted
    | Metered(key: CycleKey, prev: int, now: int)      // counted; threshold claim still to come
    | Finished(key: CycleKey, prev: int, now: int)
    | Refused                                          // 429
    | Dropped                                          // a database error ended it uncounted

  datatype Batch = Batch(workspace: string, amounts: Amounts, phase: Phase)

  datatype Email = Email(key: CycleKey, threshold: Threshold, batch: nat, current: int, limit: int)

  /** What a subscription event says about the price and period. */
  datatype Terms = Terms(plan: string, status: string, trialEnd: Option<int>, periodEnd: Option<int>,
                         cancelAtPeriodEnd: bool, priceCents: Option<int>, currency: Option<string>)

  datatype Body =
    | Activated(workspace: Option<string>, customer: Option<string>, subscription: Option<string>,
                terms: Terms, periodStart: Option<int>)
    | Updated(subscription: Option<string>, terms: Terms, periodStart: Option<int>)
    | Canceled(subscription: Option<string>)
    | PaymentFailed(subscription: Option<string>)
    | OtherEvent

  datatype Event = Event(id: Option<string>, body: Body)

  datatype Billing = Billing(customer: Option<string>, subscription: Option<string>, terms: Terms)

  datatype Stage = Updating | Locating | Seeding(workspace: string) | Closed

  /** One handler activation, created when an event id is inserted for the first time. */
  datatype Task = Task(body: Body, stage: Stage)

  datatype State = State(
    table: Table,
    batches: seq<Batch>,
    emails: seq<Email>,
    events: set<string>,
    workspaces: map<string, Billing>,
    tasks: seq<Task>)

  datatype Action =
    | ReadQuota(i: nat, cycle: Option<Cycle>, limits: Option<Limits>)
    | CountSeats(i: nat, limits: Option<Limits>, members: int)
    | RecordUsage(i: nat, cycle: Option<Cycle>)
    | ClaimThreshold(i: nat, cap: Option<int>)
    | Abort(i: nat)
    | Deliver(event: Event)
    | Handle(j: nat, pick: string)
    | HandlerFails(j: nat)

  predicate InFlight(p: Phase) {
    p.UnderQuota? || p.Cleared?
  }

  predicate Counted(p: Phase) {
    p.Metered? || p.Finished?
  }

  function Key(b: Batch, c: Cycle): CycleKey {
    CycleKey(b.workspace, c.start)
  }

  function SetPhase(s: State, i: nat, p: Phase): State
    requires i < |s.batches|
  {
    s.(batches := s.batches[i := s.batches[i].(phase := p)])
  }

  predicate AtPhase(s: State, i: nat, p: Phase) {
    i < |s.batches| && s.batches[i].phase == p
  }

  // ---- ingest ----

  /** `_check_quota_or_raise` up to the counters: no cap or no cycle means no read at all. */
  function ReadQuotaStep(s: State, i: nat, cycle: Option<Cycle>, limits: Option<Limits>): State {
    if !AtPhase(s, i, Arrived) then s
    else if cycle.None? || !ReadsCounters(limits) then SetPhase(s, i, UnderQuota)
    else
      var k := Key(s.batches[i], cycle.value);
      var t := Seed(s.table, k, cycle.value.end);
      SetPhase(s, i, if QuotaRefusal(t, k, limits).Some? then Refused else UnderQuota).(table := t)
  }

  function CountSeatsStep(s: State, i: nat, limits: Option<Limits>, members: int): State {
    if !AtPhase(s, i, UnderQuota) then s
    else SetPhase(s, i, if SeatsRefused(limits, members) then Refused else Cleared)
  }

  /** The usage upsert; the previous count is rebuilt from the returned one. */
  function RecordUsageStep(s: State, i: nat, cycle: Option<Cycle>): State {
    if !AtPhase(s, i, Cleared) then s
    else if cycle.None? then SetPhase(s, i, Dropped)
    else
      var k := Key(s.batches[i], cycle.value);
      var t := AddUsage(s.table, k, cycle.value.end, s.batches[i].amounts);
      var now := Counter(t, k, Requests);
      SetPhase(s, i, Metered(k, now - s.batches[i].amounts.requests, now)).(table := t)
  }

  /** The conditional claim; only a claim that changed the row sends a mail. */
  function ClaimStep(s: State, i: nat, cap: Option<int>): State {
    if i >= |s.batches| || !s.batches[i].phase.Metered? then s
    else
      var p := s.batches[i].phase;
      var due := DueClaim(p.prev, p.now, cap);
      var done := SetPhase(s, i, Finished(p.key, p.prev, p.now));
      if due.None? || !WinsClaim(s.table, p.key, due.value) then done
      else done.(table := Claim(s.table, p.key, due.value),
                 emails := s.emails + [Email(p.key, due.value, i, p.now, cap.value)])
  }

  /** A database error: before the upsert the batch goes uncounted, after it only the claim is lost. */
  function AbortStep(s: State, i: nat): State {
    if i >= |s.batches| then s
    else
      var p := s.batches[i].phase;
      if p.Metered? then SetPhase(s, i, Finished(p.key, p.prev, p.now))
      else if Counted(p) || p.Refused? then s
      else SetPhase(s, i, Dropped)
  }

  // ---- webhooks ----

  function SetStage(s: State, j: nat, g: Stage): State
    requires j < |s.tasks|
  {
    s.(tasks := s.tasks[j := s.tasks[j].(stage := g)])
  }

  /** `UPDATE workspaces ... WHERE paddle_subscription_id_hash = $n`; a missing id matches nothing. */
  predicate Subscribed(b: Billing, sub: Option<string>) {
    sub.Some? && sub.value != "" && b.subscription == sub
  }

  function UpdateSubscribed(ws: map<string, Billing>, sub: Option<string>, f: Terms -> Terms): map<string, Billing> {
    map w | w in ws :: if Subscribed(ws[w], sub) then ws[w].(terms := f(ws[w].terms)) else ws[w]
  }

  function DeliverStep(s: State, e: Event): State {
    if e.id.None? || e.id.value in s.events then s
    else s.(events := s.events + {e.id.value}, tasks := s.tasks + [Task(e.body, Updating)])
  }

  function HandleStep(s: State, j: nat, pick: string): State {
    if j >= |s.tasks| then s
    else
      match s.tasks[j].stage
      case Closed => s
      case Updating => UpdatingStep(s, j)
      case Locating =>
        var sub := s.tasks[j].body;
        if !sub.Updated? then SetStage(s, j, Closed)
        else if pick in s.workspaces && Subscribed(s.workspaces[pick], sub.subscription) then SetStage(s, j, Seeding(pick))
        else if exists w :: w in s.workspaces && Subscribed(s.workspaces[w], sub.subscription) then s
        else SetStage(s, j, Closed)
      case Seeding(w) =>
        var closed := SetStage(s, j, Closed);
        var b := s.tasks[j].body;
        if (b.Activated? || b.Updated?) && HasPeriod(b) && w in s.workspaces then
          closed.(table := Seed(s.table, CycleKey(w, b.periodStart.value), b.terms.periodEnd.value))
        else closed
  }

  predicate HasPeriod(b: Body)
    requires b.Activated? || b.Updated?
  {
    b.periodStart.Some? && b.terms.periodEnd.Some?
  }

  /** The handlers' first statement, and where the handler goes from there. */
  function UpdatingStep(s: State, j: nat): State
    requires j < |s.tasks|
  {
    match s.tasks[j].body
    case OtherEvent => SetStage(s, j, Closed)
    case Activated(w, customer, sub, terms, start) =>
      if w.None? || w.value == "" then SetStage(s, j, Closed)
      else
        var ws := if w.value in s.workspaces then s.workspaces[w.value := Billing(customer, sub, terms)] else s.workspaces;
        SetStage(s, j, if HasPeriod(s.tasks[j].body) then Seeding(w.value) else Closed).(workspaces := ws)
    case Updated(sub, terms, start) =>
      SetStage(s, j, if HasPeriod(s.tasks[j].body) then Locating else Closed)
        .(workspaces := UpdateSubscribed(s.workspaces, sub, _ => terms))
    case Canceled(sub) =>
      SetStage(s, j, Closed).(workspaces := UpdateSubscribed(s.workspaces, sub, (t: Terms) => t.(plan := "free", status := "canceled")))
    case PaymentFailed(sub) =>
      SetStage(s, j, Closed).(workspaces := UpdateSubscribed(s.workspaces, sub, (t: Terms) => t.(status := "past_due")))
  }

  /** A handler exception is recorded on the event and ends it; the event id stays taken. */
  function HandlerFailsStep(s: State, j: nat): State {
    if j >= |s.tasks| then s else SetStage(s, j, Closed)
  }

  function Step(s: State, a: Action): State {
    match a
    case ReadQuota(i, cycle, limits) => ReadQuotaStep(s, i, cycle, limits)
    case CountSeats(i, limits, members) => CountSeatsStep(s, i, limits, members)
    case RecordUsage(i, cycle) => RecordUsageStep(s, i, cycle)
    case ClaimThreshold(i, cap) => ClaimStep(s, i, cap)
    case Abort(i) => AbortStep(s, i)
    case Deliver(e) => DeliverStep(s, e)
    case Handle(j, pick) => HandleStep(s, j, pick)
    case HandlerFails(j) => HandlerFailsStep(s, j)
  }

  function Run(s: State, acts: seq<Action>): State
    decreases acts
  {
    if acts == [] then s else Run(Step(s, acts[0]), acts[1..])
  }

  lemma {:induction false} RunConcat(s: State, a: seq<Action>, b: seq<Action>)
    ensures Run(s, a + b) == Run(Run(s, a), b)
    decreases a
  {
    if a == [] {
      assert a + b == b;
    } else {
      assert (a + b)[0] == a[0] && (a + b)[1..] == a[1..] + b;
      RunConcat(Step(s, a[0]), a[1..], b);
    }
  }

  lemma RunTwo(s: State, a: Action, b: Action)
    ensures Run(s, [a, b]) == Step(Step(s, a), b)
  {
    assert [a, b][1..] == [b];
    assert Run(Step(s, a), [b]) == Run(Step(Step(s, a), b), [b][1..]);
  }

  /** Webhook statements touch no batch and no mail, and their only table write is a seed. */
  lemma WebhooksOnlySeed(s: State, a: Action)
    requires a.Deliver? || a.Handle? || a.HandlerFails?
    ensures Step(s, a).batches == s.batches && Step(s, a).emails == s.emails
    ensures Step(s, a).table == s.table || exists k, end :: Step(s, a).table == Seed(s.table, k, end)
  {
    if a.Handle? && a.j < |s.tasks| && s.tasks[a.j].stage.Seeding? {
      var b := s.tasks[a.j].body;
      if b.Activated? || b.Updated? {
        if HasPeriod(b) {
          assert Step(s, a).table == s.table
              || Step(s, a).table == Seed(s.table, CycleKey(s.tasks[a.j].stage.workspace, b.periodStart.value), b.terms.periodEnd.value);
        }
      }
    }
  }
}
