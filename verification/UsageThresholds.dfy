/** The 80% and 100% notifications: the intervals that batches rebuild from the upsert, and who claims what. */
module UsageThresholds {
  import opened Options
  import opened UsageTable
  import opened UsageMachine
  import opened UsageConservation
  import opened Folds

  function Crosses(k: CycleKey, x: int): Batch -> int {
    (b: Batch) => if Counted(b.phase) && b.phase.key == k && b.phase.prev < x <= b.phase.now then 1 else 0
  }

  /** How many batches took the request counter of `k` over `x`. */
  function Crossings(s: State, k: CycleKey, x: int): int {
    Sum(s.batches, Crosses(k, x))
  }

  function Reached(s: State, k: CycleKey, x: int): int {
    if x <= Counter(s.table, k, Requests) then 1 else 0
  }

  function MailMark(k: CycleKey, th: Threshold): Email -> int {
    (e: Email) => if e.key == k && e.threshold == th then 1 else 0
  }

  function Mails(s: State, k: CycleKey, th: Threshold): int {
    Sum(s.emails, MailMark(k, th))
  }

  function Flag(t: Table, k: CycleKey, th: Threshold): int {
    if Notified(t, k, th) then 1 else 0
  }

  // ---- the intervals (prev, now] tile the counter ----

  lemma MoveTiles(s: State, s': State, i: nat, k: CycleKey, x: int)
    requires i < |s.batches| && |s'.batches| == |s.batches|
    requires s'.batches == s.batches[i := s.batches[i].(phase := s'.batches[i].phase)]
    requires Reached(s', k, x) - Reached(s, k, x) == Crosses(k, x)(s'.batches[i]) - Crosses(k, x)(s.batches[i])
    ensures Crossings(s', k, x) - Reached(s', k, x) == Crossings(s, k, x) - Reached(s, k, x)
  {
    SumUpdate(s.batches, i, s'.batches[i], Crosses(k, x));
    assert s'.batches == s.batches[i := s'.batches[i]];
  }

  lemma RecordUsageTiles(s: State, i: nat, cycle: Option<Cycle>, k: CycleKey, x: int)
    ensures var s' := RecordUsageStep(s, i, cycle);
            Crossings(s', k, x) - Reached(s', k, x) == Crossings(s, k, x) - Reached(s, k, x)
  {
    if AtPhase(s, i, Cleared) {
      MoveTiles(s, RecordUsageStep(s, i, cycle), i, k, x);
    }
  }

  lemma ReadQuotaTiles(s: State, i: nat, cycle: Option<Cycle>, limits: Option<Limits>, k: CycleKey, x: int)
    ensures var s' := ReadQuotaStep(s, i, cycle, limits);
            Crossings(s', k, x) - Reached(s', k, x) == Crossings(s, k, x) - Reached(s, k, x)
  {
    if AtPhase(s, i, Arrived) {
      MoveTiles(s, ReadQuotaStep(s, i, cycle, limits), i, k, x);
    }
  }

  lemma ClaimTiles(s: State, i: nat, cap: Option<int>, k: CycleKey, x: int)
    ensures var s' := ClaimStep(s, i, cap);
            Crossings(s', k, x) - Reached(s', k, x) == Crossings(s, k, x) - Reached(s, k, x)
  {
    if i < |s.batches| && s.batches[i].phase.Metered? {
      MoveTiles(s, ClaimStep(s, i, cap), i, k, x);
    }
  }

  lemma QuietTiles(s: State, i: nat, limits: Option<Limits>, members: int, k: CycleKey, x: int)
    ensures var s' := CountSeatsStep(s, i, limits, members);
            Crossings(s', k, x) - Reached(s', k, x) == Crossings(s, k, x) - Reached(s, k, x)
    ensures var s' := AbortStep(s, i);
            Crossings(s', k, x) - Reached(s', k, x) == Crossings(s, k, x) - Reached(s, k, x)
  {
    if i < |s.batches| {
      MoveTiles(s, CountSeatsStep(s, i, limits, members), i, k, x);
      MoveTiles(s, AbortStep(s, i), i, k, x);
    }
  }

  lemma StepTiles(s: State, a: Action, k: CycleKey, x: int)
    ensures Crossings(Step(s, a), k, x) - Reached(Step(s, a), k, x) == Crossings(s, k, x) - Reached(s, k, x)
  {
    match a
    case ReadQuota(i, cycle, limits) => ReadQuotaTiles(s, i, cycle, limits, k, x);
    case CountSeats(i, limits, members) => QuietTiles(s, i, limits, members, k, x);
    case RecordUsage(i, cycle) => RecordUsageTiles(s, i, cycle, k, x);
    case ClaimThreshold(i, cap) => ClaimTiles(s, i, cap, k, x);
    case Abort(i) => QuietTiles(s, i, None, 0, k, x);
    case _ => WebhooksOnlySeed(s, a);
  }

  predicate NothingCounted(s: State) {
    forall b :: b in s.batches ==> !Counted(b.phase)
  }

  /** Every level the counter has passed was passed by exactly one batch, and no other level by any. */
  lemma {:induction false} IntervalsTile(s: State, acts: seq<Action>, k: CycleKey, x: int)
    ensures Crossings(Run(s, acts), k, x) - Reached(Run(s, acts), k, x) == Crossings(s, k, x) - Reached(s, k, x)
    ensures NothingCounted(s) ==>
            Crossings(Run(s, acts), k, x) ==
            if Counter(s.table, k, Requests) < x <= Counter(Run(s, acts).table, k, Requests) then 1 else 0
    decreases acts
  {
    if NothingCounted(s) {
      SumZero(s.batches, Crosses(k, x));
      RequestCountNeverFalls(s, acts, k);
    }
    if acts != [] {
      StepTiles(s, acts[0], k, x);
      IntervalsTile(Step(s, acts[0]), acts[1..], k, x);
    }
  }

  // ---- at most one mail per threshold and cycle ----

  lemma ClaimMails(s: State, i: nat, cap: Option<int>, k: CycleKey, th: Threshold)
    ensures var s' := ClaimStep(s, i, cap);
            Mails(s', k, th) - Flag(s'.table, k, th) == Mails(s, k, th) - Flag(s.table, k, th)
  {
    var s' := ClaimStep(s, i, cap);
    if |s'.emails| > |s.emails| {
      SumAppend(s.emails, s'.emails[|s.emails|], MailMark(k, th));
    }
  }

  lemma StepMails(s: State, a: Action, k: CycleKey, th: Threshold)
    ensures Mails(Step(s, a), k, th) - Flag(Step(s, a).table, k, th) == Mails(s, k, th) - Flag(s.table, k, th)
  {
    if a.ClaimThreshold? {
      ClaimMails(s, a.i, a.cap, k, th);
    } else if a.Deliver? || a.Handle? || a.HandlerFails? {
      WebhooksOnlySeed(s, a);
    }
  }

  lemma {:induction false} MailsFollowFlags(s: State, acts: seq<Action>, k: CycleKey, th: Threshold)
    ensures Mails(Run(s, acts), k, th) - Flag(Run(s, acts).table, k, th) == Mails(s, k, th) - Flag(s.table, k, th)
    decreases acts
  {
    if acts != [] {
      StepMails(s, acts[0], k, th);
      MailsFollowFlags(Step(s, acts[0]), acts[1..], k, th);
    }
  }

  /** In any interleaving, whatever the caps read and whatever fails, a cycle gets at most one mail per threshold. */
  lemma AtMostOneMail(s: State, acts: seq<Action>, k: CycleKey, th: Threshold)
    requires s.emails == []
    ensures Mails(Run(s, acts), k, th) <= 1
  {
    MailsFollowFlags(s, acts, k, th);
  }

  // ---- with a fixed cap and no lost claim, exactly the crossing batches claim ----

  /** Claims on `k` are made with the cap `cap`, and none is lost to a database error. */
  predicate FixedCap(s: State, a: Action, k: CycleKey, cap: int) {
    (a.ClaimThreshold? && a.i < |s.batches| && s.batches[a.i].phase.Metered? && s.batches[a.i].phase.key == k ==>
       a.cap == Some(cap)) &&
    (a.Abort? && a.i < |s.batches| && s.batches[a.i].phase.Metered? ==> s.batches[a.i].phase.key != k)
  }

  predicate FixedCapRun(s: State, acts: seq<Action>, k: CycleKey, cap: int)
    decreases acts
  {
    acts == [] || (FixedCap(s, acts[0], k, cap) && FixedCapRun(Step(s, acts[0]), acts[1..], k, cap))
  }

  /** The level whose crossing makes a claim on the threshold due. */
  function Level(th: Threshold, cap: int): int
    requires cap > 0
  {
    if th.Hundred? then cap else EightyMark(cap)
  }

  function Claimant(k: CycleKey, th: Threshold, cap: int): Batch -> int {
    (b: Batch) => if b.phase.Finished? && b.phase.key == k && DueClaim(b.phase.prev, b.phase.now, Some(cap)) == Some(th) then 1 else 0
  }

  predicate CountedHaveRows(s: State) {
    forall b :: b in s.batches && Counted(b.phase) ==> b.phase.key in s.table
  }

  /** The flag is up exactly when a batch that had to claim it has finished. */
  predicate ClaimsSettled(s: State, k: CycleKey, th: Threshold, cap: int) {
    Sum(s.batches, Claimant(k, th, cap)) == Flag(s.table, k, th)
  }

  lemma MoveClaimants(s: State, s': State, i: nat, k: CycleKey, th: Threshold, cap: int)
    requires i < |s.batches| && |s'.batches| == |s.batches|
    requires s'.batches == s.batches[i := s.batches[i].(phase := s'.batches[i].phase)]
    ensures Sum(s'.batches, Claimant(k, th, cap)) ==
            Sum(s.batches, Claimant(k, th, cap)) - Claimant(k, th, cap)(s.batches[i]) + Claimant(k, th, cap)(s'.batches[i])
  {
    SumUpdate(s.batches, i, s'.batches[i], Claimant(k, th, cap));
    assert s'.batches == s.batches[i := s'.batches[i]];
  }

  lemma {:induction false} SumPositiveHas<T>(s: seq<T>, f: T -> int) returns (j: nat)
    requires Sum(s, f) > 0
    ensures j < |s| && f(s[j]) > 0
  {
    if f(s[0]) > 0 {
      j := 0;
    } else {
      j := SumPositiveHas(s[1..], f);
      j := j + 1;
    }
  }

  /** A batch that has a claim due cannot find the flag already up: the claimer would have crossed the same level. */
  lemma DueClaimIsFree(s: State, i: nat, k: CycleKey, th: Threshold, cap: int)
    requires cap > 0 && i < |s.batches| && s.batches[i].phase.Metered? && s.batches[i].phase.key == k
    requires DueClaim(s.batches[i].phase.prev, s.batches[i].phase.now, Some(cap)) == Some(th)
    requires Crossings(s, k, Level(th, cap)) <= 1 && ClaimsSettled(s, k, th, cap)
    ensures !Notified(s.table, k, th)
  {
    if Notified(s.table, k, th) {
      var j := SumPositiveHas(s.batches, Claimant(k, th, cap));
      DueClaimIsCrossing(s.batches[i].phase.prev, s.batches[i].phase.now, cap);
      DueClaimIsCrossing(s.batches[j].phase.prev, s.batches[j].phase.now, cap);
      SumOneOnce(s.batches, Crosses(k, Level(th, cap)), i, j);
      assert false;
    }
  }

  lemma ClaimSettles(s: State, i: nat, c: Option<int>, k: CycleKey, th: Threshold, cap: int)
    requires cap > 0 && FixedCap(s, ClaimThreshold(i, c), k, cap)
    requires CountedHaveRows(s) && Crossings(s, k, Level(th, cap)) <= 1 && ClaimsSettled(s, k, th, cap)
    ensures ClaimsSettled(ClaimStep(s, i, c), k, th, cap)
  {
    if i < |s.batches| && s.batches[i].phase.Metered? {
      var p := s.batches[i].phase;
      MoveClaimants(s, ClaimStep(s, i, c), i, k, th, cap);
      assert s.batches[i] in s.batches;
      if p.key == k && DueClaim(p.prev, p.now, Some(cap)) == Some(th) {
        DueClaimIsFree(s, i, k, th, cap);
      }
    }
  }

  /** A batch that neither becomes nor stops being a claimant, and a table whose flag stays. */
  lemma MoveSettles(s: State, s': State, i: nat, k: CycleKey, th: Threshold, cap: int)
    requires i < |s.batches| && |s'.batches| == |s.batches| && ClaimsSettled(s, k, th, cap)
    requires s'.batches == s.batches[i := s.batches[i].(phase := s'.batches[i].phase)]
    requires Claimant(k, th, cap)(s'.batches[i]) == Claimant(k, th, cap)(s.batches[i]) && Flag(s'.table, k, th) == Flag(s.table, k, th)
    ensures ClaimsSettled(s', k, th, cap)
  {
    MoveClaimants(s, s', i, k, th, cap);
  }

  lemma ReadQuotaSettles(s: State, i: nat, cycle: Option<Cycle>, limits: Option<Limits>, k: CycleKey, th: Threshold, cap: int)
    requires ClaimsSettled(s, k, th, cap)
    ensures ClaimsSettled(ReadQuotaStep(s, i, cycle, limits), k, th, cap)
  {
    if AtPhase(s, i, Arrived) {
      MoveSettles(s, ReadQuotaStep(s, i, cycle, limits), i, k, th, cap);
    }
  }

  lemma RecordUsageSettles(s: State, i: nat, cycle: Option<Cycle>, k: CycleKey, th: Threshold, cap: int)
    requires ClaimsSettled(s, k, th, cap)
    ensures ClaimsSettled(RecordUsageStep(s, i, cycle), k, th, cap)
  {
    if AtPhase(s, i, Cleared) {
      MoveSettles(s, RecordUsageStep(s, i, cycle), i, k, th, cap);
    }
  }

  lemma QuietSettles(s: State, i: nat, limits: Option<Limits>, members: int, k: CycleKey, th: Threshold, cap: int)
    requires ClaimsSettled(s, k, th, cap)
    ensures ClaimsSettled(CountSeatsStep(s, i, limits, members), k, th, cap)
    ensures FixedCap(s, Abort(i), k, cap) ==> ClaimsSettled(AbortStep(s, i), k, th, cap)
  {
    if i < |s.batches| {
      MoveSettles(s, CountSeatsStep(s, i, limits, members), i, k, th, cap);
      if FixedCap(s, Abort(i), k, cap) {
        MoveSettles(s, AbortStep(s, i), i, k, th, cap);
      }
    }
  }

  lemma OtherSettles(s: State, a: Action, k: CycleKey, th: Threshold, cap: int)
    requires !a.ClaimThreshold? && FixedCap(s, a, k, cap) && ClaimsSettled(s, k, th, cap)
    ensures ClaimsSettled(Step(s, a), k, th, cap)
  {
    match a
    case ReadQuota(i, cycle, limits) => ReadQuotaSettles(s, i, cycle, limits, k, th, cap);
    case CountSeats(i, limits, members) => QuietSettles(s, i, limits, members, k, th, cap);
    case RecordUsage(i, cycle) => RecordUsageSettles(s, i, cycle, k, th, cap);
    case Abort(i) => QuietSettles(s, i, None, 0, k, th, cap);
    case _ => WebhooksOnlySeed(s, a);
  }

  lemma StepKeepsRows(s: State, a: Action)
    requires CountedHaveRows(s)
    ensures CountedHaveRows(Step(s, a))
  {
    if a.Deliver? || a.Handle? || a.HandlerFails? {
      WebhooksOnlySeed(s, a);
    }
  }

  lemma {:induction false} ClaimsStaySettled(s: State, acts: seq<Action>, k: CycleKey, th: Threshold, cap: int)
    requires cap > 0 && FixedCapRun(s, acts, k, cap)
    requires CountedHaveRows(s) && ClaimsSettled(s, k, th, cap)
    requires Crossings(s, k, Level(th, cap)) <= Reached(s, k, Level(th, cap))
    ensures ClaimsSettled(Run(s, acts), k, th, cap)
    decreases acts
  {
    if acts != [] {
      var a := acts[0];
      StepTiles(s, a, k, Level(th, cap));
      StepKeepsRows(s, a);
      if a.ClaimThreshold? {
        ClaimSettles(s, a.i, a.cap, k, th, cap);
      } else {
        OtherSettles(s, a, k, th, cap);
      }
      ClaimsStaySettled(Step(s, a), acts[1..], k, th, cap);
    }
  }

  /** A fresh cycle: nothing counted, no flag up, no mail sent. */
  predicate Fresh(s: State, k: CycleKey) {
    NothingCounted(s) && s.emails == [] && !Notified(s.table, k, Eighty) && !Notified(s.table, k, Hundred)
  }

  /** Once every counted batch has finished, the 100% mail has gone out exactly when the counter passed the
      cap, and the 80% mail exactly when some batch passed the 80% mark without also passing the cap. */
  lemma MailsAreExactlyTheCrossings(s: State, acts: seq<Action>, k: CycleKey, cap: int)
    requires cap > 0 && Fresh(s, k) && FixedCapRun(s, acts, k, cap)
    requires forall b :: b in Run(s, acts).batches ==> !b.phase.Metered?
    ensures Mails(Run(s, acts), k, Hundred) ==
            if Counter(s.table, k, Requests) < cap <= Counter(Run(s, acts).table, k, Requests) then 1 else 0
    ensures Mails(Run(s, acts), k, Eighty) ==
            if exists b :: b in Run(s, acts).batches && Crosses(k, EightyMark(cap))(b) == 1 && Crosses(k, cap)(b) == 0 then 1 else 0
  {
    var e := Run(s, acts);
    FreshIsSettled(s, k, Hundred, cap);
    FreshIsSettled(s, k, Eighty, cap);
    ClaimsStaySettled(s, acts, k, Hundred, cap);
    ClaimsStaySettled(s, acts, k, Eighty, cap);
    MailsFollowFlags(s, acts, k, Hundred);
    MailsFollowFlags(s, acts, k, Eighty);
    IntervalsTile(s, acts, k, cap);
    HundredClaimantsCross(e, k, cap);
    EightyClaimantsExist(e, k, cap);
  }

  lemma FreshIsSettled(s: State, k: CycleKey, th: Threshold, cap: int)
    requires cap > 0 && Fresh(s, k)
    ensures ClaimsSettled(s, k, th, cap) && CountedHaveRows(s) && Crossings(s, k, Level(th, cap)) == 0
  {
    SumZero(s.batches, Claimant(k, th, cap));
    SumZero(s.batches, Crosses(k, Level(th, cap)));
  }

  lemma HundredClaimantsCross(e: State, k: CycleKey, cap: int)
    requires cap > 0 && forall b :: b in e.batches ==> !b.phase.Metered?
    ensures Sum(e.batches, Claimant(k, Hundred, cap)) == Crossings(e, k, cap)
  {
    forall b | b in e.batches
      ensures Claimant(k, Hundred, cap)(b) == Crosses(k, cap)(b)
    {
      if b.phase.Finished? {
        DueClaimIsCrossing(b.phase.prev, b.phase.now, cap);
      }
    }
    SumSame(e.batches, Claimant(k, Hundred, cap), Crosses(k, cap));
  }

  lemma EightyClaimantsExist(e: State, k: CycleKey, cap: int)
    requires cap > 0 && forall b :: b in e.batches ==> !b.phase.Metered?
    ensures Sum(e.batches, Claimant(k, Eighty, cap)) > 0 <==>
            exists b :: b in e.batches && Crosses(k, EightyMark(cap))(b) == 1 && Crosses(k, cap)(b) == 0
  {
    forall b | b in e.batches
      ensures Claimant(k, Eighty, cap)(b) == 1 <==> Crosses(k, EightyMark(cap))(b) == 1 && Crosses(k, cap)(b) == 0
    {
      if b.phase.Finished? {
        DueClaimIsCrossing(b.phase.prev, b.phase.now, cap);
      }
    }
    if Sum(e.batches, Claimant(k, Eighty, cap)) > 0 {
      var j := SumPositiveHas(e.batches, Claimant(k, Eighty, cap));
      assert e.batches[j] in e.batches;
    }
    if b :| b in e.batches && Crosses(k, EightyMark(cap))(b) == 1 && Crosses(k, cap)(b) == 0 {
      var j :| 0 <= j < |e.batches| && e.batches[j] == b;
      SumOneAtLeast(e.batches, Claimant(k, Eighty, cap), j);
    }
  }

  // ---- who wrote a mail ----

  /** The mail names a finished batch that crossed the level with the cap it quotes. */
  predicate MailIsHonest(s: State, e: Email) {
    e.batch < |s.batches| &&
    var p := s.batches[e.batch].phase;
    p.Finished? && p.key == e.key && p.now == e.current && DueClaim(p.prev, p.now, Some(e.limit)) == Some(e.threshold)
  }

  lemma StepMailsHonest(s: State, a: Action, e: Email)
    requires e in s.emails ==> MailIsHonest(s, e)
    ensures e in Step(s, a).emails ==> MailIsHonest(Step(s, a), e)
  {
    if a.Deliver? || a.Handle? || a.HandlerFails? {
      WebhooksOnlySeed(s, a);
    }
  }

  /** Every mail ever sent names the batch that crossed the threshold and the counter value it saw. */
  lemma {:induction false} MailsStayHonest(s: State, acts: seq<Action>, e: Email)
    requires e in s.emails ==> MailIsHonest(s, e)
    ensures e in Run(s, acts).emails ==> MailIsHonest(Run(s, acts), e)
    decreases acts
  {
    if acts != [] {
      StepMailsHonest(s, acts[0], e);
      MailsStayHonest(Step(s, acts[0]), acts[1..], e);
    }
  }
}
