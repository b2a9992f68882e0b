/** Detection and status changes with every awaited statement a step of its own; no transaction joins them. */
module FindingsRaces {
  import opened Options
  import opened Findings

  /** A handler between its read and its write: a report with the status it saw, or a resolve with the row it saw. */
  datatype Pending =
    | Reporting(key: FindingKey, report: Report, now: int, seen: Option<Status>)
    | Resolving(key: FindingKey, row: Finding, request: Request)

  datatype State = State(rows: Rows, pending: seq<Pending>)

  datatype Action =
    | ReadForReport(w: string, report: Report, now: int)
    | ReadForResolve(k: FindingKey, request: Request)
    | Write(i: nat, measured: (real, int))
    | SetOther(k: FindingKey, status: Status)

  function Reopened(s: Status): Status {
    if s.Resolved? then Open else s
  }

  /** The insert fails on the primary key if the row has appeared meanwhile; the update writes the status it saw. */
  function ReportWritten(rows: Rows, p: Pending): Rows
    requires p.Reporting?
  {
    if p.seen.None? then (if p.key in rows then rows else Detected(rows, p.key.workspace, p.report, p.now))
    else if p.key !in rows then rows
    else Detected(rows, p.key.workspace, p.report, p.now)[p.key :=
      Detected(rows, p.key.workspace, p.report, p.now)[p.key].(status := Reopened(p.seen.value))]
  }

  /** The prediction is the row's estimate at the write; scope and evidence are those of the read. */
  function ResolveWritten(rows: Rows, p: Pending, measured: (real, int)): Rows
    requires p.Resolving?
  {
    if p.key !in rows then rows
    else rows[p.key := rows[p.key].(
      status := Resolved, evidence := ResolvedEvidence(p.row, p.request),
      resolution := Some(Resolution(p.request.at, rows[p.key].waste, measured.0, measured.1, p.request.windowDays)))]
  }

  function Drop(ps: seq<Pending>, i: nat): seq<Pending>
    requires i < |ps|
  {
    ps[..i] + ps[i + 1..]
  }

  function Step(s: State, a: Action): State {
    match a
    case ReadForReport(w, r, now) =>
      var k := FindingKey(w, r.fingerprint);
      s.(pending := s.pending + [Reporting(k, r, now, if k in s.rows then Some(s.rows[k].status) else None)])
    case ReadForResolve(k, q) => if k in s.rows then s.(pending := s.pending + [Resolving(k, s.rows[k], q)]) else s
    case Write(i, measured) =>
      if i >= |s.pending| then s
      else
        var p := s.pending[i];
        State(if p.Reporting? then ReportWritten(s.rows, p) else ResolveWritten(s.rows, p, measured), Drop(s.pending, i))
    case SetOther(k, status) =>
      if k in s.rows && !status.Resolved? then s.(rows := s.rows[k := s.rows[k].(status := status)]) else s
  }

  function Run(s: State, acts: seq<Action>): State
    decreases acts
  {
    if acts == [] then s else Run(Step(s, acts[0]), acts[1..])
  }

  predicate Keyed(p: Pending) {
    p.Reporting? ==> p.key.fingerprint == p.report.fingerprint
  }

  ghost predicate AllKeyed(s: State) {
    forall i :: 0 <= i < |s.pending| ==> Keyed(s.pending[i])
  }

  predicate ReportsRow(s: State, a: Action, k: FindingKey) {
    a.Write? && a.i < |s.pending| && s.pending[a.i].Reporting? && s.pending[a.i].key == k
  }

  /** A report of `k` takes effect: all but an insert that meets an existing row. */
  predicate Lands(s: State, a: Action, k: FindingKey) {
    ReportsRow(s, a, k) && (s.pending[a.i].seen.Some? <==> k in s.rows)
  }

  lemma StepEffect(s: State, a: Action, k: FindingKey)
    requires AllKeyed(s)
    ensures AllKeyed(Step(s, a))
    ensures k in s.rows ==> k in Step(s, a).rows
    ensures Detections(Step(s, a).rows, k) == Detections(s.rows, k) + if Lands(s, a, k) then 1 else 0
    ensures k in s.rows && s.rows[k].resolution.Some? ==> Step(s, a).rows[k].resolution.Some?
  {
  }

  function Landings(s: State, acts: seq<Action>, k: FindingKey): nat
    decreases acts
  {
    if acts == [] then 0 else (if Lands(s, acts[0], k) then 1 else 0) + Landings(Step(s, acts[0]), acts[1..], k)
  }

  /** In every interleaving rows never vanish, resolutions stay set, and the count is that of the reports that landed. */
  lemma {:induction false} RacesKeepRowsAndCounts(s: State, acts: seq<Action>, k: FindingKey)
    requires AllKeyed(s)
    ensures k in s.rows ==> k in Run(s, acts).rows
    ensures Detections(Run(s, acts).rows, k) == Detections(s.rows, k) + Landings(s, acts, k)
    ensures k in s.rows && s.rows[k].resolution.Some? ==> Run(s, acts).rows[k].resolution.Some?
    decreases acts
  {
    if acts != [] {
      StepEffect(s, acts[0], k);
      RacesKeepRowsAndCounts(Step(s, acts[0]), acts[1..], k);
    }
  }

  /** A late write leaves the status an uninterrupted detection would exactly when what it saw reopens like what is
      there now; otherwise the status change made meanwhile is lost. */
  lemma WriteIsAtomicIff(s: State, i: nat, measured: (real, int))
    requires AllKeyed(s) && i < |s.pending| && s.pending[i].Reporting? && s.pending[i].seen.Some? && s.pending[i].key in s.rows
    ensures var p := s.pending[i];
            Step(s, Write(i, measured)).rows == Detected(s.rows, p.key.workspace, p.report, p.now)
            <==> Reopened(p.seen.value) == Reopened(s.rows[p.key].status)
  {
  }

  /** A resolve whose finding has not changed since its read writes what an uninterrupted one would. */
  lemma UndisturbedResolveIsAtomic(s: State, i: nat, spend: Spend)
    requires i < |s.pending| && s.pending[i].Resolving? && s.pending[i].key in s.rows
    requires s.rows[s.pending[i].key] == s.pending[i].row
    ensures var p := s.pending[i];
            var scope := ScopeOf(p.row, p.request);
            var measured := spend(scope.0, scope.1, p.request.at - p.request.windowDays * DAY, p.request.at);
            Step(s, Write(i, measured)).rows == StatusSet(s.rows, p.key, "resolved", p.request, spend)
  {
  }

  // ---- accepted risks ----

  /** A write in flight that would take the finding out of accepted_risk. */
  predicate Threatens(p: Pending, k: FindingKey) {
    p.key == k && (p.Resolving? || (p.seen.Some? && p.seen.value != AcceptedRisk))
  }

  predicate TouchesStatus(a: Action, k: FindingKey) {
    (a.SetOther? || a.ReadForResolve?) && a.k == k
  }

  ghost predicate Safe(s: State, k: FindingKey) {
    AllKeyed(s) && k in s.rows && s.rows[k].status == AcceptedRisk
    && forall i :: 0 <= i < |s.pending| ==> !Threatens(s.pending[i], k)
  }

  /** While nobody changes its status, an accepted risk stays accepted through any interleaving of passes if no write
      that saw another status was already in flight. */
  lemma {:induction false} AcceptedRiskIsSafe(s: State, acts: seq<Action>, k: FindingKey)
    requires Safe(s, k) && forall i :: 0 <= i < |acts| ==> !TouchesStatus(acts[i], k)
    ensures Safe(Run(s, acts), k)
    decreases acts
  {
    if acts != [] {
      AcceptedRiskIsSafe(Step(s, acts[0]), acts[1..], k);
    }
  }

  /** And only then: any such write ends the accepted status as soon as it lands. */
  lemma ThreatIsReal(s: State, i: nat, k: FindingKey, measured: (real, int))
    requires AllKeyed(s) && k in s.rows && s.rows[k].status == AcceptedRisk && i < |s.pending| && Threatens(s.pending[i], k)
    ensures Step(s, Write(i, measured)).rows[k].status != AcceptedRisk
  {
  }

  /** Through every interleaving in which nobody changes its status, the finding keeps its accepted status. */
  ghost predicate KeepsAccepted(s: State, k: FindingKey) {
    forall acts: seq<Action> :: (forall i :: 0 <= i < |acts| ==> !TouchesStatus(acts[i], k)) ==>
      k in Run(s, acts).rows && Run(s, acts).rows[k].status == AcceptedRisk
  }

  /** An accepted risk is safe from every interleaving if and only if no write that saw another status is in flight. */
  lemma AcceptedRiskIsSafeIff(s: State, k: FindingKey)
    requires AllKeyed(s) && k in s.rows && s.rows[k].status == AcceptedRisk
    ensures KeepsAccepted(s, k) <==> forall i :: 0 <= i < |s.pending| ==> !Threatens(s.pending[i], k)
  {
    if forall i :: 0 <= i < |s.pending| ==> !Threatens(s.pending[i], k) {
      forall acts: seq<Action> | forall i :: 0 <= i < |acts| ==> !TouchesStatus(acts[i], k)
        ensures k in Run(s, acts).rows && Run(s, acts).rows[k].status == AcceptedRisk
      {
        AcceptedRiskIsSafe(s, acts, k);
      }
    } else {
      var i :| 0 <= i < |s.pending| && Threatens(s.pending[i], k);
      var a := Write(i, (0.0, 0));
      ThreatIsReal(s, i, k, (0.0, 0));
      assert [a][1..] == [];
      assert Run(s, [a]) == Run(Step(s, a), []) == Step(s, a);
      assert !TouchesStatus(a, k);
    }
  }

  /** Such a state is reached by a detection that reads a resolved finding just before its risk is accepted. */
  lemma RaceReopensAcceptedRisk(rows: Rows, w: string, r: Report, now: int)
    requires FindingKey(w, r.fingerprint) in rows && rows[FindingKey(w, r.fingerprint)].status == Resolved
    ensures var k := FindingKey(w, r.fingerprint);
            var s := Run(State(rows, []), [ReadForReport(w, r, now), SetOther(k, AcceptedRisk), Write(0, (0.0, 0))]);
            k in s.rows && s.rows[k].status == Open
  {
    var k := FindingKey(w, r.fingerprint);
    var a, b, c := ReadForReport(w, r, now), SetOther(k, AcceptedRisk), Write(0, (0.0, 0));
    assert [a, b, c][1..] == [b, c] && [b, c][1..] == [c] && [c][1..] == [];
    var s1 := Step(State(rows, []), a);
    var s2 := Step(s1, b);
    assert s2.pending == [Reporting(k, r, now, Some(Resolved))];
    assert Run(s2, [c]) == Run(Step(s2, c), []) == Step(s2, c);
    assert Run(State(rows, []), [a, b, c]) == Run(s1, [b, c]) == Run(s2, [c]);
  }
}
