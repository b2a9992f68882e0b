/** The lifecycle of waste findings: detection passes and status changes on `waste_findings`. */
module Findings {
  import opened Options

  datatype Status = Open | Acknowledged | Resolved | AcceptedRisk

  /** Who changed what, as given with a resolve; empty strings stand for absent values. */
  datatype Intervention = Intervention(cohort: string, at: int, scopeType: string, scopeKey: string, details: map<string, string>)

  /** The evidence document: what the detector wrote, the current verification and the earlier ones. */
  datatype Evidence = Evidence(detected: string, verification: Option<Intervention>, earlier: seq<Intervention>)

  datatype Report = Report(fingerprint: string, detector: string, subjectType: string, subjectKey: string, severity: string,
                           title: string, description: string, waste: real, affected: int, evidence: Evidence)

  /** `resolved_at` and the four baseline columns, which are only ever written together. */
  datatype Resolution = Resolution(at: int, waste: real, cost: real, requests: int, windowDays: int)

  datatype Finding = Finding(detector: string, subjectType: string, subjectKey: string, severity: string, title: string,
                             description: string, waste: real, affected: int, evidence: Evidence, status: Status,
                             firstSeen: int, lastSeen: int, resolution: Option<Resolution>, detections: int)

  datatype FindingKey = FindingKey(workspace: string, fingerprint: string)
  type Rows = map<FindingKey, Finding>

  /** Spend and request count of a subject in a half-open window. */
  type Spend = (string, string, int, int) -> (real, int)

  const DAY := 86_400

  // ---- detection ----

  function Detected(rows: Rows, w: string, r: Report, now: int): Rows {
    var k := FindingKey(w, r.fingerprint);
    if k !in rows then
      rows[k := Finding(r.detector, r.subjectType, r.subjectKey, r.severity, r.title, r.description, r.waste, r.affected,
                        r.evidence, Open, now, now, None, 1)]
    else
      var f := rows[k];
      rows[k := f.(severity := r.severity, description := r.description, waste := r.waste, affected := r.affected,
                   evidence := r.evidence, lastSeen := now, status := if f.status.Resolved? then Open else f.status,
                   detections := f.detections + 1)]
  }

  function Synced(rows: Rows, w: string, reports: seq<Report>, now: int): Rows {
    if reports == [] then rows
    else Detected(Synced(rows, w, reports[..|reports| - 1], now), w, reports[|reports| - 1], now)
  }

  // ---- status changes ----

  function ParseStatus(s: string): Option<Status> {
    if s == "open" then Some(Open)
    else if s == "acknowledged" then Some(Acknowledged)
    else if s == "resolved" then Some(Resolved)
    else if s == "accepted_risk" then Some(AcceptedRisk)
    else None
  }

  datatype Request = Request(windowDays: int, cohort: string, at: int, details: map<string, string>)

  /** The text around the first colon. */
  function SplitColon(s: string): Option<(string, string)> {
    if s == "" then None
    else if s[0] == ':' then Some(("", s[1..]))
    else
      var rest := SplitColon(s[1..]);
      if rest.None? then None else Some(([s[0]] + rest.value.0, rest.value.1))
  }

  function CohortOf(f: Finding, q: Request): string {
    if q.cohort != "" then q.cohort else f.subjectType + ":" + f.subjectKey
  }

  /** A cohort naming a workflow or a model narrows what the baseline measures. */
  function ScopeOf(f: Finding, q: Request): (string, string) {
    var parts := SplitColon(CohortOf(f, q));
    if parts.Some? && parts.value.0 in ["workflow", "model"] && parts.value.1 != "" then parts.value
    else (f.subjectType, f.subjectKey)
  }

  function InterventionOf(f: Finding, q: Request): Intervention {
    Intervention(CohortOf(f, q), q.at, ScopeOf(f, q).0, ScopeOf(f, q).1,
                 map d | d in q.details && q.details[d] != "" :: q.details[d])
  }

  function ResolvedEvidence(f: Finding, q: Request): Evidence {
    var e := f.evidence;
    e.(verification := Some(InterventionOf(f, q)),
       earlier := if e.verification.Some? then e.earlier + [e.verification.value] else e.earlier)
  }

  function ResolutionOf(f: Finding, q: Request, spend: Spend): Resolution {
    var measured := spend(ScopeOf(f, q).0, ScopeOf(f, q).1, q.at - q.windowDays * DAY, q.at);
    Resolution(q.at, f.waste, measured.0, measured.1, q.windowDays)
  }

  function StatusSet(rows: Rows, k: FindingKey, status: string, q: Request, spend: Spend): Rows {
    var p := ParseStatus(status);
    if p.None? || k !in rows then rows
    else if !p.value.Resolved? then rows[k := rows[k].(status := p.value)]
    else rows[k := rows[k].(status := Resolved, resolution := Some(ResolutionOf(rows[k], q, spend)),
                            evidence := ResolvedEvidence(rows[k], q))]
  }

  datatype Reply = InvalidStatus | Unknown | Changed

  class FindingsStore {
    var rows: Rows

    constructor ()
      ensures rows == map[]
    {
      rows := map[];
    }

    method SyncFindings(w: string, reports: seq<Report>, now: int)
      modifies this
      ensures rows == Synced(old(rows), w, reports, now)
    {
      for i := 0 to |reports|
        invariant rows == Synced(old(rows), w, reports[..i], now)
      {
        var r := reports[i];
        assert reports[..i + 1][..i] == reports[..i];
        var k := FindingKey(w, r.fingerprint);
        if k !in rows {
          rows := rows[k := Finding(r.detector, r.subjectType, r.subjectKey, r.severity, r.title, r.description, r.waste,
                                    r.affected, r.evidence, Open, now, now, None, 1)];
          continue;
        }
        var reopen := rows[k].status.Resolved?;
        var status := if reopen then Open else rows[k].status;
        rows := rows[k := rows[k].(severity := r.severity, description := r.description, waste := r.waste,
                                   affected := r.affected, evidence := r.evidence, lastSeen := now, status := status,
                                   detections := rows[k].detections + 1)];
      }
      assert reports[..|reports|] == reports;
    }

    method SetFindingStatus(w: string, fingerprint: string, status: string, q: Request, spend: Spend) returns (reply: Reply)
      modifies this
      ensures reply == if ParseStatus(status).None? then InvalidStatus
                       else if FindingKey(w, fingerprint) in old(rows) then Changed else Unknown
      ensures rows == StatusSet(old(rows), FindingKey(w, fingerprint), status, q, spend)
    {
      var k := FindingKey(w, fingerprint);
      var p := ParseStatus(status);
      if p.None? {
        return InvalidStatus;
      }
      if k !in rows {
        return Unknown;
      }
      if !p.value.Resolved? {
        rows := rows[k := rows[k].(status := p.value)];
        return Changed;
      }
      var f := rows[k];
      var evidence := f.evidence;
      if evidence.verification.Some? {
        evidence := evidence.(earlier := evidence.earlier + [evidence.verification.value]);
      }
      evidence := evidence.(verification := Some(InterventionOf(f, q)));
      var scope := ScopeOf(f, q);
      var measured := spend(scope.0, scope.1, q.at - q.windowDays * DAY, q.at);
      rows := rows[k := f.(status := Resolved, evidence := evidence,
                           resolution := Some(Resolution(q.at, f.waste, measured.0, measured.1, q.windowDays)))];
      return Changed;
    }
  }

  // ---- what a status change does ----

  /** Each status word stores its own status and touches nothing else, resolving apart; any other word changes nothing. */
  lemma StatusWords(rows: Rows, k: FindingKey, word: string, q: Request, spend: Spend, other: FindingKey)
    requires k in rows
    ensures var after := StatusSet(rows, k, word, q, spend);
            (word == "open" ==> after == rows[k := rows[k].(status := Open)]) &&
            (word == "acknowledged" ==> after == rows[k := rows[k].(status := Acknowledged)]) &&
            (word == "accepted_risk" ==> after == rows[k := rows[k].(status := AcceptedRisk)]) &&
            (word == "resolved" ==> k in after && after[k].status == Resolved) &&
            (word != "open" && word != "acknowledged" && word != "accepted_risk" && word != "resolved" ==>
               after == rows && ParseStatus(word) == None) &&
            (other in rows && other != k ==> other in after && after[other] == rows[other])
  {
  }

  lemma {:induction false} SplitIsAround(s: string)
    ensures SplitColon(s).Some? ==> s == SplitColon(s).value.0 + ":" + SplitColon(s).value.1
  {
    if s != "" && s[0] != ':' {
      SplitIsAround(s[1..]);
      if SplitColon(s[1..]).Some? {
        var p := SplitColon(s[1..]).value;
        assert s == [s[0]] + s[1..];
        assert [s[0]] + (p.0 + ":" + p.1) == ([s[0]] + p.0) + ":" + p.1;
      }
    }
  }

  lemma {:induction false} SplitFindsFirst(a: string, b: string)
    requires forall i :: 0 <= i < |a| ==> a[i] != ':'
    ensures SplitColon(a + ":" + b) == Some((a, b))
  {
    if a == "" {
      assert a + ":" + b == ":" + b;
    } else {
      assert (a + ":" + b)[0] == a[0] && (a + ":" + b)[1..] == a[1..] + ":" + b;
      assert [a[0]] + a[1..] == a;
      SplitFindsFirst(a[1..], b);
    }
  }

  /** What a resolve measures: the workflow or model the cohort names, and for any other cohort the finding's own subject.
      Without a cohort the subject itself is the cohort. */
  ghost predicate Measures(f: Finding, cohort: string, kind: string, key: string) {
    var text := if cohort == "" then f.subjectType + ":" + f.subjectKey else cohort;
    if (kind == "workflow" || kind == "model") && key != "" && text == kind + ":" + key then true
    else (kind, key) == (f.subjectType, f.subjectKey) &&
         forall w :: w != "" ==> text != "workflow" + ":" + w && text != "model" + ":" + w
  }

  lemma ScopeIs(f: Finding, q: Request, kind: string, key: string)
    requires Measures(f, q.cohort, kind, key)
    ensures ScopeOf(f, q) == (kind, key)
  {
    var text := CohortOf(f, q);
    SplitIsAround(text);
    if (kind == "workflow" || kind == "model") && key != "" && text == kind + ":" + key {
      SplitFindsFirst(kind, key);
    } else if SplitColon(text).Some? {
      var p := SplitColon(text).value;
      assert p.1 != "" ==> text != "workflow" + ":" + p.1 && text != "model" + ":" + p.1;
    }
  }

  /** A resolve snapshots the estimate, and the cost and requests of what it measures over the window that ends when it
      takes effect; it files the intervention, and the one it replaces, in the evidence. */
  lemma ResolveSnapshots(rows: Rows, k: FindingKey, q: Request, spend: Spend, kind: string, key: string)
    requires k in rows && Measures(rows[k], q.cohort, kind, key)
    ensures var f, f' := rows[k], StatusSet(rows, k, "resolved", q, spend)[k];
            var before := spend(kind, key, q.at - q.windowDays * 24 * 60 * 60, q.at);
            f'.resolution == Some(Resolution(q.at, f.waste, before.0, before.1, q.windowDays)) &&
            f' == f.(status := Resolved, resolution := f'.resolution, evidence := f'.evidence) &&
            f'.evidence.detected == f.evidence.detected &&
            f'.evidence.earlier == f.evidence.earlier + (if f.evidence.verification.Some? then [f.evidence.verification.value] else []) &&
            f'.evidence.verification.Some? &&
            var i := f'.evidence.verification.value;
            i.at == q.at && i.scopeType == kind && i.scopeKey == key &&
            i.cohort == (if q.cohort == "" then f.subjectType + ":" + f.subjectKey else q.cohort) &&
            (forall d :: d in i.details <==> d in q.details && q.details[d] != "") &&
            forall d :: d in i.details ==> i.details[d] == q.details[d]
  {
    ScopeIs(rows[k], q, kind, key);
    var e := rows[k].evidence;
    assert e.earlier + [] == e.earlier;
  }

  // ---- runs ----

  datatype Op =
    | Pass(workspace: string, reports: seq<Report>, now: int)
    | SetStatus(key: FindingKey, status: string, request: Request, spend: Spend)

  function Apply(rows: Rows, op: Op): Rows {
    match op
    case Pass(w, reports, now) => Synced(rows, w, reports, now)
    case SetStatus(k, status, q, spend) => StatusSet(rows, k, status, q, spend)
  }

  function Run(rows: Rows, ops: seq<Op>): Rows
    decreases ops
  {
    if |ops| == 0 then rows else Run(Apply(rows, ops[0]), ops[1..])
  }

  predicate Resolves(op: Op, k: FindingKey) {
    op.SetStatus? && op.key == k && op.status == "resolved"
  }

  /** How often a pass reports a finding, repeats within the pass included. */
  function Reports(w: string, reports: seq<Report>, k: FindingKey): nat {
    if reports == [] then 0
    else Reports(w, reports[..|reports| - 1], k) + if FindingKey(w, reports[|reports| - 1].fingerprint) == k then 1 else 0
  }

  function ReportsIn(op: Op, k: FindingKey): nat {
    if op.Pass? then Reports(op.workspace, op.reports, k) else 0
  }

  function TotalReports(ops: seq<Op>, k: FindingKey): nat
    decreases ops
  {
    if |ops| == 0 then 0 else ReportsIn(ops[0], k) + TotalReports(ops[1..], k)
  }

  function Detections(rows: Rows, k: FindingKey): int {
    if k in rows then rows[k].detections else 0
  }

  /** What a pass does to a finding's place in the lifecycle: it appears as open, or reopens from resolved, or stays;
      its resolution, identity and first sighting are untouched. */
  lemma {:induction false} PassOnlyReopens(rows: Rows, w: string, reports: seq<Report>, now: int, k: FindingKey)
    ensures var after := Synced(rows, w, reports, now);
            (k in after <==> k in rows || Reports(w, reports, k) > 0) &&
            Detections(after, k) == Detections(rows, k) + Reports(w, reports, k)
    ensures k in rows ==>
            var f, f' := rows[k], Synced(rows, w, reports, now)[k];
            f'.status == (if f.status == Resolved && Reports(w, reports, k) > 0 then Open else f.status) &&
            f'.resolution == f.resolution && f'.firstSeen == f.firstSeen && f'.detector == f.detector &&
            f'.subjectType == f.subjectType && f'.subjectKey == f.subjectKey && f'.title == f.title
    ensures k !in rows && Reports(w, reports, k) > 0 ==>
            var f' := Synced(rows, w, reports, now)[k];
            f'.status == Open && f'.resolution == None && f'.firstSeen == now
  {
    if reports != [] {
      PassOnlyReopens(rows, w, reports[..|reports| - 1], now, k);
    }
  }

  /** A pass that reports a finding replaces its whole evidence, verification and history included, by that of the
      last such report; otherwise the row is untouched. */
  lemma {:induction false} PassReplacesEvidence(rows: Rows, w: string, reports: seq<Report>, now: int, k: FindingKey, last: nat)
    requires last < |reports| && FindingKey(w, reports[last].fingerprint) == k
    requires forall i :: last < i < |reports| ==> FindingKey(w, reports[i].fingerprint) != k
    ensures k in Synced(rows, w, reports, now) && Synced(rows, w, reports, now)[k].evidence == reports[last].evidence
    ensures var f, r := Synced(rows, w, reports, now)[k], reports[last];
            f.waste == r.waste && f.severity == r.severity && f.description == r.description && f.affected == r.affected
            && f.lastSeen == now
  {
    if last < |reports| - 1 {
      PassReplacesEvidence(rows, w, reports[..|reports| - 1], now, k, last);
    }
  }

  /** A finding seen for the first time takes its identity from the first report of the pass that names it. */
  lemma {:induction false} FirstReportNames(rows: Rows, w: string, reports: seq<Report>, now: int, k: FindingKey, first: nat)
    requires k !in rows && first < |reports| && FindingKey(w, reports[first].fingerprint) == k
    requires forall i :: 0 <= i < first ==> FindingKey(w, reports[i].fingerprint) != k
    ensures var after := Synced(rows, w, reports, now);
            k in after && after[k].detector == reports[first].detector && after[k].title == reports[first].title &&
            after[k].subjectType == reports[first].subjectType && after[k].subjectKey == reports[first].subjectKey &&
            after[k].status == Open && after[k].resolution == None && after[k].firstSeen == now
  {
    var init := reports[..|reports| - 1];
    if first < |init| {
      FirstReportNames(rows, w, init, now, k, first);
    } else {
      NotReported(rows, w, init, now, k);
    }
  }

  lemma {:induction false} NotReported(rows: Rows, w: string, reports: seq<Report>, now: int, k: FindingKey)
    requires k !in rows && forall i :: 0 <= i < |reports| ==> FindingKey(w, reports[i].fingerprint) != k
    ensures k !in Synced(rows, w, reports, now)
  {
    if reports != [] {
      NotReported(rows, w, reports[..|reports| - 1], now, k);
    }
  }

  lemma {:induction false} UnreportedIsUntouched(rows: Rows, w: string, reports: seq<Report>, now: int, k: FindingKey)
    requires k in rows && Reports(w, reports, k) == 0
    ensures k in Synced(rows, w, reports, now) && Synced(rows, w, reports, now)[k] == rows[k]
  {
    if reports != [] {
      UnreportedIsUntouched(rows, w, reports[..|reports| - 1], now, k);
    }
  }

  /** Over every run rows never vanish, and the detection count is the number of reports. */
  lemma {:induction false} DetectionsAreReports(rows: Rows, ops: seq<Op>, k: FindingKey)
    ensures k in Run(rows, ops) <==> k in rows || TotalReports(ops, k) > 0
    ensures Detections(Run(rows, ops), k) == Detections(rows, k) + TotalReports(ops, k)
    decreases ops
  {
    if |ops| > 0 {
      if ops[0].Pass? {
        PassOnlyReopens(rows, ops[0].workspace, ops[0].reports, ops[0].now, k);
      }
      DetectionsAreReports(Apply(rows, ops[0]), ops[1..], k);
    }
  }

  /** A resolution, once there, is there for good, and it changes only by another resolve of the same finding. */
  lemma {:induction false} ResolutionStays(rows: Rows, ops: seq<Op>, k: FindingKey)
    requires k in rows
    ensures k in Run(rows, ops)
    ensures rows[k].resolution.Some? ==> Run(rows, ops)[k].resolution.Some?
    ensures (forall i :: 0 <= i < |ops| ==> !Resolves(ops[i], k)) ==> Run(rows, ops)[k].resolution == rows[k].resolution
    decreases ops
  {
    if |ops| > 0 {
      if ops[0].Pass? {
        PassOnlyReopens(rows, ops[0].workspace, ops[0].reports, ops[0].now, k);
      } else if ops[0].key == k && ops[0].status != "resolved" {
        assert !Resolves(ops[0], k);
      }
      ResolutionStays(Apply(rows, ops[0]), ops[1..], k);
    }
  }

  /** The prediction a resolve snapshots survives every later detection, whatever the estimate becomes. */
  lemma SnapshotSurvives(rows: Rows, k: FindingKey, q: Request, spend: Spend, ops: seq<Op>)
    requires k in rows && forall i :: 0 <= i < |ops| ==> !Resolves(ops[i], k)
    ensures var after := Run(StatusSet(rows, k, "resolved", q, spend), ops);
            k in after && after[k].resolution == Some(ResolutionOf(rows[k], q, spend))
            && after[k].resolution.value.waste == rows[k].waste && after[k].resolution.value.at == q.at
  {
    ResolutionStays(StatusSet(rows, k, "resolved", q, spend), ops, k);
  }

  /** Resolved findings always have a baseline. */
  ghost predicate Baselined(rows: Rows) {
    forall k :: k in rows && rows[k].status == Resolved ==> rows[k].resolution.Some?
  }

  lemma {:induction false} AlwaysBaselined(rows: Rows, ops: seq<Op>)
    requires Baselined(rows)
    ensures Baselined(Run(rows, ops))
    decreases ops
  {
    if |ops| > 0 {
      if ops[0].Pass? {
        var after := Apply(rows, ops[0]);
        forall k | k in after && after[k].status == Resolved
          ensures after[k].resolution.Some?
        {
          PassOnlyReopens(rows, ops[0].workspace, ops[0].reports, ops[0].now, k);
        }
      }
      AlwaysBaselined(Apply(rows, ops[0]), ops[1..]);
    }
  }

  predicate Sets(op: Op, k: FindingKey) {
    op.SetStatus? && op.key == k
  }

  /** An accepted risk stays accepted through every detection until someone sets its status. */
  lemma {:induction false} AcceptedRiskStays(rows: Rows, ops: seq<Op>, k: FindingKey)
    requires k in rows && rows[k].status == AcceptedRisk
    requires forall i :: 0 <= i < |ops| ==> !Sets(ops[i], k)
    ensures k in Run(rows, ops) && Run(rows, ops)[k].status == AcceptedRisk
    decreases ops
  {
    if |ops| > 0 {
      if ops[0].Pass? {
        PassOnlyReopens(rows, ops[0].workspace, ops[0].reports, ops[0].now, k);
      }
      assert !Sets(ops[0], k);
      AcceptedRiskStays(Apply(rows, ops[0]), ops[1..], k);
    }
  }

  // ---- the verification trail ----

  /** Every intervention on record, oldest first. */
  function Trail(e: Evidence): seq<Intervention> {
    e.earlier + if e.verification.Some? then [e.verification.value] else []
  }

  function Resolves1(op: Op, k: FindingKey): nat {
    if Resolves(op, k) then 1 else 0
  }

  function ResolveCount(ops: seq<Op>, k: FindingKey): nat
    decreases ops
  {
    if |ops| == 0 then 0 else Resolves1(ops[0], k) + ResolveCount(ops[1..], k)
  }

  /** Between reports of a finding its trail is append-only, one intervention per resolve. */
  lemma {:induction false} TrailIsAppendOnlyBetweenReports(rows: Rows, ops: seq<Op>, k: FindingKey)
    requires k in rows && TotalReports(ops, k) == 0
    ensures k in Run(rows, ops)
    ensures var t, t' := Trail(rows[k].evidence), Trail(Run(rows, ops)[k].evidence);
            t <= t' && |t'| == |t| + ResolveCount(ops, k)
    decreases ops
  {
    if |ops| > 0 {
      if ops[0].Pass? {
        UnreportedIsUntouched(rows, ops[0].workspace, ops[0].reports, ops[0].now, k);
      }
      TrailIsAppendOnlyBetweenReports(Apply(rows, ops[0]), ops[1..], k);
    }
  }
}
