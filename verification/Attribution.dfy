/**
 Outcome attribution: which outcome a request is charged to, and how that answer moves when the
 window or the outcomes change. Costs are in units of 1e-8 USD, times are instants in seconds.
 */
module Attribution {
  import opened Options

  datatype Status = Accepted | Rejected | Failed

  /** A `request_records` row, reduced to what the allocation queries read. */
  datatype Request = Request(workspace: string, ts: int, cost: int, workflow: Option<string>)

  /** An `outcomes` row; the CHECK constraint admits exactly three statuses. */
  datatype Outcome = Outcome(workspace: string, id: string, workflow: string, status: Status, kind: Option<string>, time: int)

  /** The query parameters: `$1`, `$2` and `$3`. */
  datatype Query = Query(workspace: string, cutoff: int, window: int)

  predicate Candidate(o: Outcome, r: Request, q: Query) {
    o.workspace == q.workspace && r.workflow == Some(o.workflow) && r.ts <= o.time < r.ts + q.window
  }

  /** What `ORDER BY event_time ASC LIMIT 1` may answer: nothing if there is no candidate, otherwise any
      candidate of least time. Ties are left open, as the query leaves them. */
  predicate IsFirst(os: seq<Outcome>, r: Request, q: Query, pick: Option<Outcome>) {
    match pick
    case None => forall o :: o in os ==> !Candidate(o, r, q)
    case Some(p) => p in os && Candidate(p, r, q) && forall o :: o in os && Candidate(o, r, q) ==> p.time <= o.time
  }

  /** An answer always exists. */
  lemma {:induction false} FirstExists(os: seq<Outcome>, r: Request, q: Query) returns (pick: Option<Outcome>)
    ensures IsFirst(os, r, q, pick)
  {
    if os == [] {
      pick := None;
    } else {
      var rest := FirstExists(os[1..], r, q);
      if Candidate(os[0], r, q) && (rest.None? || os[0].time <= rest.value.time) {
        pick := Some(os[0]);
      } else {
        pick := rest;
      }
    }
  }

  /** Two answers to the same question agree on whether there is an outcome, and on its time. */
  lemma FirstIsUniqueUpToTies(os: seq<Outcome>, r: Request, q: Query, p: Option<Outcome>, p': Option<Outcome>)
    requires IsFirst(os, r, q, p) && IsFirst(os, r, q, p')
    ensures p.None? <==> p'.None?
    ensures p.Some? ==> p.value.time == p'.value.time
  {
  }

  /** Within a workflow, a later request is never charged to an earlier outcome than an earlier request is. */
  lemma LaterRequestsLaterOutcomes(os: seq<Outcome>, r: Request, r': Request, q: Query, p: Outcome, p': Outcome)
    requires r.workflow == r'.workflow && r.ts <= r'.ts
    requires IsFirst(os, r, q, Some(p)) && IsFirst(os, r', q, Some(p'))
    ensures p.time <= p'.time
  {
  }

  /** Enlarging the window keeps every attribution and can only turn an unattributed request into an attributed one. */
  lemma WiderWindowKeepsAttributions(os: seq<Outcome>, r: Request, q: Query, wider: int, p: Option<Outcome>, p': Option<Outcome>)
    requires q.window <= wider && IsFirst(os, r, q, p) && IsFirst(os, r, q.(window := wider), p')
    ensures p.Some? ==> IsFirst(os, r, q.(window := wider), p)
    ensures p.Some? ==> p'.Some? && p'.value.time == p.value.time && IsFirst(os, r, q, p')
    ensures p.None? && p'.Some? ==> r.ts + q.window <= p'.value.time < r.ts + wider
  {
  }

  /** A new outcome at time `e` leaves alone every request of another workflow, and every request of its own
      workflow except those with `ts <= e < ts + window`. */
  lemma NewOutcomeReach(os: seq<Outcome>, n: Outcome, r: Request, q: Query, p: Option<Outcome>)
    requires !(r.workflow == Some(n.workflow) && n.workspace == q.workspace && r.ts <= n.time < r.ts + q.window)
    ensures IsFirst(os + [n], r, q, p) <==> IsFirst(os, r, q, p)
  {
  }

  /** Inside that reach the new outcome takes the request exactly when nothing of the workflow precedes it. */
  lemma NewOutcomeTakesOver(os: seq<Outcome>, n: Outcome, r: Request, q: Query, p: Option<Outcome>)
    requires Candidate(n, r, q) && IsFirst(os, r, q, p)
    ensures IsFirst(os + [n], r, q, Some(n)) <==> p.None? || n.time <= p.value.time
    ensures p.Some? && p.value.time <= n.time ==> IsFirst(os + [n], r, q, p)
  {
  }
}
