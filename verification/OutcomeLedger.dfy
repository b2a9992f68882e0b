/** Outcomes with replays and corrections: the `outcomes` and `outcome_history` tables. */
module OutcomeLedger {
  import opened Options
  import opened Attribution

  datatype OutcomeId = OutcomeId(workspace: string, id: string)

  /** What the caller posts; only status and time can later be corrected. */
  datatype Posted = Posted(id: string, workflow: string, status: Status, value: Option<int>, currency: Option<string>,
                           time: int, source: string, metadata: string)

  datatype Change = Change(key: OutcomeId, priorStatus: Status, newStatus: Status, priorTime: int, newTime: int, reason: string)

  type Rows = map<OutcomeId, Posted>

  datatype Ledger = Ledger(rows: Rows, history: seq<Change>)

  /** One statement: an insert that yields to an existing row, or a correction transaction. */
  datatype Op =
    | Insert(workspace: string, outcome: Posted)
    | Correct(workspace: string, id: string, status: Status, reason: string, time: Option<int>)

  function InsertRow(rows: Rows, w: string, o: Posted): Rows {
    if OutcomeId(w, o.id) in rows then rows else rows[OutcomeId(w, o.id) := o]
  }

  function CorrectRow(l: Ledger, w: string, id: string, status: Status, reason: string, time: Option<int>): Ledger {
    var k := OutcomeId(w, id);
    if k !in l.rows then l
    else
      var row := l.rows[k];
      var t := if time.Some? then time.value else row.time;
      Ledger(l.rows[k := row.(status := status, time := t)],
             l.history + [Change(k, row.status, status, row.time, t, reason)])
  }

  function Apply(l: Ledger, op: Op): Ledger {
    match op
    case Insert(w, o) => l.(rows := InsertRow(l.rows, w, o))
    case Correct(w, id, status, reason, time) => CorrectRow(l, w, id, status, reason, time)
  }

  /** Any interleaving of the statements of any number of batches and corrections. */
  function Run(l: Ledger, ops: seq<Op>): Ledger
    decreases ops
  {
    if ops == [] then l else Run(Apply(l, ops[0]), ops[1..])
  }

  // ---- the endpoint: collapse repeats within the batch, then insert one by one ----

  /** The first occurrence of every id in the batch. */
  function FirstOccurrences(batch: seq<Posted>): (kept: seq<Posted>)
    ensures |kept| <= |batch|
  {
    if batch == [] then []
    else
      var init, last := FirstOccurrences(batch[..|batch| - 1]), batch[|batch| - 1];
      if exists o :: o in init && o.id == last.id then init else init + [last]
  }

  function Inserts(w: string, batch: seq<Posted>): seq<Op> {
    seq(|batch|, i requires 0 <= i < |batch| => Insert(w, batch[i]))
  }

  function InsertAll(rows: Rows, w: string, batch: seq<Posted>): Rows {
    if batch == [] then rows else InsertRow(InsertAll(rows, w, batch[..|batch| - 1]), w, batch[|batch| - 1])
  }

  predicate HasId(batch: seq<Posted>, id: string) {
    exists o :: o in batch && o.id == id
  }

  lemma {:induction false} InsertAllKeys(rows: Rows, w: string, batch: seq<Posted>, k: OutcomeId)
    ensures k in InsertAll(rows, w, batch) <==> k in rows || (k.workspace == w && HasId(batch, k.id))
    ensures k in rows ==> InsertAll(rows, w, batch)[k] == rows[k]
  {
    if batch != [] {
      InsertAllKeys(rows, w, batch[..|batch| - 1], k);
    }
  }

  /** Collapsing repeats first changes nothing about the resulting table. */
  lemma {:induction false} CollapsingIsHarmless(rows: Rows, w: string, batch: seq<Posted>)
    ensures InsertAll(rows, w, FirstOccurrences(batch)) == InsertAll(rows, w, batch)
  {
    if batch != [] {
      var init, last := batch[..|batch| - 1], batch[|batch| - 1];
      CollapsingIsHarmless(rows, w, init);
      var seen := FirstOccurrences(init);
      InsertAllKeys(rows, w, seen, OutcomeId(w, last.id));
      if !HasId(seen, last.id) {
        assert (seen + [last])[..|seen|] == seen;
      }
    }
  }

  /** The first loop of the handler: the batch without repeats of an id, first occurrence winning. */
  method CollapseRepeats(outcomes: seq<Posted>) returns (kept: seq<Posted>)
    ensures kept == FirstOccurrences(outcomes)
  {
    var seen: set<string> := {};
    kept := [];
    for i := 0 to |outcomes|
      invariant kept == FirstOccurrences(outcomes[..i])
      invariant forall id :: id in seen <==> HasId(kept, id)
    {
      var o := outcomes[i];
      assert outcomes[..i + 1][..i] == outcomes[..i];
      if o.id !in seen {
        seen := seen + {o.id};
        kept := kept + [o];
      }
    }
    assert outcomes[..|outcomes|] == outcomes;
  }

  class OutcomeStore {
    var rows: Rows
    var history: seq<Change>

    constructor ()
      ensures rows == map[] && history == []
    {
      rows, history := map[], [];
    }

    /** Accepted and duplicates add up to the batch, accepted is how much the table grew, and the table is what
        inserting the whole batch in order gives. */
    method IngestOutcomes(workspace: string, outcomes: seq<Posted>) returns (accepted: nat, duplicates: nat)
      modifies this`rows
      ensures rows == InsertAll(old(rows), workspace, outcomes)
      ensures accepted + duplicates == |outcomes| && |rows| == |old(rows)| + accepted
      ensures forall k :: k in old(rows) ==> k in rows && rows[k] == old(rows)[k]
      ensures forall k :: k in rows && k !in old(rows) ==> k.workspace == workspace && HasId(outcomes, k.id)
      ensures forall o :: o in outcomes ==> OutcomeId(workspace, o.id) in rows
    {
      if outcomes == [] {
        return 0, 0;
      }
      var kept := CollapseRepeats(outcomes);
      accepted := 0;
      for i := 0 to |kept|
        invariant rows == InsertAll(old(rows), workspace, kept[..i])
        invariant |rows| == |old(rows)| + accepted && accepted <= i
      {
        var k := OutcomeId(workspace, kept[i].id);
        assert kept[..i + 1][..i] == kept[..i];
        if k !in rows {
          rows := rows[k := kept[i]];
          accepted := accepted + 1;
        }
      }
      assert kept[..|kept|] == kept;
      CollapsingIsHarmless(old(rows), workspace, outcomes);
      forall k
        ensures k in rows <==> k in old(rows) || (k.workspace == workspace && HasId(outcomes, k.id))
        ensures k in old(rows) ==> k in rows && rows[k] == old(rows)[k]
      {
        InsertAllKeys(old(rows), workspace, outcomes, k);
      }
      assert forall o :: o in outcomes ==> HasId(outcomes, o.id);
      duplicates := |outcomes| - accepted;
    }

    /** Appends the previous state to the history and replaces status and time, or does nothing for an unknown id. */
    method CorrectOutcome(workspace: string, id: string, status: Status, reason: string, time: Option<int>) returns (found: bool)
      modifies this
      ensures found <==> OutcomeId(workspace, id) in old(rows)
      ensures Ledger(rows, history) == CorrectRow(Ledger(old(rows), old(history)), workspace, id, status, reason, time)
      ensures !found ==> rows == old(rows) && history == old(history)
      ensures found ==>
              var k := OutcomeId(workspace, id);
              var row := old(rows)[k];
              var moved := if time.Some? then time.value else row.time;
              rows == old(rows)[k := row.(status := status, time := moved)] &&
              history == old(history) + [Change(k, row.status, status, row.time, moved, reason)]
    {
      var k := OutcomeId(workspace, id);
      if k !in rows {
        return false;
      }
      var current := rows[k];
      var newTime := if time.Some? then time.value else current.time;
      history := history + [Change(k, current.status, status, current.time, newTime, reason)];
      rows := rows[k := current.(status := status, time := newTime)];
      found := true;
    }
  }

  /** The handler's batch insert is a run of its insert statements. */
  lemma {:induction false} BatchIsARun(l: Ledger, w: string, batch: seq<Posted>)
    ensures Run(l, Inserts(w, batch)) == l.(rows := InsertAll(l.rows, w, batch))
  {
    if batch != [] {
      var init, last := batch[..|batch| - 1], batch[|batch| - 1];
      BatchIsARun(l, w, init);
      assert Inserts(w, batch) == Inserts(w, init) + [Insert(w, last)];
      RunAppend(l, Inserts(w, init), Insert(w, last));
    }
  }

  lemma {:induction false} RunAppend(l: Ledger, ops: seq<Op>, op: Op)
    ensures Run(l, ops + [op]) == Apply(Run(l, ops), op)
    decreases ops
  {
    if ops == [] {
      assert [] + [op] == [op] && [op][1..] == [];
      assert Run(Apply(l, op), []) == Apply(l, op);
    } else {
      assert (ops + [op])[0] == ops[0] && (ops + [op])[1..] == ops[1..] + [op];
      RunAppend(Apply(l, ops[0]), ops[1..], op);
    }
  }

  // ---- first post wins, corrections survive replays ----

  /** The statements about the row `k`: every insert of its id, replays included, and every correction of it. */
  predicate Concerns(op: Op, k: OutcomeId) {
    match op
    case Insert(w, o) => OutcomeId(w, o.id) == k
    case Correct(w, id, _, _, _) => OutcomeId(w, id) == k
  }

  /** The run with every insert of an already inserted id removed. */
  function WithoutReplays(ops: seq<Op>, seen: set<OutcomeId>): seq<Op>
    decreases ops
  {
    if ops == [] then []
    else if ops[0].Insert? then
      var k := OutcomeId(ops[0].workspace, ops[0].outcome.id);
      if k in seen then WithoutReplays(ops[1..], seen) else [ops[0]] + WithoutReplays(ops[1..], seen + {k})
    else [ops[0]] + WithoutReplays(ops[1..], seen)
  }

  /** A replayed delivery changes nothing, wherever it falls among corrections and other batches: rows and
      history are those of the run in which every outcome id is posted once. */
  lemma {:induction false} ReplaysChangeNothing(l: Ledger, ops: seq<Op>)
    ensures Run(l, ops) == Run(l, WithoutReplays(ops, l.rows.Keys))
    decreases ops
  {
    if ops != [] {
      var next := Apply(l, ops[0]);
      ReplaysChangeNothing(next, ops[1..]);
      var rest := WithoutReplays(ops[1..], next.rows.Keys);
      if ops[0].Insert? {
        var k := OutcomeId(ops[0].workspace, ops[0].outcome.id);
        if k in l.rows {
          assert next == l;
        } else {
          assert next.rows.Keys == l.rows.Keys + {k};
          assert ([ops[0]] + rest)[1..] == rest;
        }
      } else {
        assert next.rows.Keys == l.rows.Keys;
        assert ([ops[0]] + rest)[1..] == rest;
      }
    }
  }

  /** The reduced run posts every id at most once, and none that already has a row. */
  lemma {:induction false} EachIdOnce(ops: seq<Op>, seen: set<OutcomeId>, i: nat, j: nat, k: OutcomeId)
    requires i < j < |WithoutReplays(ops, seen)| && Posts(WithoutReplays(ops, seen)[i], k)
    ensures !Posts(WithoutReplays(ops, seen)[j], k) && k !in seen
    decreases ops
  {
    NoSeenPosts(ops, seen, i, k);
    if ops[0].Insert? {
      var k' := OutcomeId(ops[0].workspace, ops[0].outcome.id);
      if k' in seen {
        EachIdOnce(ops[1..], seen, i, j, k);
      } else if i == 0 {
        NoSeenPosts(ops[1..], seen + {k'}, j - 1, k);
      } else {
        EachIdOnce(ops[1..], seen + {k'}, i - 1, j - 1, k);
      }
    } else if i > 0 {
      EachIdOnce(ops[1..], seen, i - 1, j - 1, k);
    }
  }

  lemma {:induction false} NoSeenPosts(ops: seq<Op>, seen: set<OutcomeId>, j: nat, k: OutcomeId)
    requires j < |WithoutReplays(ops, seen)|
    ensures Posts(WithoutReplays(ops, seen)[j], k) ==> k !in seen
    decreases ops
  {
    if ops[0].Insert? && OutcomeId(ops[0].workspace, ops[0].outcome.id) in seen {
      NoSeenPosts(ops[1..], seen, j, k);
    } else if j > 0 {
      var seen' := if ops[0].Insert? then seen + {OutcomeId(ops[0].workspace, ops[0].outcome.id)} else seen;
      NoSeenPosts(ops[1..], seen', j - 1, k);
    }
  }

  /** Once posted, a row keeps everything but status and time for ever, and status and time move only by correction. */
  lemma {:induction false} FirstPostWins(l: Ledger, ops: seq<Op>, k: OutcomeId)
    requires k in l.rows
    ensures k in Run(l, ops).rows
    ensures Run(l, ops).rows[k] == l.rows[k].(status := Run(l, ops).rows[k].status, time := Run(l, ops).rows[k].time)
    ensures (forall op :: op in ops && op.Correct? ==> !Concerns(op, k)) ==> Run(l, ops).rows[k] == l.rows[k]
    decreases ops
  {
    if ops != [] {
      FirstPostWins(Apply(l, ops[0]), ops[1..], k);
      assert ops[0] in ops;
    }
  }

  predicate Corrects(op: Op, k: OutcomeId) {
    op.Correct? && Concerns(op, k)
  }

  predicate Posts(op: Op, k: OutcomeId) {
    op.Insert? && Concerns(op, k)
  }

  /** Operation `c` is the last correction of `k`. */
  ghost predicate IsLastCorrection(ops: seq<Op>, k: OutcomeId, c: nat) {
    c < |ops| && Corrects(ops[c], k) && forall i :: c < i < |ops| ==> !Corrects(ops[i], k)
  }

  /** Operation `c` is the last correction of `k` that gives a time. */
  ghost predicate IsLastTimed(ops: seq<Op>, k: OutcomeId, c: nat) {
    c < |ops| && Corrects(ops[c], k) && ops[c].time.Some?
    && forall i :: c < i < |ops| && Corrects(ops[i], k) ==> ops[i].time.None?
  }

  lemma {:induction false} StatusIsLastCorrection(l: Ledger, ops: seq<Op>, k: OutcomeId, c: nat)
    requires k in l.rows && IsLastCorrection(ops, k, c)
    ensures k in Run(l, ops).rows && Run(l, ops).rows[k].status == ops[c].status
    decreases ops
  {
    var l' := Apply(l, ops[0]);
    if c == 0 {
      forall op | op in ops[1..] && op.Correct?
        ensures !Concerns(op, k)
      {
        var i :| 0 <= i < |ops[1..]| && ops[1..][i] == op;
        assert !Corrects(ops[i + 1], k);
      }
      FirstPostWins(l', ops[1..], k);
    } else {
      StatusIsLastCorrection(l', ops[1..], k, c - 1);
    }
  }

  /** Corrections that give no time leave it. */
  lemma {:induction false} UntimedKeepTime(l: Ledger, ops: seq<Op>, k: OutcomeId)
    requires k in l.rows && forall i :: 0 <= i < |ops| && Corrects(ops[i], k) ==> ops[i].time.None?
    ensures k in Run(l, ops).rows && Run(l, ops).rows[k].time == l.rows[k].time
    decreases ops
  {
    if ops != [] {
      assert Corrects(ops[0], k) ==> ops[0].time.None?;
      UntimedKeepTime(Apply(l, ops[0]), ops[1..], k);
    }
  }

  lemma {:induction false} TimeIsLastTimed(l: Ledger, ops: seq<Op>, k: OutcomeId, c: nat)
    requires k in l.rows && IsLastTimed(ops, k, c)
    ensures k in Run(l, ops).rows && Run(l, ops).rows[k].time == ops[c].time.value
    decreases ops
  {
    var l' := Apply(l, ops[0]);
    if c == 0 {
      UntimedKeepTime(l', ops[1..], k);
    } else {
      TimeIsLastTimed(l', ops[1..], k, c - 1);
    }
  }

  lemma {:induction false} NothingBeforeFirstPost(l: Ledger, ops: seq<Op>, k: OutcomeId)
    requires k !in l.rows && forall i :: 0 <= i < |ops| ==> !Posts(ops[i], k)
    ensures k !in Run(l, ops).rows
    decreases ops
  {
    if ops != [] {
      assert !Posts(ops[0], k);
      NothingBeforeFirstPost(Apply(l, ops[0]), ops[1..], k);
    }
  }

  /** The row has the status of the last correction and the time of the last correction that gave one; where there is
      none, those of `start`. */
  ghost predicate Corrected(start: Posted, row: Posted, ops: seq<Op>, k: OutcomeId) {
    ((forall i :: 0 <= i < |ops| ==> !Corrects(ops[i], k)) ==> row.status == start.status) &&
    (forall c: nat :: IsLastCorrection(ops, k, c) ==> row.status == ops[c].status) &&
    ((forall i :: 0 <= i < |ops| && Corrects(ops[i], k) ==> ops[i].time.None?) ==> row.time == start.time) &&
    (forall c: nat :: IsLastTimed(ops, k, c) ==> row.time == ops[c].time.value)
  }

  lemma RowIsCorrected(l: Ledger, ops: seq<Op>, k: OutcomeId)
    requires k in l.rows
    ensures k in Run(l, ops).rows && Corrected(l.rows[k], Run(l, ops).rows[k], ops, k)
  {
    FirstPostWins(l, ops, k);
    if forall i :: 0 <= i < |ops| ==> !Corrects(ops[i], k) {
      assert forall op :: op in ops && op.Correct? ==> !Concerns(op, k);
    }
    forall c: nat | IsLastCorrection(ops, k, c)
      ensures Run(l, ops).rows[k].status == ops[c].status
    {
      StatusIsLastCorrection(l, ops, k, c);
    }
    if forall i :: 0 <= i < |ops| && Corrects(ops[i], k) ==> ops[i].time.None? {
      UntimedKeepTime(l, ops, k);
    }
    forall c: nat | IsLastTimed(ops, k, c)
      ensures Run(l, ops).rows[k].time == ops[c].time.value
    {
      TimeIsLastTimed(l, ops, k, c);
    }
  }

  /** Let `post` be the first post of an id and `rest` everything after it, replays and corrections in any order. The
      row is that post, with the status of the last correction and the time of the last correction that gave one. */
  lemma RowIsFirstPostLastCorrected(l: Ledger, before: seq<Op>, post: Op, rest: seq<Op>, k: OutcomeId)
    requires k !in l.rows && Posts(post, k) && forall i :: 0 <= i < |before| ==> !Posts(before[i], k)
    ensures var end := Run(Apply(Run(l, before), post), rest);
            k in end.rows && end.rows[k] == post.outcome.(status := end.rows[k].status, time := end.rows[k].time) &&
            Corrected(post.outcome, end.rows[k], rest, k)
  {
    NothingBeforeFirstPost(l, before, k);
    var posted := Apply(Run(l, before), post);
    assert posted.rows[k] == post.outcome;
    FirstPostWins(posted, rest, k);
    RowIsCorrected(posted, rest, k);
  }

  // ---- the history chains ----

  function HistoryOf(h: seq<Change>, k: OutcomeId): seq<Change> {
    if h == [] then []
    else
      var init := HistoryOf(h[..|h| - 1], k);
      if h[|h| - 1].key == k then init + [h[|h| - 1]] else init
  }

  /** Each change starts where the one before it ended, from the posted row to the current one. */
  predicate Chains(first: Posted, changes: seq<Change>, now: Posted)
    decreases changes
  {
    if changes == [] then first.status == now.status && first.time == now.time
    else
      changes[0].priorStatus == first.status && changes[0].priorTime == first.time &&
      Chains(first.(status := changes[0].newStatus, time := changes[0].newTime), changes[1..], now)
  }

  lemma {:induction false} ChainExtends(first: Posted, changes: seq<Change>, now: Posted, c: Change, next: Posted)
    requires Chains(first, changes, now)
    requires c.priorStatus == now.status && c.priorTime == now.time && c.newStatus == next.status && c.newTime == next.time
    ensures Chains(first, changes + [c], next)
    decreases changes
  {
    if changes == [] {
      assert [] + [c] == [c];
    } else {
      assert (changes + [c])[0] == changes[0] && (changes + [c])[1..] == changes[1..] + [c];
      ChainExtends(first.(status := changes[0].newStatus, time := changes[0].newTime), changes[1..], now, c, next);
    }
  }

  /** `posted` is what the id was first posted as, if it has been. */
  predicate HistoryChains(l: Ledger, k: OutcomeId, posted: Option<Posted>) {
    (posted.Some? <==> k in l.rows) &&
    (posted.None? ==> HistoryOf(l.history, k) == []) &&
    (posted.Some? ==> Chains(posted.value, HistoryOf(l.history, k), l.rows[k]))
  }

  function FirstPost(ops: seq<Op>, k: OutcomeId): Option<Posted>
    decreases ops
  {
    if ops == [] then None
    else if ops[0].Insert? && Concerns(ops[0], k) then Some(ops[0].outcome)
    else FirstPost(ops[1..], k)
  }

  lemma ApplyKeepsChain(l: Ledger, op: Op, k: OutcomeId, posted: Option<Posted>)
    requires HistoryChains(l, k, posted)
    ensures HistoryChains(Apply(l, op), k,
                          if posted.None? && op.Insert? && Concerns(op, k) then Some(op.outcome) else posted)
  {
    var next := Apply(l, op);
    if |next.history| > |l.history| {
      assert next.history[..|l.history|] == l.history;
      if Concerns(op, k) {
        ChainExtends(posted.value, HistoryOf(l.history, k), l.rows[k], next.history[|l.history|], next.rows[k]);
      }
    }
  }

  lemma {:induction false} RunKeepsChain(l: Ledger, ops: seq<Op>, k: OutcomeId, posted: Option<Posted>)
    requires HistoryChains(l, k, posted)
    ensures HistoryChains(Run(l, ops), k, if posted.Some? then posted else FirstPost(ops, k))
    decreases ops
  {
    if ops != [] {
      ApplyKeepsChain(l, ops[0], k, posted);
      RunKeepsChain(Apply(l, ops[0]), ops[1..], k,
                    if posted.None? && ops[0].Insert? && Concerns(ops[0], k) then Some(ops[0].outcome) else posted);
    }
  }

  /** In every run from empty tables, the audit history of every outcome leads step by step from its first post
      to the row as it stands, and an id never posted has neither row nor history. */
  lemma HistoryLeadsToCurrentRow(ops: seq<Op>, k: OutcomeId)
    ensures HistoryChains(Run(Ledger(map[], []), ops), k, FirstPost(ops, k))
  {
    RunKeepsChain(Ledger(map[], []), ops, k, None);
  }

  /** The corrections of `k`, in order. */
  function CorrectionsOf(ops: seq<Op>, k: OutcomeId): seq<Op>
    decreases ops
  {
    if ops == [] then [] else (if Corrects(ops[0], k) then [ops[0]] else []) + CorrectionsOf(ops[1..], k)
  }

  /** The change records its correction: reason, status, and the time if one was given. */
  predicate Records(c: Change, op: Op) {
    op.Correct? && c.key == OutcomeId(op.workspace, op.id) && c.reason == op.reason && c.newStatus == op.status
    && (op.time.Some? ==> c.newTime == op.time.value)
  }

  predicate RecordsAll(changes: seq<Change>, ops: seq<Op>) {
    |changes| == |ops| && forall i :: 0 <= i < |ops| ==> Records(changes[i], ops[i])
  }

  lemma RecordsFirst(c: Change, changes: seq<Change>, op: Op, ops: seq<Op>)
    requires Records(c, op) && RecordsAll(changes, ops)
    ensures RecordsAll([c] + changes, [op] + ops)
  {
  }

  lemma CorrectionIsRecorded(l: Ledger, op: Op, k: OutcomeId) returns (c: Change)
    requires k in l.rows && Corrects(op, k)
    ensures HistoryOf(Apply(l, op).history, k) == HistoryOf(l.history, k) + [c] && Records(c, op)
  {
    c := Apply(l, op).history[|l.history|];
    assert Apply(l, op).history[..|l.history|] == l.history;
  }

  /** Once an id is posted, its history gains exactly one entry for every correction, with its reason, and no other;
      nothing in it is ever removed. */
  lemma {:induction false} HistoryRecordsCorrections(l: Ledger, ops: seq<Op>, k: OutcomeId) returns (added: seq<Change>)
    requires k in l.rows
    ensures HistoryOf(Run(l, ops).history, k) == HistoryOf(l.history, k) + added && RecordsAll(added, CorrectionsOf(ops, k))
    decreases ops
  {
    if ops == [] {
      added := [];
    } else {
      var rest := HistoryRecordsCorrections(Apply(l, ops[0]), ops[1..], k);
      if Corrects(ops[0], k) {
        var c := CorrectionIsRecorded(l, ops[0], k);
        added := [c] + rest;
        RecordsFirst(c, rest, ops[0], CorrectionsOf(ops[1..], k));
        assert HistoryOf(l.history, k) + [c] + rest == HistoryOf(l.history, k) + added;
      } else {
        OtherHistoryStays(l, ops[0], k);
        added := rest;
      }
    }
  }

  lemma OtherHistoryStays(l: Ledger, op: Op, k: OutcomeId)
    requires !Corrects(op, k)
    ensures HistoryOf(Apply(l, op).history, k) == HistoryOf(l.history, k)
  {
    if |Apply(l, op).history| > |l.history| {
      assert Apply(l, op).history[..|l.history|] == l.history;
    }
  }

  /** Correcting an id that has no row leaves no trace. */
  lemma UnknownCorrectionLeavesNoTrace(l: Ledger, op: Op)
    requires op.Correct? && OutcomeId(op.workspace, op.id) !in l.rows
    ensures Apply(l, op) == l
  {
  }
}
