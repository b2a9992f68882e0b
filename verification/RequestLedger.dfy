/** At-least-once ingest: `request_records` under the partial unique index on (workspace, event id). */
module RequestLedger {
  import opened Options

  datatype Row = Row(workspace: string, event: Option<string>, payload: string)

  predicate SameEvent(a: Row, b: Row) {
    a.event.Some? && a.event == b.event && a.workspace == b.workspace
  }

  predicate HasEvent(rows: seq<Row>, r: Row) {
    exists x :: x in rows && SameEvent(r, x)
  }

  /** `INSERT ... ON CONFLICT (workspace_id, event_id) WHERE event_id IS NOT NULL DO NOTHING` */
  function InsertRow(table: seq<Row>, r: Row): seq<Row> {
    if HasEvent(table, r) then table else table + [r]
  }

  function InsertAll(table: seq<Row>, rows: seq<Row>): seq<Row>
    decreases rows
  {
    if rows == [] then table else InsertAll(InsertRow(table, rows[0]), rows[1..])
  }

  /** Batches delivered one after another; a batch whose transaction failed is one that is not in the sequence. */
  function Ingest(table: seq<Row>, batches: seq<seq<Row>>): seq<Row>
    decreases batches
  {
    if batches == [] then table else Ingest(InsertAll(table, batches[0]), batches[1..])
  }

  function Flatten(batches: seq<seq<Row>>): seq<Row> {
    if batches == [] then [] else batches[0] + Flatten(batches[1..])
  }

  /** Everything delivered, minus each delivery of an event that had been delivered before. */
  function FirstDeliveries(rows: seq<Row>): seq<Row> {
    if rows == [] then []
    else
      var init, last := rows[..|rows| - 1], rows[|rows| - 1];
      FirstDeliveries(init) + if HasEvent(init, last) then [] else [last]
  }

  class RequestStore {
    var table: seq<Row>

    constructor ()
      ensures table == []
    {
      table := [];
    }

    /** `executemany`: one insert per record, in order. */
    method BulkInsert(rows: seq<Row>)
      modifies this
      ensures table == InsertAll(old(table), rows)
    {
      for i := 0 to |rows|
        invariant InsertAll(table, rows[i..]) == InsertAll(old(table), rows)
      {
        assert rows[i..][0] == rows[i] && rows[i..][1..] == rows[i + 1..];
        if !HasEvent(table, rows[i]) {
          table := table + [rows[i]];
        }
      }
      assert rows[|rows|..] == [];
    }
  }

  // ---- the table is the deduplicated concatenation ----

  lemma {:induction false} InsertAllConcat(table: seq<Row>, a: seq<Row>, b: seq<Row>)
    ensures InsertAll(table, a + b) == InsertAll(InsertAll(table, a), b)
    decreases a
  {
    if a == [] {
      assert a + b == b;
    } else {
      assert (a + b)[0] == a[0] && (a + b)[1..] == a[1..] + b;
      InsertAllConcat(InsertRow(table, a[0]), a[1..], b);
    }
  }

  lemma {:induction false} BatchingDoesNotMatter(table: seq<Row>, batches: seq<seq<Row>>)
    ensures Ingest(table, batches) == InsertAll(table, Flatten(batches))
    decreases batches
  {
    if batches != [] {
      InsertAllConcat(table, batches[0], Flatten(batches[1..]));
      BatchingDoesNotMatter(InsertAll(table, batches[0]), batches[1..]);
    }
  }

  /** An event is in the table exactly when it has been delivered. */
  lemma {:induction false} FirstDeliveriesKeepEvents(rows: seq<Row>, r: Row)
    ensures HasEvent(FirstDeliveries(rows), r) <==> HasEvent(rows, r)
  {
    if rows != [] {
      var init, last := rows[..|rows| - 1], rows[|rows| - 1];
      FirstDeliveriesKeepEvents(init, r);
      assert rows == init + [last];
      if SameEvent(r, last) && HasEvent(init, last) {
        var x :| x in init && SameEvent(last, x);
        assert SameEvent(r, x);
      }
    }
  }

  lemma {:induction false} TableIsFirstDeliveries(rows: seq<Row>)
    ensures InsertAll([], rows) == FirstDeliveries(rows)
  {
    if rows != [] {
      var init, last := rows[..|rows| - 1], rows[|rows| - 1];
      TableIsFirstDeliveries(init);
      assert rows == init + [last];
      InsertAllConcat([], init, [last]);
      assert [last][1..] == [];
      FirstDeliveriesKeepEvents(init, last);
    }
  }

  /** After any batches with any retries and overlaps, the table is the deduplicated concatenation of what was delivered. */
  lemma IngestDeduplicates(batches: seq<seq<Row>>)
    ensures Ingest([], batches) == FirstDeliveries(Flatten(batches))
  {
    BatchingDoesNotMatter([], batches);
    TableIsFirstDeliveries(Flatten(batches));
  }

  /** A delivery is dropped exactly when it carries an event id that its workspace has already stored. */
  lemma DeliveryIsStoredUnless(table: seq<Row>, r: Row)
    ensures InsertRow(table, r) ==
            if r.event.Some? && exists x :: x in table && x.workspace == r.workspace && x.event == r.event then table else table + [r]
  {
    if r.event.Some? && exists x :: x in table && x.workspace == r.workspace && x.event == r.event {
      var x :| x in table && x.workspace == r.workspace && x.event == r.event;
      assert SameEvent(r, x);
    }
  }

  function Unidentified(rows: seq<Row>): seq<Row> {
    if rows == [] then []
    else Unidentified(rows[..|rows| - 1]) + if rows[|rows| - 1].event == None then [rows[|rows| - 1]] else []
  }

  /** Rows without an event id are all kept, repeats included. */
  lemma {:induction false} UnidentifiedAreKept(rows: seq<Row>)
    ensures Unidentified(FirstDeliveries(rows)) == Unidentified(rows)
  {
    if rows != [] {
      var init, last := rows[..|rows| - 1], rows[|rows| - 1];
      UnidentifiedAreKept(init);
      var kept := FirstDeliveries(init);
      if HasEvent(init, last) {
        assert FirstDeliveries(rows) == kept;
      } else {
        assert (kept + [last])[..|kept|] == kept;
      }
    }
  }

  // ---- which row an event has ----

  predicate IsFirstDelivery(rows: seq<Row>, i: nat) {
    i < |rows| && !HasEvent(rows[..i], rows[i])
  }

  function Rows(table: seq<Row>, r: Row): nat {
    if table == [] then 0 else (if SameEvent(r, table[0]) then 1 else 0) + Rows(table[1..], r)
  }

  lemma {:induction false} RowsConcat(a: seq<Row>, b: seq<Row>, r: Row)
    ensures Rows(a + b, r) == Rows(a, r) + Rows(b, r)
    ensures Rows(a, r) == 0 <==> !HasEvent(a, r)
    decreases a
  {
    if a == [] {
      assert a + b == b;
    } else {
      assert (a + b)[1..] == a[1..] + b;
      RowsConcat(a[1..], b, r);
      assert a == [a[0]] + a[1..];
      assert SameEvent(r, a[0]) ==> a[0] in [a[0]];
    }
  }

  lemma {:induction false} OneRowPerEvent(rows: seq<Row>, r: Row)
    ensures Rows(FirstDeliveries(rows), r) == if HasEvent(rows, r) then 1 else 0
  {
    if rows != [] {
      var init, last := rows[..|rows| - 1], rows[|rows| - 1];
      assert rows == init + [last];
      OneRowPerEvent(init, r);
      RowsConcat(FirstDeliveries(init), if HasEvent(init, last) then [] else [last], r);
      assert [last][1..] == [];
    }
  }

  lemma {:induction false} FirstDeliveryIsStored(rows: seq<Row>, i: nat)
    requires IsFirstDelivery(rows, i)
    ensures rows[i] in FirstDeliveries(rows)
  {
    var init := rows[..|rows| - 1];
    if i < |init| {
      assert rows[..i] == init[..i];
      FirstDeliveryIsStored(init, i);
    } else {
      assert rows[..i] == init;
    }
  }

  /** Every delivered event has exactly one row, and that row is its first delivery. */
  lemma EventKeepsFirstDelivery(rows: seq<Row>, r: Row) returns (j: nat)
    requires HasEvent(rows, r)
    ensures IsFirstDelivery(rows, j) && SameEvent(r, rows[j])
    ensures rows[j] in FirstDeliveries(rows) && Rows(FirstDeliveries(rows), r) == 1
  {
    j := EarliestDelivery(rows, r);
    FirstDeliveryIsStored(rows, j);
    OneRowPerEvent(rows, r);
  }

  lemma {:induction false} EarliestDelivery(rows: seq<Row>, r: Row) returns (j: nat)
    requires HasEvent(rows, r)
    ensures j < |rows| && SameEvent(r, rows[j]) && IsFirstDelivery(rows, j)
  {
    var init, last := rows[..|rows| - 1], rows[|rows| - 1];
    assert rows == init + [last];
    if HasEvent(init, r) {
      j := EarliestDelivery(init, r);
      assert rows[..j] == init[..j];
    } else {
      j := |init|;
      assert rows[..j] == init;
    }
  }

  /** Retrying rows that are all identified and already delivered changes nothing. */
  lemma {:induction false} RetriesAreFree(table: seq<Row>, rows: seq<Row>)
    requires forall r :: r in rows ==> HasEvent(table, r)
    ensures InsertAll(table, rows) == table
    decreases rows
  {
    if rows != [] {
      assert rows[0] in rows;
      RetriesAreFree(table, rows[1..]);
    }
  }

  // ---- workspaces are isolated ----

  function Only(rows: seq<Row>, w: string): seq<Row> {
    if rows == [] then [] else (if rows[0].workspace == w then [rows[0]] else []) + Only(rows[1..], w)
  }

  lemma {:induction false} OnlyConcat(a: seq<Row>, b: seq<Row>, w: string)
    ensures Only(a + b, w) == Only(a, w) + Only(b, w)
  {
    if a == [] {
      assert a + b == b;
    } else {
      var head := if a[0].workspace == w then [a[0]] else [];
      assert (a + b)[0] == a[0] && (a + b)[1..] == a[1..] + b;
      OnlyConcat(a[1..], b, w);
      assert Only(a + b, w) == head + (Only(a[1..], w) + Only(b, w));
    }
  }

  lemma {:induction false} OnlyKeepsOwnEvents(rows: seq<Row>, r: Row)
    ensures HasEvent(Only(rows, r.workspace), r) <==> HasEvent(rows, r)
  {
    if rows != [] {
      OnlyKeepsOwnEvents(rows[1..], r);
      assert rows == [rows[0]] + rows[1..];
    }
  }

  lemma InsertWithin(table: seq<Row>, r: Row, w: string)
    ensures Only(InsertRow(table, r), w) == if r.workspace == w then InsertRow(Only(table, w), r) else Only(table, w)
  {
    OnlyConcat(table, [r], w);
    assert [r][1..] == [];
    OnlyKeepsOwnEvents(table, r);
  }

  /** What a workspace stores depends only on what it delivered itself: no other workspace's event ids suppress its rows. */
  lemma {:induction false} WorkspacesAreIsolated(table: seq<Row>, rows: seq<Row>, w: string)
    ensures Only(InsertAll(table, rows), w) == InsertAll(Only(table, w), Only(rows, w))
    decreases rows
  {
    if rows != [] {
      InsertWithin(table, rows[0], w);
      WorkspacesAreIsolated(InsertRow(table, rows[0]), rows[1..], w);
      if rows[0].workspace == w {
        assert Only(rows, w)[0] == rows[0] && Only(rows, w)[1..] == Only(rows[1..], w);
      } else {
        assert Only(rows, w) == Only(rows[1..], w);
      }
    }
  }
}
