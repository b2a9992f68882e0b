/** Row by row: what the joined summary says about each group. */
module AttributionRows {
  import opened Folds
  import opened Grouping
  import opened Attribution
  import opened AttributionQueries
  import opened AttributionTotals

  lemma {:induction false} SpendRowIsGroup(ks: seq<GroupKey>, cs: seq<Charge>, q: Query, s: SpendRow, m: Measure)
    requires s in SpendRows(ks, cs, q)
    ensures s.key in ks && CostOf(m)(s) == Column(cs, SpendKey, Weight(q, m))(s.key)
  {
    if s in SpendRows(ks[1..], cs, q) {
      SpendRowIsGroup(ks[1..], cs, q, s, m);
    }
  }

  lemma {:induction false} CountRowIsGroup(ks: seq<GroupKey>, os: seq<Outcome>, q: Query, n: CountRow, st: Status)
    requires n in CountRows(ks, os, q)
    ensures n.key in ks && CountOf(st)(n) == Column(os, CountKey, CountWeight(q, st))(n.key)
  {
    if n in CountRows(ks[1..], os, q) {
      CountRowIsGroup(ks[1..], os, q, n, st);
    }
  }

  /** A group without a row is empty. */
  lemma MissingSpendIsZero(cs: seq<Charge>, q: Query, k: GroupKey, m: Measure)
    requires k !in SpendKeys(cs, q)
    ensures Column(cs, SpendKey, Weight(q, m))(k) == 0
  {
    forall c | c in cs
      ensures Cell(SpendKey, Weight(q, m), k)(c) == 0
    {
      TaggedOnlyHas(cs, q, c);
      if Tagged(c.request, q) {
        KeyOccurs(TaggedOnly(cs, q), SpendKey, c);
      }
    }
    SumZero(cs, Cell(SpendKey, Weight(q, m), k));
  }

  lemma MissingCountIsZero(os: seq<Outcome>, q: Query, k: GroupKey, st: Status)
    requires k !in CountKeys(os, q)
    ensures Column(os, CountKey, CountWeight(q, st))(k) == 0
  {
    forall o | o in os
      ensures Cell(CountKey, CountWeight(q, st), k)(o) == 0
    {
      InWindowOnlyHas(os, q, o);
      if o.workspace == q.workspace && o.time >= q.cutoff {
        KeyOccurs(InWindowOnly(os, q), CountKey, o);
      }
    }
    SumZero(os, Cell(CountKey, CountWeight(q, st), k));
  }

  function Joined(s: SpendRow, n: CountRow): SummaryRow {
    SummaryRow(s.key, s.total, s.accepted, s.rework, s.unattributed, n.accepted, n.rejected, n.failed)
  }

  lemma {:induction false} PairComesFrom(s: SpendRow, ns: seq<CountRow>, r: SummaryRow) returns (n: CountRow)
    requires r in Pairs(s, ns)
    ensures n in ns && n.key == s.key && r == Joined(s, n)
  {
    if r in Pairs(s, ns[1..]) {
      n := PairComesFrom(s, ns[1..], r);
    } else {
      n := ns[0];
    }
  }

  lemma {:induction false} LeftComesFrom(ss: seq<SpendRow>, ns: seq<CountRow>, r: SummaryRow) returns (s: SpendRow)
    requires r in JoinLeft(ss, ns)
    ensures s in ss && r in LeftRows(s, ns)
    decreases ss
  {
    if r in LeftRows(ss[0], ns) {
      s := ss[0];
    } else {
      s := LeftComesFrom(ss[1..], ns, r);
    }
  }

  lemma {:induction false} RightComesFrom(ss: seq<SpendRow>, ns: seq<CountRow>, r: SummaryRow) returns (n: CountRow)
    requires r in JoinRight(ss, ns)
    ensures n in ns && !HasKey(ss, n.key) && r == Joined(SpendRow(n.key, 0, 0, 0, 0), n)
    decreases ns
  {
    if r in JoinRight(ss, ns[1..]) {
      n := RightComesFrom(ss, ns[1..], r);
    } else {
      n := ns[0];
    }
  }

  ghost predicate IsGroup(r: SummaryRow, cs: seq<Charge>, os: seq<Outcome>, q: Query, m: Measure, st: Status) {
    JoinedCost(m)(r) == Column(cs, SpendKey, Weight(q, m))(r.key) &&
    JoinedCount(st)(r) == Column(os, CountKey, CountWeight(q, st))(r.key)
  }

  lemma LeftIsGroup(cs: seq<Charge>, os: seq<Outcome>, q: Query, s: SpendRow, r: SummaryRow, m: Measure, st: Status)
    requires s in SpendRows(SpendKeys(cs, q), cs, q) && r in LeftRows(s, CountRows(CountKeys(os, q), os, q))
    ensures IsGroup(r, cs, os, q, m, st)
  {
    var ns := CountRows(CountKeys(os, q), os, q);
    SpendRowIsGroup(SpendKeys(cs, q), cs, q, s, m);
    if Pairs(s, ns) == [] {
      SummaryKeysAreUnique(cs, os, q);
      PairsCarryCostOnce(s, ns, CostTotal);
      CountKeyHasRow(CountKeys(os, q), os, q, s.key);
      MissingCountIsZero(os, q, s.key, st);
    } else {
      var n := PairComesFrom(s, ns, r);
      CountRowIsGroup(CountKeys(os, q), os, q, n, st);
    }
  }

  lemma {:induction false} CountKeyHasRow(ks: seq<GroupKey>, os: seq<Outcome>, q: Query, k: GroupKey)
    ensures k in ks ==> exists n :: n in CountRows(ks, os, q) && n.key == k
  {
    if ks != [] {
      CountKeyHasRow(ks[1..], os, q, k);
      var ns := CountRows(ks, os, q);
      assert ns[0] in ns && ns[0].key == ks[0];
      assert forall n :: n in CountRows(ks[1..], os, q) ==> n in ns;
    }
  }

  lemma {:induction false} SpendKeyHasRow(ks: seq<GroupKey>, cs: seq<Charge>, q: Query, k: GroupKey)
    ensures k in ks ==> HasKey(SpendRows(ks, cs, q), k)
  {
    if ks != [] {
      SpendKeyHasRow(ks[1..], cs, q, k);
      var ss := SpendRows(ks, cs, q);
      assert ss[0] in ss && ss[0].key == ks[0];
      assert forall s :: s in SpendRows(ks[1..], cs, q) ==> s in ss;
    }
  }

  lemma RightIsGroup(cs: seq<Charge>, os: seq<Outcome>, q: Query, n: CountRow, m: Measure, st: Status)
    requires n in CountRows(CountKeys(os, q), os, q) && !HasKey(SpendRows(SpendKeys(cs, q), cs, q), n.key)
    ensures IsGroup(Joined(SpendRow(n.key, 0, 0, 0, 0), n), cs, os, q, m, st)
  {
    CountRowIsGroup(CountKeys(os, q), os, q, n, st);
    SpendKeyHasRow(SpendKeys(cs, q), cs, q, n.key);
    MissingSpendIsZero(cs, q, n.key, m);
  }

  /** Every returned row holds exactly its group: each cost is the sum over the tagged requests of that workflow and
      kind, each count the number of outcomes of that workflow and kind, zeros where the join found no partner. */
  lemma RowsAreGroups(cs: seq<Charge>, os: seq<Outcome>, q: Query, r: SummaryRow, m: Measure, st: Status)
    requires r in Summary(cs, os, q)
    ensures IsGroup(r, cs, os, q, m, st)
  {
    var ss, ns := SpendRows(SpendKeys(cs, q), cs, q), CountRows(CountKeys(os, q), os, q);
    if r in JoinLeft(ss, ns) {
      var s := LeftComesFrom(ss, ns, r);
      LeftIsGroup(cs, os, q, s, r, m, st);
    } else {
      var n := RightComesFrom(ss, ns, r);
      RightIsGroup(cs, os, q, n, m, st);
    }
  }

  // ---- one row per group ----

  predicate UniqueRows(rows: seq<SummaryRow>) {
    forall i, j :: 0 <= i < j < |rows| ==> rows[i].key != rows[j].key
  }

  lemma LeftIsOneRow(s: SpendRow, ns: seq<CountRow>)
    requires UniqueCounts(ns)
    ensures |LeftRows(s, ns)| == 1 && LeftRows(s, ns)[0].key == s.key
  {
    PairsCarryCostOnce(s, ns, CostTotal);
    if Pairs(s, ns) != [] {
      var n := PairComesFrom(s, ns, Pairs(s, ns)[0]);
    }
  }

  lemma {:induction false} LeftKeys(ss: seq<SpendRow>, ns: seq<CountRow>)
    requires UniqueCounts(ns)
    ensures |JoinLeft(ss, ns)| == |ss| && forall i :: 0 <= i < |ss| ==> JoinLeft(ss, ns)[i].key == ss[i].key
    decreases ss
  {
    if ss != [] {
      LeftKeys(ss[1..], ns);
      LeftIsOneRow(ss[0], ns);
    }
  }

  lemma {:induction false} RightKeys(ss: seq<SpendRow>, ns: seq<CountRow>)
    requires UniqueCounts(ns)
    ensures UniqueRows(JoinRight(ss, ns)) && forall r :: r in JoinRight(ss, ns) ==> !HasKey(ss, r.key)
    decreases ns
  {
    if ns != [] {
      RightKeys(ss, ns[1..]);
      forall r | r in JoinRight(ss, ns[1..])
        ensures r.key != ns[0].key
      {
        var n := RightComesFrom(ss, ns[1..], r);
      }
    }
  }

  /** No group has two rows. */
  lemma OneRowPerGroup(cs: seq<Charge>, os: seq<Outcome>, q: Query)
    ensures UniqueRows(Summary(cs, os, q))
  {
    var ss, ns := SpendRows(SpendKeys(cs, q), cs, q), CountRows(CountKeys(os, q), os, q);
    SummaryKeysAreUnique(cs, os, q);
    LeftKeys(ss, ns);
    RightKeys(ss, ns);
  }

  lemma {:induction false} RightHasRow(ss: seq<SpendRow>, ns: seq<CountRow>, n: CountRow)
    requires n in ns && !HasKey(ss, n.key)
    ensures exists r :: r in JoinRight(ss, ns) && r.key == n.key
    decreases ns
  {
    var rows := JoinRight(ss, ns);
    if n == ns[0] {
      assert rows[0] in rows;
    } else {
      RightHasRow(ss, ns[1..], n);
      var r :| r in JoinRight(ss, ns[1..]) && r.key == n.key;
      assert r in rows;
    }
  }

  /** A group with a tagged request or an outcome in the window has a row. */
  lemma EveryGroupHasARow(cs: seq<Charge>, os: seq<Outcome>, q: Query, k: GroupKey)
    requires k in SpendKeys(cs, q) || k in CountKeys(os, q)
    ensures exists r :: r in Summary(cs, os, q) && r.key == k
  {
    var ss, ns := SpendRows(SpendKeys(cs, q), cs, q), CountRows(CountKeys(os, q), os, q);
    SummaryKeysAreUnique(cs, os, q);
    LeftKeys(ss, ns);
    SpendKeyHasRow(SpendKeys(cs, q), cs, q, k);
    CountKeyHasRow(CountKeys(os, q), os, q, k);
    if HasKey(ss, k) {
      var s :| s in ss && s.key == k;
      var i :| 0 <= i < |ss| && ss[i] == s;
      assert JoinLeft(ss, ns)[i] in Summary(cs, os, q);
    } else {
      var n :| n in ns && n.key == k;
      RightHasRow(ss, ns, n);
      var r :| r in JoinRight(ss, ns) && r.key == k;
      assert r in Summary(cs, os, q);
    }
  }
}
