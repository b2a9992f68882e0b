/** GROUP BY over a sequence: the groups, their sums, and why nothing is lost between them. */
module Grouping {
  import opened Folds

  predicate NoDuplicates<K(==)>(ks: seq<K>) {
    forall i, j :: 0 <= i < j < |ks| ==> ks[i] != ks[j]
  }

  /** The keys of `s`, each once, in the order they first occur. */
  function Distinct<K(==)>(s: seq<K>): seq<K> {
    if s == [] then []
    else
      var init, last := Distinct(s[..|s| - 1]), s[|s| - 1];
      if last in init then init else init + [last]
  }

  lemma {:induction false} DistinctKeys<K>(s: seq<K>)
    ensures NoDuplicates(Distinct(s))
    ensures forall k :: k in Distinct(s) <==> k in s
  {
    if s != [] {
      DistinctKeys(s[..|s| - 1]);
      assert s == s[..|s| - 1] + [s[|s| - 1]];
    }
  }

  function Keys<T, K>(items: seq<T>, key: T -> K): seq<K> {
    seq(|items|, i requires 0 <= i < |items| => key(items[i]))
  }

  /** What an item contributes to the group `k`. */
  function Cell<T, K(==)>(key: T -> K, w: T -> int, k: K): T -> int {
    (x: T) => if key(x) == k then w(x) else 0
  }

  /** The sum of `w` over each group. */
  function Column<T, K(==)>(items: seq<T>, key: T -> K, w: T -> int): K -> int {
    (k: K) => Sum(items, Cell(key, w, k))
  }

  /** Summing the groups is summing the items, as long as every item that weighs anything is in a group. */
  lemma {:induction false} GroupsPartition<T, K>(items: seq<T>, key: T -> K, w: T -> int, ks: seq<K>)
    requires NoDuplicates(ks)
    requires forall x :: x in items && w(x) != 0 ==> key(x) in ks
    ensures Sum(ks, Column(items, key, w)) == Sum(items, w)
  {
    if items == [] {
      SumZero(ks, Column(items, key, w));
    } else {
      GroupsPartition(items[1..], key, w, ks);
      OneItem(items, key, w, ks);
    }
  }

  /** The first item adds its weight to exactly one group. */
  lemma {:induction false} OneItem<T, K>(items: seq<T>, key: T -> K, w: T -> int, ks: seq<K>)
    requires items != [] && NoDuplicates(ks)
    ensures Sum(ks, Column(items, key, w)) ==
            Sum(ks, Column(items[1..], key, w)) + if key(items[0]) in ks then w(items[0]) else 0
    decreases ks
  {
    if ks != [] {
      assert NoDuplicates(ks[1..]) by {
        forall i, j | 0 <= i < j < |ks[1..]|
          ensures ks[1..][i] != ks[1..][j]
        {
          assert ks[i + 1] != ks[j + 1];
        }
      }
      OneItem(items, key, w, ks[1..]);
      if key(items[0]) == ks[0] {
        assert key(items[0]) !in ks[1..] by {
          forall j | 0 <= j < |ks[1..]|
            ensures ks[1..][j] != ks[0]
          {
            assert ks[0] != ks[j + 1];
          }
        }
      }
    }
  }
}
