/** Sums over sequences, and the few laws about them that the table models share. */
module Folds {

  /** The sum of `f` over `s`. */
  function Sum<T>(s: seq<T>, f: T -> int): int {
    if s == [] then 0 else f(s[0]) + Sum(s[1..], f)
  }

  lemma {:induction false} SumConcat<T>(a: seq<T>, b: seq<T>, f: T -> int)
    ensures Sum(a + b, f) == Sum(a, f) + Sum(b, f)
  {
    if a == [] {
      assert a + b == b;
    } else {
      assert (a + b)[1..] == a[1..] + b;
      SumConcat(a[1..], b, f);
    }
  }

  lemma SumAppend<T>(s: seq<T>, x: T, f: T -> int)
    ensures Sum(s + [x], f) == Sum(s, f) + f(x)
  {
    SumConcat(s, [x], f);
    assert [x][1..] == [];
  }

  /** Replacing one element changes a sum by exactly the difference at that element. */
  lemma {:induction false} SumUpdate<T>(s: seq<T>, i: nat, x: T, f: T -> int)
    requires i < |s|
    ensures Sum(s[i := x], f) == Sum(s, f) - f(s[i]) + f(x)
  {
    if i == 0 {
      assert s[i := x][1..] == s[1..];
    } else {
      assert s[i := x][1..] == s[1..][i - 1 := x];
      SumUpdate(s[1..], i - 1, x, f);
    }
  }

  lemma {:induction false} SumSame<T>(s: seq<T>, f: T -> int, g: T -> int)
    requires forall x :: x in s ==> f(x) == g(x)
    ensures Sum(s, f) == Sum(s, g)
  {
    if s != [] {
      SumSame(s[1..], f, g);
    }
  }

  lemma {:induction false} SumZero<T>(s: seq<T>, f: T -> int)
    requires forall x :: x in s ==> f(x) == 0
    ensures Sum(s, f) == 0
  {
    if s != [] {
      SumZero(s[1..], f);
    }
  }

  lemma {:induction false} SumMonotone<T>(s: seq<T>, f: T -> int, g: T -> int)
    requires forall x :: x in s ==> f(x) <= g(x)
    ensures Sum(s, f) <= Sum(s, g)
  {
    if s != [] {
      SumMonotone(s[1..], f, g);
    }
  }

  /** If `f` is everywhere at most `factor` times `g`, so are the sums. */
  lemma {:induction false} SumScaled<T>(s: seq<T>, f: T -> int, g: T -> int, factor: int)
    requires forall x :: x in s ==> f(x) <= factor * g(x)
    ensures Sum(s, f) <= factor * Sum(s, g)
  {
    if s != [] {
      SumScaled(s[1..], f, g, factor);
      assert f(s[0]) <= factor * g(s[0]);
    }
  }

  /** Two different places that give one take a sum of nonnegative terms to at least two. */
  lemma {:induction false} SumOneOnce<T>(s: seq<T>, f: T -> int, i: nat, j: nat)
    requires forall x :: x in s ==> 0 <= f(x)
    requires i < |s| && j < |s| && i != j && f(s[i]) == 1 && f(s[j]) == 1
    ensures Sum(s, f) >= 2
  {
    if i > j {
      SumOneOnce(s, f, j, i);
    } else if i == 0 {
      SumOneAtLeast(s[1..], f, j - 1);
    } else {
      SumOneOnce(s[1..], f, i - 1, j - 1);
    }
  }

  lemma {:induction false} SumOneAtLeast<T>(s: seq<T>, f: T -> int, i: nat)
    requires forall x :: x in s ==> 0 <= f(x)
    requires i < |s|
    ensures Sum(s, f) >= f(s[i])
  {
    if i == 0 {
      SumNonnegative(s[1..], f);
    } else {
      SumOneAtLeast(s[1..], f, i - 1);
    }
  }

  lemma {:induction false} SumNonnegative<T>(s: seq<T>, f: T -> int)
    requires forall x :: x in s ==> 0 <= f(x)
    ensures Sum(s, f) >= 0
  {
    if s != [] {
      SumNonnegative(s[1..], f);
    }
  }

  lemma {:induction false} SumOfTwo<T>(s: seq<T>, f: T -> int, g: T -> int, h: T -> int)
    requires forall x :: x in s ==> f(x) == g(x) + h(x)
    ensures Sum(s, f) == Sum(s, g) + Sum(s, h)
  {
    if s != [] {
      SumOfTwo(s[1..], f, g, h);
    }
  }

  /** Two tables of the same length whose rows agree one by one have the same sum. */
  lemma {:induction false} SumPairwise<A, B>(a: seq<A>, b: seq<B>, f: A -> int, g: B -> int)
    requires |a| == |b| && forall i :: 0 <= i < |a| ==> f(a[i]) == g(b[i])
    ensures Sum(a, f) == Sum(b, g)
  {
    if a != [] {
      SumPairwise(a[1..], b[1..], f, g);
    }
  }

  /** A sum depends only on which elements occur and how often, so an ORDER BY cannot change it. */
  lemma {:induction false} SumPermuted<T>(a: seq<T>, b: seq<T>, f: T -> int)
    requires multiset(a) == multiset(b)
    ensures Sum(a, f) == Sum(b, f)
    decreases |a|
  {
    if a == [] {
      assert |multiset(b)| == |b| == 0;
    } else {
      assert a[0] in multiset(b);
      var i :| 0 <= i < |b| && b[i] == a[0];
      var rest := b[..i] + b[i + 1..];
      assert b == b[..i] + [b[i]] + b[i + 1..];
      assert a == [a[0]] + a[1..];
      assert multiset(a[1..]) == multiset(a) - multiset{a[0]};
      assert multiset(rest) == multiset(b) - multiset{a[0]};
      SumPermuted(a[1..], rest, f);
      SumConcat(b[..i] + [b[i]], b[i + 1..], f);
      SumAppend(b[..i], b[i], f);
      SumConcat(b[..i], b[i + 1..], f);
    }
  }
}
