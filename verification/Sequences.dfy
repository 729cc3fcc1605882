/** Sums over sequences and repeated elements, shared by the models that count goroutines, pieces or paths. */
module Sequences {

  /** The sum of `f` over the elements of `s`. */
  ghost function Sum<T>(f: T -> int, s: seq<T>): int {
    if s == [] then 0 else Sum(f, s[..|s| - 1]) + f(s[|s| - 1])
  }

  lemma SumAppend<T>(f: T -> int, s: seq<T>, x: T)
    ensures Sum(f, s + [x]) == Sum(f, s) + f(x)
  {
    assert (s + [x])[..|s|] == s;
  }

  lemma {:induction false} SumUpdate<T>(f: T -> int, s: seq<T>, i: nat, x: T)
    requires i < |s|
    ensures Sum(f, s[i := x]) == Sum(f, s) - f(s[i]) + f(x)
  {
    var n := |s| - 1;
    if i == n {
      assert s[i := x][..n] == s[..n];
    } else {
      SumUpdate(f, s[..n], i, x);
      assert s[i := x][..n] == s[..n][i := x];
    }
  }

  lemma {:induction false} SumRemove<T>(f: T -> int, s: seq<T>, i: nat)
    requires i < |s|
    ensures Sum(f, s) == Sum(f, s[..i] + s[i + 1..]) + f(s[i])
  {
    var n := |s| - 1;
    if i == n {
      assert s[..i] + s[i + 1..] == s[..n];
    } else {
      SumRemove(f, s[..n], i);
      assert (s[..i] + s[i + 1..])[..n - 1] == s[..n][..i] + s[..n][i + 1..];
    }
  }

  /** A sum of non-negative terms is at least each of them. */
  lemma {:induction false} SumAtLeast<T>(f: T -> int, s: seq<T>, i: nat)
    requires i < |s| && forall x <- s :: f(x) >= 0
    ensures Sum(f, s) >= f(s[i])
    ensures Sum(f, s) >= 0
  {
    SumNonNegative(f, s[..i] + s[i + 1..]);
    SumRemove(f, s, i);
  }

  lemma {:induction false} SumAtLeastTwo<T>(f: T -> int, s: seq<T>, i: nat, j: nat)
    requires forall x :: f(x) >= 0
    requires i < j < |s|
    ensures Sum(f, s) >= f(s[i]) + f(s[j])
  {
    if j == |s| - 1 {
      SumAtLeast(f, s[..j], i);
    } else {
      SumAtLeastTwo(f, s[..|s| - 1], i, j);
    }
  }

  lemma {:induction false} SumNonNegative<T>(f: T -> int, s: seq<T>)
    requires forall x <- s :: f(x) >= 0
    ensures Sum(f, s) >= 0
  {
    if s != [] {
      SumNonNegative(f, s[..|s| - 1]);
    }
  }

  /** A sum of smaller terms is smaller. */
  lemma {:induction false} SumMonotone<T>(f: T -> int, g: T -> int, s: seq<T>)
    requires forall x <- s :: f(x) <= g(x)
    ensures Sum(f, s) <= Sum(g, s)
  {
    if s != [] {
      SumMonotone(f, g, s[..|s| - 1]);
    }
  }

  lemma RepeatedTwice<T>(s: seq<T>, i: nat, j: nat)
    requires i < j < |s| && s[i] == s[j]
    ensures multiset(s)[s[i]] >= 2
  {
    assert s == s[..j] + s[j..];
    assert s[i] in s[..j] && s[j] in s[j..];
  }

  lemma MultisetRemove<T>(s: seq<T>, i: nat)
    requires i < |s|
    ensures multiset(s[..i] + s[i + 1..]) == multiset(s) - multiset{s[i]}
  {
    assert s == s[..i] + [s[i]] + s[i + 1..];
  }

  /** The sum does not depend on the order of the elements. */
  lemma {:induction false} SumPermutation<T>(f: T -> int, s: seq<T>, t: seq<T>)
    requires multiset(s) == multiset(t)
    ensures Sum(f, s) == Sum(f, t)
    decreases |s|
  {
    if s == [] {
      assert |multiset(t)| == 0;
    } else {
      hide Sum;
      assert s[0] in multiset(t);
      var i :| 0 <= i < |t| && t[i] == s[0];
      var s', t' := s[..0] + s[1..], t[..i] + t[i + 1..];
      SumRemove(f, s, 0);
      SumRemove(f, t, i);
      assert multiset(s') == multiset(t') by {
        MultisetRemove(s, 0);
        MultisetRemove(t, i);
      }
      SumPermutation(f, s', t');
    }
  }
}
