/** Sums over a sequence of threads, connections or callers.

    Every counting invariant of this project ("how many threads hold this
    handle", "how many boots are still pending") is a `Sum` of one named
    function over a sequence; the lemmas say how such a sum changes when one
    element is replaced or appended. */
module Sums {

  function Sum<T>(s: seq<T>, f: T -> nat): nat {
    if |s| == 0 then 0 else Sum(s[..|s| - 1], f) + f(s[|s| - 1])
  }

  lemma SumAppend<T>(s: seq<T>, x: T, f: T -> nat)
    ensures Sum(s + [x], f) == Sum(s, f) + f(x)
  {
    assert (s + [x])[..|s|] == s;
  }

  lemma {:induction false} SumUpdate<T>(s: seq<T>, i: nat, x: T, f: T -> nat)
    requires i < |s|
    ensures Sum(s[i := x], f) + f(s[i]) == Sum(s, f) + f(x)
  {
    var n := |s| - 1;
    if i == n {
      assert s[i := x][..n] == s[..n];
    } else {
      assert s[i := x][..n] == s[..n][i := x];
      SumUpdate(s[..n], i, x, f);
    }
  }

  lemma {:induction false} SumAtLeast<T>(s: seq<T>, i: nat, f: T -> nat)
    requires i < |s|
    ensures f(s[i]) <= Sum(s, f)
  {
    if i < |s| - 1 {
      SumAtLeast(s[..|s| - 1], i, f);
    }
  }

  lemma {:induction false} SumAtLeastTwo<T>(s: seq<T>, i: nat, j: nat, f: T -> nat)
    requires i < j < |s|
    ensures f(s[i]) + f(s[j]) <= Sum(s, f)
  {
    var n := |s| - 1;
    if j == n {
      SumAtLeast(s[..n], i, f);
    } else {
      SumAtLeastTwo(s[..n], i, j, f);
    }
  }

  /** A positive sum has a positive term. */
  lemma {:induction false} SumWitness<T>(s: seq<T>, f: T -> nat) returns (i: nat)
    requires Sum(s, f) > 0
    ensures i < |s| && f(s[i]) > 0
  {
    if f(s[|s| - 1]) > 0 {
      i := |s| - 1;
    } else {
      i := SumWitness(s[..|s| - 1], f);
    }
  }

  /** A sum is zero exactly when every term is. */
  lemma SumZero<T>(s: seq<T>, f: T -> nat)
    ensures Sum(s, f) == 0 <==> forall i :: 0 <= i < |s| ==> f(s[i]) == 0
  {
    if Sum(s, f) > 0 {
      var i := SumWitness(s, f);
      assert f(s[i]) != 0;
    }
    forall i | 0 <= i < |s| && Sum(s, f) == 0 ensures f(s[i]) == 0 {
      SumAtLeast(s, i, f);
    }
  }

  /** If every term of one sum is at most `k` times the same term of another,
      so is the sum. */
  lemma {:induction false} SumScaled<T>(s: seq<T>, f: T -> nat, g: T -> nat, k: nat)
    requires forall i :: 0 <= i < |s| ==> f(s[i]) <= k * g(s[i])
    ensures Sum(s, f) <= k * Sum(s, g)
  {
    if |s| > 0 {
      var n := |s| - 1;
      forall i | 0 <= i < n ensures f(s[..n][i]) <= k * g(s[..n][i]) {
        assert s[..n][i] == s[i];
      }
      SumScaled(s[..n], f, g, k);
      assert f(s[n]) <= k * g(s[n]);
      calc {
        k * Sum(s, g);
        k * (Sum(s[..n], g) + g(s[n]));
        k * Sum(s[..n], g) + k * g(s[n]);
      }
    }
  }
}
