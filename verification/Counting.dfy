/** Sums over the parts of a step system: steps left, goroutines alive. */
module Counting {

  function Total<T>(s: seq<T>, w: T -> nat): nat {
    if s == [] then 0 else Total(s[..|s| - 1], w) + w(s[|s| - 1])
  }

  lemma {:induction false} TotalOfUpdate<T>(s: seq<T>, w: T -> nat, i: nat, x: T)
    requires i < |s|
    ensures Total(s[i := x], w) == Total(s, w) - w(s[i]) + w(x)
  {
    var n := |s| - 1;
    if i == n {
      assert s[i := x][..n] == s[..n];
    } else {
      assert s[i := x][..n] == s[..n][i := x];
      TotalOfUpdate(s[..n], w, i, x);
    }
  }

  lemma TotalOfAppend<T>(s: seq<T>, w: T -> nat, x: T)
    ensures Total(s + [x], w) == Total(s, w) + w(x)
  {
    assert (s + [x])[..|s|] == s;
  }

  /** An element that weighs something, if the whole does. */
  lemma {:induction false} SomeWeight<T>(s: seq<T>, w: T -> nat)
    ensures Total(s, w) == 0 <==> forall i :: 0 <= i < |s| ==> w(s[i]) == 0
  {
    if s != [] {
      var n := |s| - 1;
      SomeWeight(s[..n], w);
      assert forall i :: 0 <= i < n ==> s[..n][i] == s[i];
    }
  }

  lemma {:induction false} TotalOfCopies<T>(n: nat, x: T, w: T -> nat)
    ensures Total(seq(n, _ => x), w) == n * w(x)
  {
    if n > 0 {
      assert seq(n, _ => x)[..n - 1] == seq(n - 1, _ => x);
      TotalOfCopies(n - 1, x, w);
    }
  }
}
