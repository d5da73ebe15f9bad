/** The slice helpers of `api/utils.go`. */
module Lists {

  /** Concatenation is associative. */
  lemma Regroup<T>(a: seq<T>, b: seq<T>, c: seq<T>)
    ensures a + b + c == a + (b + c)
  {
  }

  ghost predicate NoDuplicates(s: seq<string>) {
    forall i, j :: 0 <= i < j < |s| ==> s[i] != s[j]
  }

  /** The elements of `s`, each at its first occurrence. */
  function Unique(s: seq<string>): (r: seq<string>)
    ensures forall x :: x in r <==> x in s
    ensures NoDuplicates(r)
  {
    if s == [] then []
    else
      var front, last := s[..|s| - 1], s[|s| - 1];
      if last in front then Unique(front) else Unique(front) + [last]
  }

  /** The elements of `a` that are not in `b`, in order. */
  function Difference(a: seq<string>, b: seq<string>): (r: seq<string>)
    ensures forall x :: x in r <==> x in a && x !in b
  {
    if a == [] then []
    else
      var front, last := a[..|a| - 1], a[|a| - 1];
      if last in b then Difference(front, b) else Difference(front, b) + [last]
  }

  /** The index at which `x` first occurs. */
  function FirstIndex(s: seq<string>, x: string): (i: nat)
    requires x in s
    ensures i < |s| && s[i] == x
    ensures forall k :: 0 <= k < i ==> s[k] != x
  {
    if s[0] == x then 0
    else
      assert s == [s[0]] + s[1..];
      FirstIndex(s[1..], x) + 1
  }

  method UniqueKeys(a: seq<string>) returns (list: seq<string>)
    ensures list == Unique(a)
  {
    var keys: set<string> := {};
    list := [];
    for n := 0 to |a|
      invariant forall k :: k in keys <==> k in a[..n]
      invariant list == Unique(a[..n])
    {
      assert a[..n + 1][..n] == a[..n];
      if a[n] !in keys {
        keys := keys + {a[n]};
        list := list + [a[n]];
      }
    }
    assert a[..|a|] == a;
  }

  method DifferenceArrays(a: seq<string>, b: seq<string>) returns (diff: seq<string>)
    ensures diff == Difference(a, b)
  {
    var mb: set<string> := {};
    for n := 0 to |b|
      invariant forall k :: k in mb <==> k in b[..n]
    {
      mb := mb + {b[n]};
    }
    diff := [];
    for n := 0 to |a|
      invariant diff == Difference(a[..n], b)
    {
      assert a[..n + 1][..n] == a[..n];
      if a[n] !in mb {
        diff := diff + [a[n]];
      }
    }
    assert a[..|a|] == a;
  }

  method IsElementInArray(a: seq<string>, b: string) returns (found: bool)
    ensures found == (b in a)
  {
    for n := 0 to |a|
      invariant b !in a[..n]
    {
      if a[n] == b {
        return true;
      }
    }
    return false;
  }

  /** Deduplication keeps the order of first occurrences. */
  lemma {:induction false} UniqueKeepsOrder(s: seq<string>, i: nat, j: nat)
    requires i < j < |Unique(s)|
    ensures FirstIndex(s, Unique(s)[i]) < FirstIndex(s, Unique(s)[j])
  {
    var front, last := s[..|s| - 1], s[|s| - 1];
    var r := Unique(front);
    forall x | x in front ensures FirstIndex(s, x) == FirstIndex(front, x) {
      FirstIndexOfPrefix(front, x, s);
    }
    if j < |r| {
      assert r[i] in front && r[j] in front;
      UniqueKeepsOrder(front, i, j);
    } else {
      assert r[i] in front;
      assert forall k :: 0 <= k < |front| ==> front[k] in front;
    }
  }

  lemma {:induction false} FirstIndexOfPrefix(p: seq<string>, x: string, s: seq<string>)
    requires x in p && p <= s
    ensures FirstIndex(s, x) == FirstIndex(p, x)
  {
    var i, j := FirstIndex(p, x), FirstIndex(s, x);
  }

  lemma {:induction false} UniqueFixed(s: seq<string>)
    requires NoDuplicates(s)
    ensures Unique(s) == s
  {
    if s != [] {
      UniqueFixed(s[..|s| - 1]);
      assert s == s[..|s| - 1] + [s[|s| - 1]];
    }
  }

  /** Appending elements that are already there changes nothing. */
  lemma {:induction false} UniqueAbsorbs(a: seq<string>, b: seq<string>)
    requires forall x :: x in b ==> x in a
    ensures Unique(a + b) == Unique(a)
  {
    if b == [] {
      assert a + b == a;
    } else {
      var front := b[..|b| - 1];
      assert (a + b)[..|a + b| - 1] == a + front;
      assert (a + b)[|a + b| - 1] == b[|b| - 1] && b[|b| - 1] in b;
      UniqueAbsorbs(a, front);
    }
  }

  /** Deduplication starts with the deduplicated front. */
  lemma {:induction false} UniqueOfFront(a: seq<string>, b: seq<string>)
    ensures Unique(a) <= Unique(a + b)
  {
    if b == [] {
      assert a + b == a;
    } else {
      assert (a + b)[..|a + b| - 1] == a + b[..|b| - 1];
      UniqueOfFront(a, b[..|b| - 1]);
    }
  }
}
