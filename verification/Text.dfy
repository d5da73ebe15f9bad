/** The string operations of the Go standard library that the console relies on,
    over sequences of characters. */
module Text {

  /** A character that `unicode.IsSpace` accepts. */
  predicate IsSpace(c: char) {
    || '\t' <= c <= '\r' || c == ' ' || c == '\U{85}' || c == '\U{A0}' || c == '\U{1680}'
    || '\U{2000}' <= c <= '\U{200A}' || c == '\U{2028}' || c == '\U{2029}'
    || c == '\U{202F}' || c == '\U{205F}' || c == '\U{3000}'
  }

  function TrimLeft(s: string): string {
    if s == [] || !IsSpace(s[0]) then s else TrimLeft(s[1..])
  }

  function TrimRight(s: string): string {
    if s == [] || !IsSpace(s[|s| - 1]) then s else TrimRight(s[..|s| - 1])
  }

  /** `strings.TrimSpace` */
  function TrimSpace(s: string): string {
    TrimRight(TrimLeft(s))
  }

  predicate NoOuterSpace(s: string) {
    s == [] || (!IsSpace(s[0]) && !IsSpace(s[|s| - 1]))
  }

  lemma {:induction false} TrimLeftStart(s: string)
    ensures |TrimLeft(s)| <= |s| && TrimLeft(s) == s[|s| - |TrimLeft(s)|..]
    ensures TrimLeft(s) == [] || !IsSpace(TrimLeft(s)[0])
    ensures forall i :: 0 <= i < |s| - |TrimLeft(s)| ==> IsSpace(s[i])
  {
    if s != [] && IsSpace(s[0]) {
      TrimLeftStart(s[1..]);
      assert s == [s[0]] + s[1..];
    }
  }

  lemma {:induction false} TrimRightEnd(s: string)
    ensures TrimRight(s) <= s
    ensures TrimRight(s) == [] || !IsSpace(TrimRight(s)[|TrimRight(s)| - 1])
    ensures forall i :: |TrimRight(s)| <= i < |s| ==> IsSpace(s[i])
  {
    if s != [] && IsSpace(s[|s| - 1]) {
      TrimRightEnd(s[..|s| - 1]);
    }
  }

  lemma TrimSpaceTrims(s: string)
    ensures NoOuterSpace(TrimSpace(s))
    ensures forall c :: c in TrimSpace(s) ==> c in s
  {
    TrimLeftStart(s);
    TrimRightEnd(TrimLeft(s));
  }

  /** Text without white space at either end is not changed by trimming. */
  lemma TrimSpaceFixed(s: string)
    requires NoOuterSpace(s)
    ensures TrimSpace(s) == s
  {
  }

  /** Trimming drops white space only. */
  lemma TrimSpaceKeeps(s: string, c: char)
    requires c in s && !IsSpace(c)
    ensures c in TrimSpace(s)
  {
    var l := TrimLeft(s);
    TrimLeftStart(s);
    TrimRightEnd(l);
    var i :| 0 <= i < |s| && s[i] == c;
    assert l[i - (|s| - |l|)] == c;
  }

  /** `strings.Split(s, sep)` for a one-character separator; never empty. */
  function Split(s: string, sep: char): (parts: seq<string>)
    ensures |parts| >= 1
  {
    if s == [] then [[]]
    else
      var rest := Split(s[1..], sep);
      if s[0] == sep then [[]] + rest else [[s[0]] + rest[0]] + rest[1..]
  }

  /** `strings.Join(parts, sep)` */
  function Join(parts: seq<string>, sep: char): string {
    if parts == [] then []
    else if |parts| == 1 then parts[0]
    else parts[0] + [sep] + Join(parts[1..], sep)
  }

  lemma {:induction false} SplitPartsAreFree(s: string, sep: char)
    ensures forall p :: p in Split(s, sep) ==> sep !in p
  {
    if s != [] {
      SplitPartsAreFree(s[1..], sep);
      var rest := Split(s[1..], sep);
      assert rest[0] in rest;
    }
  }

  lemma JoinAfterEmpty(parts: seq<string>, sep: char)
    requires parts != []
    ensures Join([[]] + parts, sep) == [sep] + Join(parts, sep)
  {
    assert ([[]] + parts)[1..] == parts;
  }

  lemma JoinLonger(c: char, parts: seq<string>, sep: char)
    requires parts != []
    ensures Join([[c] + parts[0]] + parts[1..], sep) == [c] + Join(parts, sep)
  {
    var longer := [[c] + parts[0]] + parts[1..];
    assert longer[1..] == parts[1..];
    if |parts| > 1 {
      var tail := Join(parts[1..], sep);
      assert [c] + parts[0] + [sep] + tail == [c] + (parts[0] + [sep] + tail);
    }
  }

  /** Joining what splitting produced gives the text back. */
  lemma {:induction false} JoinSplit(s: string, sep: char)
    ensures Join(Split(s, sep), sep) == s
  {
    if s != [] {
      var c, rest := s[0], Split(s[1..], sep);
      JoinSplit(s[1..], sep);
      JoinAfterEmpty(rest, sep);
      JoinLonger(c, rest, sep);
    }
  }

  lemma {:induction false} SplitPrefix(p: string, sep: char, s: string)
    requires sep !in p
    ensures Split(p + s, sep) == [p + Split(s, sep)[0]] + Split(s, sep)[1..]
  {
    if p == [] {
      assert p + s == s;
      assert p + Split(s, sep)[0] == Split(s, sep)[0];
    } else {
      assert (p + s)[0] == p[0] && (p + s)[1..] == p[1..] + s;
      SplitPrefix(p[1..], sep, s);
      var rest := Split(p[1..] + s, sep);
      assert [p[0]] + rest[0] == p + Split(s, sep)[0];
    }
  }

  /** Splitting what joining produced gives the parts back, when there is at least
      one part and none of them holds the separator. */
  lemma {:induction false} SplitJoin(parts: seq<string>, sep: char)
    requires parts != [] && forall p :: p in parts ==> sep !in p
    ensures Split(Join(parts, sep), sep) == parts
  {
    if |parts| == 1 {
      SplitPrefix(parts[0], sep, []);
      assert parts[0] + [] == parts[0];
    } else {
      var tail := [sep] + Join(parts[1..], sep);
      SplitJoin(parts[1..], sep);
      assert tail[1..] == Join(parts[1..], sep);
      assert tail != [] && Split(tail, sep) == [[]] + parts[1..];
      assert parts[0] + [] == parts[0];
      SplitPrefix(parts[0], sep, tail);
      assert Join(parts, sep) == parts[0] + tail;
    }
  }

  lemma {:induction false} JoinConcat(a: seq<string>, b: seq<string>, sep: char)
    requires a != [] && b != []
    ensures Join(a + b, sep) == Join(a, sep) + ([sep] + Join(b, sep))
  {
    assert (a + b)[1..] == a[1..] + b;
    if |a| > 1 {
      JoinConcat(a[1..], b, sep);
      var x, y := Join(a[1..], sep), [sep] + Join(b, sep);
      assert a[0] + [sep] + (x + y) == (a[0] + [sep] + x) + y;
    } else {
      assert a[1..] + b == b;
      assert a[0] + [sep] + Join(b, sep) == a[0] + ([sep] + Join(b, sep));
    }
  }

  /** Splitting goes piece by piece. */
  lemma SplitConcat(a: string, sep: char, b: string)
    ensures Split(a + ([sep] + b), sep) == Split(a, sep) + Split(b, sep)
  {
    SplitPartsAreFree(a, sep);
    SplitPartsAreFree(b, sep);
    JoinConcat(Split(a, sep), Split(b, sep), sep);
    JoinSplit(a, sep);
    JoinSplit(b, sep);
    SplitJoin(Split(a, sep) + Split(b, sep), sep);
  }

  /** `strings.Contains(s, p)` */
  ghost predicate Contains(s: string, p: string) {
    exists i :: OccursAt(s, p, i)
  }

  ghost predicate OccursAt(s: string, p: string, i: int) {
    0 <= i <= |s| && p <= s[i..]
  }

  /** `strings.ReplaceAll(s, pat, sub)` for a non-empty `pat`: leftmost matches, not
      overlapping. */
  function ReplaceAll(s: string, pat: string, sub: string): string
    requires pat != []
  {
    if s == [] then []
    else if pat <= s then sub + ReplaceAll(s[|pat|..], pat, sub)
    else [s[0]] + ReplaceAll(s[1..], pat, sub)
  }

  lemma ContainsTail(s: string, p: string, n: nat)
    requires n <= |s| && Contains(s[n..], p)
    ensures Contains(s, p)
  {
    var i :| OccursAt(s[n..], p, i);
    assert s[n..][i..] == s[n + i..];
    assert OccursAt(s, p, n + i);
  }

  /** Replaced text is invisible to a prefix that does not hold its first character. */
  lemma {:induction false} PrefixSurvives(s: string, pat: string, sub: string, q: string)
    requires pat != [] && sub != [] && sub[0] !in q
    requires q <= ReplaceAll(s, pat, sub)
    ensures q <= s
  {
    if q != [] && s != [] {
      var r := ReplaceAll(s, pat, sub);
      assert r[0] == q[0] && q[0] in q;
      if !(pat <= s) {
        assert r[1..] == ReplaceAll(s[1..], pat, sub);
        assert q[1..] <= r[1..];
        PrefixSurvives(s[1..], pat, sub, q[1..]);
        assert s == [s[0]] + s[1..] && q == [q[0]] + q[1..];
      }
    }
  }

  /** The text put in by a replacement can neither hold nor complete a macro `p`: one
      that starts with a `$` the new text does not have, and continues with
      characters other than the first of the new text. So a pass that replaces `p`
      leaves none, and a pass that replaces something else creates none. */
  lemma {:induction false} ReplaceCreatesNone(s: string, pat: string, sub: string, p: string)
    requires pat != [] && sub != [] && '$' !in sub
    requires p != [] && p[0] == '$' && sub[0] !in p
    requires p == pat || !Contains(s, p)
    ensures !Contains(ReplaceAll(s, pat, sub), p)
  {
    if s != [] {
      var r := ReplaceAll(s, pat, sub);
      var k := if pat <= s then |pat| else 1;
      if p != pat && Contains(s[k..], p) {
        ContainsTail(s, p, k);
      }
      ReplaceCreatesNone(s[k..], pat, sub, p);
      var n := if pat <= s then |sub| else 1;
      assert r[n..] == ReplaceAll(s[k..], pat, sub);
      assert r[0..] == r && s[0..] == s;
      assert p <= s ==> OccursAt(s, p, 0);
      forall i ensures !OccursAt(r, p, i) {
        if n <= i <= |r| {
          assert r[i..] == r[n..][i - n..];
          assert OccursAt(r, p, i) == OccursAt(r[n..], p, i - n);
        } else if 0 <= i < n && p <= r[i..] {
          assert r[i] == r[i..][0] == '$';
          if !(pat <= s) {
            PrefixSurvives(s, pat, sub, p);
          }
        }
      }
    } else {
      assert forall i :: !OccursAt([], p, i);
    }
  }

  /** A pass changes nothing in front of the first character it looks for. */
  lemma {:induction false} ReplaceSkips(u: string, t: string, pat: string, sub: string)
    requires pat != [] && pat[0] !in u
    ensures ReplaceAll(u + t, pat, sub) == u + ReplaceAll(t, pat, sub)
  {
    if u == [] {
      assert u + t == t;
    } else {
      assert (u + t)[0] == u[0] && (u + t)[1..] == u[1..] + t;
      ReplaceSkips(u[1..], t, pat, sub);
    }
  }

  lemma ReplaceHit(t: string, pat: string, sub: string)
    requires pat != []
    ensures ReplaceAll(pat + t, pat, sub) == sub + ReplaceAll(t, pat, sub)
  {
    assert (pat + t)[|pat|..] == t;
  }

  /** A piece that cannot be where a match starts is passed over. */
  lemma ReplaceMiss(u: string, t: string, pat: string, sub: string)
    requires pat != [] && u != [] && pat[0] !in u[1..] && !(pat <= u + t)
    ensures ReplaceAll(u + t, pat, sub) == u + ReplaceAll(t, pat, sub)
  {
    assert (u + t)[0] == u[0] && (u + t)[1..] == u[1..] + t;
    ReplaceSkips(u[1..], t, pat, sub);
    var r := ReplaceAll(t, pat, sub);
    assert [u[0]] + (u[1..] + r) == u + r;
  }
}
