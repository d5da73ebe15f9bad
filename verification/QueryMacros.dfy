/** The macro expansion of a dashboard query: `getWidgetDetails` of `api/admin_info.go`. */
module QueryMacros {
  import opened Lists
  import opened Text
  import opened Wrappers

  const RATE_INTERVAL := "$__rate_interval"
  const QUERY := "$__query"

  /** The label values known for each label name. */
  type Labels = map<string, seq<string>>

  predicate IsLower(c: char) {
    'a' <= c <= 'z'
  }

  predicate AllLower(s: string) {
    forall i :: 0 <= i < |s| ==> IsLower(s[i])
  }

  /** The longest run of lower-case letters at the start. */
  function Word(s: string): (w: string)
    ensures w <= s && AllLower(w)
    ensures |w| < |s| ==> !IsLower(s[|w|])
  {
    if s == [] || !IsLower(s[0]) then [] else [s[0]] + Word(s[1..])
  }

  /** The submatches of `\$([a-z]+)`, from left to right. */
  function LabelMatches(s: string): seq<string> {
    if s == [] then []
    else if s[0] == '$' && Word(s[1..]) != [] then [Word(s[1..])] + LabelMatches(s[1..][|Word(s[1..])|..])
    else LabelMatches(s[1..])
  }

  /** The alternatives that stand in for a label. */
  function Choice(values: seq<string>): string {
    "(" + (Join(values, '|') + ")")
  }

  /** The Prometheus selector of the console. */
  function Selector(jobID: string, extraLabels: string): string {
    if TrimSpace(extraLabels) != "" then "job=\"" + jobID + "\"," + extraLabels else "job=\"" + jobID + "\""
  }

  function ReplaceLabel(q: string, labels: Labels, name: string): string {
    if name in labels then ReplaceAll(q, "$" + name, Choice(labels[name])) else q
  }

  function ReplaceLabels(q: string, labels: Labels, names: seq<string>): string {
    if names == [] then q
    else ReplaceLabel(ReplaceLabels(q, labels, names[..|names| - 1]), labels, names[|names| - 1])
  }

  /** The interval pass, the label passes and the selector pass. */
  function Expand(expr: string, labels: Labels, selector: string): string {
    var q := ReplaceAll(expr, RATE_INTERVAL, "240s");
    ReplaceAll(ReplaceLabels(q, labels, LabelMatches(q)), QUERY, selector)
  }

  /** The rewriting of one target's expression. */
  method ExpandQuery(expr: string, labels: Labels, selector: string) returns (queryExpr: string)
    ensures queryExpr == Expand(expr, labels, selector)
  {
    queryExpr := ReplaceAll(expr, RATE_INTERVAL, "240s");
    ghost var q := queryExpr;
    if '$' in queryExpr {
      var matches := LabelMatches(queryExpr);
      for i := 0 to |matches|
        invariant queryExpr == ReplaceLabels(q, labels, matches[..i])
      {
        assert matches[..i + 1][..i] == matches[..i];
        if matches[i] in labels {
          queryExpr := ReplaceAll(queryExpr, "$" + matches[i], Choice(labels[matches[i]]));
        }
      }
      assert matches[..|matches|] == matches;
    } else {
      NoMatches(queryExpr);
    }
    queryExpr := ReplaceAll(queryExpr, QUERY, selector);
  }

  lemma {:induction false} NoMatches(s: string)
    requires '$' !in s
    ensures LabelMatches(s) == []
  {
    if s != [] {
      NoMatches(s[1..]);
    }
  }

  // ---------- no macro is left ----------

  ghost predicate DollarFree(labels: Labels) {
    forall n, v :: n in labels && v in labels[n] ==> '$' !in v
  }

  lemma {:induction false} JoinFree(parts: seq<string>, sep: char, c: char)
    requires c != sep && forall p :: p in parts ==> c !in p
    ensures c !in Join(parts, sep)
  {
    if |parts| > 1 {
      JoinFree(parts[1..], sep, c);
    }
  }

  lemma ChoiceFree(values: seq<string>)
    requires forall v :: v in values ==> '$' !in v
    ensures '$' !in Choice(values) && Choice(values)[0] == '('
  {
    JoinFree(values, '|', '$');
  }

  lemma {:induction false} LabelsKeepFree(q: string, labels: Labels, names: seq<string>, p: string)
    requires DollarFree(labels) && p in {RATE_INTERVAL, QUERY} && !Contains(q, p)
    ensures !Contains(ReplaceLabels(q, labels, names), p)
  {
    if names != [] {
      var n := names[|names| - 1];
      LabelsKeepFree(q, labels, names[..|names| - 1], p);
      if n in labels {
        ChoiceFree(labels[n]);
        ReplaceCreatesNone(ReplaceLabels(q, labels, names[..|names| - 1]), "$" + n, Choice(labels[n]), p);
      }
    }
  }

  /** Whatever the template: when neither the label values nor the selector's parts hold
      a `$`, the expanded query has no interval macro and no query macro. */
  lemma NoMacroLeft(expr: string, labels: Labels, jobID: string, extraLabels: string)
    requires DollarFree(labels) && '$' !in jobID && '$' !in extraLabels
    ensures var r := Expand(expr, labels, Selector(jobID, extraLabels));
      !Contains(r, RATE_INTERVAL) && !Contains(r, QUERY)
  {
    var q := ReplaceAll(expr, RATE_INTERVAL, "240s");
    ReplaceCreatesNone(expr, RATE_INTERVAL, "240s", RATE_INTERVAL);
    var names, selector := LabelMatches(q), Selector(jobID, extraLabels);
    LabelsKeepFree(q, labels, names, RATE_INTERVAL);
    assert selector[0] == 'j' && '$' !in selector;
    ReplaceCreatesNone(ReplaceLabels(q, labels, names), QUERY, selector, RATE_INTERVAL);
    ReplaceCreatesNone(ReplaceLabels(q, labels, names), QUERY, selector, QUERY);
  }

  // ---------- the passes together are one substitution ----------

  /** The piece of text at the start of `s` that is substituted as a whole, if at all. */
  function Token(s: string): (t: string)
    requires s != []
    ensures t != [] && t <= s && '$' !in t[1..] && (t[0] != '$' ==> |t| == 1)
  {
    if QUERY <= s then QUERY
    else if s[0] == '$' then
      "$" + Word(s[1..])
    else [s[0]]
  }

  function Tokens(s: string): seq<string> {
    if s == [] then [] else [Token(s)] + Tokens(s[|Token(s)|..])
  }

  /** What stands in for a token, if anything does. */
  type Substitution = string -> Option<string>

  /** One pass from left to right. */
  function Render(ts: seq<string>, f: Substitution): string {
    if ts == [] then []
    else (if f(ts[0]).Some? then f(ts[0]).value else ts[0]) + Render(ts[1..], f)
  }

  function Concat(ts: seq<string>): string {
    if ts == [] then [] else ts[0] + Concat(ts[1..])
  }

  predicate IsMacro(k: string) {
    k == QUERY || (|k| > 1 && k[0] == '$' && AllLower(k[1..]))
  }

  lemma MacroPlainTail(k: string)
    requires IsMacro(k)
    ensures k != [] && k[0] == '$' && '$' !in k[1..] && '(' !in k
  {
    assert k == [k[0]] + k[1..];
  }

  /** A token list as a template has it: a `$` only starts tokens, and a macro that the
      text starts with lies within the first token. */
  ghost predicate Tokenized(ts: seq<string>) {
    ts == [] || (
      && ts[0] != [] && '$' !in ts[0][1..] && (ts[0][0] != '$' ==> |ts[0]| == 1)
      && (forall k :: IsMacro(k) && k <= Concat(ts) ==> k <= ts[0])
      && Tokenized(ts[1..]))
  }

  /** A lower-case text that `s` starts with is the start of its first word. */
  lemma {:induction false} LowerIsWord(s: string, n: string)
    requires n <= s && AllLower(n)
    ensures n <= Word(s)
  {
    if n != [] {
      LowerIsWord(s[1..], n[1..]);
      assert n == [n[0]] + n[1..];
    }
  }

  lemma MacroIsToken(s: string, k: string)
    requires IsMacro(k) && k <= s
    ensures k <= Token(s)
  {
    if k != QUERY {
      assert k[1..] <= s[1..];
      LowerIsWord(s[1..], k[1..]);
      assert k[1] == k[1..][0] && k[1] == s[1];
      assert k == "$" + k[1..];
    }
  }

  lemma {:induction false} TokensAreTokenized(s: string)
    ensures Tokenized(Tokens(s)) && Concat(Tokens(s)) == s
  {
    if s != [] {
      var t := Token(s);
      TokensAreTokenized(s[|t|..]);
      assert Tokens(s)[1..] == Tokens(s[|t|..]);
      assert s == t + s[|t|..];
      forall k | IsMacro(k) && k <= s ensures k <= t {
        MacroIsToken(s, k);
      }
    }
  }

  /** The inserted texts begin with a parenthesis and hold no `$`. */
  ghost predicate Inert(f: Substitution) {
    forall t :: f(t).Some? ==> f(t).value != [] && f(t).value[0] == '(' && '$' !in f(t).value
  }

  /** Inserted text cannot be taken for the rest of a macro. */
  lemma {:induction false} RenderReflects(ts: seq<string>, f: Substitution, q: string)
    requires Tokenized(ts) && Inert(f) && '(' !in q && '$' !in q && q <= Render(ts, f)
    ensures q <= Concat(ts)
  {
    if q != [] && ts != [] {
      var t, rest := ts[0], Render(ts[1..], f);
      assert q[0] in q;
      assert f(t).None? && |t| == 1;
      assert (t + rest)[1..] == rest && q[1..] <= rest;
      RenderReflects(ts[1..], f, q[1..]);
      assert q == [q[0]] + q[1..];
    }
  }

  lemma TokenStays(ts: seq<string>, f: Substitution, k: string)
    requires ts != [] && Tokenized(ts) && Inert(f) && IsMacro(k) && !(k <= ts[0])
    ensures !(k <= ts[0] + Render(ts[1..], f))
  {
    var t, rest := ts[0], Render(ts[1..], f);
    if k <= t + rest {
      MacroPlainTail(k);
      var q := k[|t|..];
      assert q <= rest && k == t + q;
      RenderReflects(ts[1..], f, q);
    }
  }

  /** Replacing one more macro everywhere is the same as substituting it at the start of
      each token that has not been substituted before. */
  lemma {:induction false} PassIsRender(ts: seq<string>, f: Substitution, k: string, v: string, g: Substitution)
    requires Tokenized(ts) && Inert(f) && IsMacro(k)
    requires forall t :: t in ts ==> g(t) == AlsoReplaced(f, k, v, t)
    ensures ReplaceAll(Render(ts, f), k, v) == Render(ts, g)
  {
    if ts != [] {
      var t, rest := ts[0], Render(ts[1..], f);
      assert t in ts && forall u :: u in ts[1..] ==> u in ts;
      PassIsRender(ts[1..], f, k, v, g);
      MacroPlainTail(k);
      if f(t).Some? {
        ReplaceSkips(f(t).value, rest, k, v);
      } else if k <= t {
        ReplaceFront(t, rest, k, v);
      } else {
        TokenStays(ts, f, k);
        ReplaceMiss(t, rest, k, v);
      }
    }
  }

  function AlsoReplaced(f: Substitution, k: string, v: string, t: string): Option<string> {
    if f(t).None? && k <= t then Some(v + t[|k|..]) else f(t)
  }

  /** A token that starts with a macro loses just that start. */
  lemma ReplaceFront(t: string, rest: string, k: string, v: string)
    requires k != [] && k <= t && k[0] !in t[1..]
    ensures ReplaceAll(t + rest, k, v) == v + t[|k|..] + ReplaceAll(rest, k, v)
  {
    var u := t[|k|..];
    assert u == t[1..][|k| - 1..];
    assert t + rest == k + (u + rest);
    ReplaceHit(u + rest, k, v);
    ReplaceSkips(u, rest, k, v);
    Regroup(v, u, ReplaceAll(rest, k, v));
  }

  lemma {:induction false} RenderNothing(ts: seq<string>, f: Substitution)
    requires forall t :: f(t) == None
    ensures Render(ts, f) == Concat(ts)
  {
    if ts != [] {
      RenderNothing(ts[1..], f);
    }
  }

  lemma {:induction false} RenderAgree(ts: seq<string>, f: Substitution, g: Substitution)
    requires forall t :: t in ts ==> f(t) == g(t)
    ensures Render(ts, f) == Render(ts, g)
  {
    if ts != [] {
      assert ts[0] in ts;
      RenderAgree(ts[1..], f, g);
    }
  }

  predicate IsWord(t: string) {
    |t| > 1 && t[0] == '$' && AllLower(t[1..])
  }

  /** The first of the names that is known and starts the word `w`. */
  function FirstKnown(names: seq<string>, known: set<string>, w: string): (r: Option<string>)
    ensures r.Some? ==> r.value in known && r.value <= w
  {
    if names == [] then None
    else
      var r, last := FirstKnown(names[..|names| - 1], known, w), names[|names| - 1];
      if r.Some? then r else if last in known && last <= w then Some(last) else None
  }

  /** What the loop does to a token: the first known name that starts its word is
      replaced, and the rest of the word stays. */
  function Rewritten(labels: Labels, names: seq<string>, query: Option<string>): Substitution {
    t => if t == QUERY then query
         else if IsWord(t) then RewrittenWord(labels, names, t[1..])
         else None
  }

  function RewrittenWord(labels: Labels, names: seq<string>, w: string): Option<string> {
    match FirstKnown(names, labels.Keys, w)
    case None => None
    case Some(n) => Some(Choice(labels[n]) + w[|n|..])
  }

  /** What is meant: the known labels, and perhaps the query macro. */
  function Known(labels: Labels, query: Option<string>): Substitution {
    t => if t == QUERY then query
         else if IsWord(t) && t[1..] in labels then Some(Choice(labels[t[1..]]))
         else None
  }

  lemma RewrittenIsInert(labels: Labels, names: seq<string>)
    requires DollarFree(labels)
    ensures Inert(Rewritten(labels, names, None))
  {
    forall t | IsWord(t) && RewrittenWord(labels, names, t[1..]).Some?
      ensures var v := RewrittenWord(labels, names, t[1..]).value; v != [] && v[0] == '(' && '$' !in v
    {
      var n := FirstKnown(names, labels.Keys, t[1..]).value;
      ChoiceFree(labels[n]);
      assert forall c :: c in t[1..][|n|..] ==> c in t[1..];
    }
  }

  lemma MatchesSkipQuery(s: string)
    requires QUERY <= s
    ensures LabelMatches(s) == LabelMatches(s[|QUERY|..])
  {
    var u := s[1..|QUERY|];
    assert s[1..] == u + s[|QUERY|..] && u == QUERY[1..];
    SkipsPlain(u, s[|QUERY|..]);
    assert s[1] == '_' && Word(s[1..]) == [];
  }

  /** The label pattern goes from token to token. */
  lemma MatchesStep(s: string)
    requires s != []
    ensures var t := Token(s);
      LabelMatches(s) == (if t != QUERY && |t| > 1 then [t[1..]] else []) + LabelMatches(s[|t|..])
    ensures Token(s) != QUERY && |Token(s)| > 1 ==> AllLower(Token(s)[1..])
  {
    if QUERY <= s {
      MatchesSkipQuery(s);
    } else if s[0] == '$' {
      var w := Word(s[1..]);
      assert ("$" + w)[1..] == w;
      assert s[1..][|w|..] == s[|w| + 1..];
    }
  }

  /** The words that the label pattern finds are lower-case. */
  lemma {:induction false} MatchIsLower(s: string, w: string)
    requires w in LabelMatches(s)
    ensures w != "" && AllLower(w)
  {
    MatchesStep(s);
    var t := Token(s);
    if !(t != QUERY && |t| > 1 && w == t[1..]) {
      MatchIsLower(s[|t|..], w);
    }
  }

  /** They include the word of every token. */
  lemma {:induction false} TokenIsMatch(s: string, t: string)
    requires t in Tokens(s) && t != QUERY && |t| > 1
    ensures t[0] == '$' && AllLower(t[1..]) && t[1..] in LabelMatches(s)
  {
    MatchesStep(s);
    if t != Token(s) {
      TokenIsMatch(s[|Token(s)|..], t);
    }
  }

  lemma {:induction false} SkipsPlain(u: string, s: string)
    requires '$' !in u
    ensures LabelMatches(u + s) == LabelMatches(s)
  {
    if u == [] {
      assert u + s == s;
    } else {
      assert (u + s)[1..] == u[1..] + s;
      SkipsPlain(u[1..], s);
    }
  }

  /** And each of them is the word of a token. */
  lemma {:induction false} MatchIsToken(s: string, w: string)
    requires w in LabelMatches(s)
    ensures "$" + w in Tokens(s)
  {
    MatchesStep(s);
    var t := Token(s);
    if t != QUERY && |t| > 1 && w == t[1..] {
      assert t[0] == '$' && t == "$" + w;
    } else {
      MatchIsToken(s[|t|..], w);
    }
  }

  lemma LabelMacro(n: string)
    requires n != "" && AllLower(n)
    ensures IsMacro("$" + n) && "$" + n != QUERY
  {
    var k := "$" + n;
    assert k[1..] == n && k[1] == n[0];
  }

  /** When a token starts with the macro of `n`. */
  lemma StartsWith(n: string, t: string)
    requires n != "" && AllLower(n) && (t == QUERY || IsWord(t) || |t| == 1)
    ensures "$" + n <= t <==> t != QUERY && IsWord(t) && n <= t[1..]
    ensures "$" + n <= t ==> t[|"$" + n|..] == t[1..][|n|..]
  {
    var k := "$" + n;
    assert k[1] == n[0] && k[1..] == n;
    assert t == QUERY ==> t[1] == '_';
    if IsWord(t) {
      assert t == "$" + t[1..];
      assert k <= t ==> k[1..] <= t[1..];
    }
  }

  lemma FirstOfMore(names: seq<string>, n: string, known: set<string>, w: string)
    ensures FirstKnown(names + [n], known, w) ==
      if FirstKnown(names, known, w).Some? then FirstKnown(names, known, w)
      else if n in known && n <= w then Some(n) else None
  {
    assert (names + [n])[..|names|] == names;
  }

  /** One turn of the label loop, seen at one token. */
  lemma WordStep(labels: Labels, names: seq<string>, n: string, t: string)
    requires n in labels && n != "" && AllLower(n)
    requires t == QUERY || IsWord(t) || |t| == 1
    ensures Rewritten(labels, names + [n], None)(t) ==
      AlsoReplaced(Rewritten(labels, names, None), "$" + n, Choice(labels[n]), t)
  {
    StartsWith(n, t);
    if IsWord(t) {
      FirstOfMore(names, n, labels.Keys, t[1..]);
    }
  }

  /** Tokens are single characters, words and the query macro. */
  lemma {:induction false} TokenKinds(s: string, t: string)
    requires t in Tokens(s)
    ensures t == QUERY || IsWord(t) || |t| == 1
  {
    if t == Token(s) {
      MatchesStep(s);
    } else {
      TokenKinds(s[|Token(s)|..], t);
    }
  }

  lemma SkipStep(labels: Labels, names: seq<string>, n: string, t: string)
    requires n !in labels
    ensures Rewritten(labels, names + [n], None)(t) == Rewritten(labels, names, None)(t)
  {
    if IsWord(t) {
      FirstOfMore(names, n, labels.Keys, t[1..]);
    }
  }

  lemma ReplaceLabelIsRender(q: string, ts: seq<string>, labels: Labels, names: seq<string>, n: string)
    requires DollarFree(labels) && ts == Tokens(q) && n != "" && AllLower(n)
    ensures ReplaceLabel(Render(ts, Rewritten(labels, names, None)), labels, n) ==
      Render(ts, Rewritten(labels, names + [n], None))
  {
    var f, g := Rewritten(labels, names, None), Rewritten(labels, names + [n], None);
    if n in labels {
      TokensAreTokenized(q);
      RewrittenIsInert(labels, names);
      LabelMacro(n);
      forall t | t in ts ensures g(t) == AlsoReplaced(f, "$" + n, Choice(labels[n]), t) {
        TokenKinds(q, t);
        WordStep(labels, names, n, t);
      }
      PassIsRender(ts, f, "$" + n, Choice(labels[n]), g);
    } else {
      forall t | t in ts ensures f(t) == g(t) {
        SkipStep(labels, names, n, t);
      }
      RenderAgree(ts, f, g);
    }
  }

  lemma {:induction false} LabelsAreRender(q: string, ts: seq<string>, labels: Labels, names: seq<string>)
    requires DollarFree(labels) && ts == Tokens(q)
    requires forall n :: n in names ==> n != "" && AllLower(n)
    ensures ReplaceLabels(q, labels, names) == Render(ts, Rewritten(labels, names, None))
  {
    if names == [] {
      TokensAreTokenized(q);
      RenderNothing(ts, Rewritten(labels, names, None));
    } else {
      var front, n := names[..|names| - 1], names[|names| - 1];
      assert names == front + [n];
      assert n in names && forall x :: x in front ==> x in names;
      LabelsAreRender(q, ts, labels, front);
      ReplaceLabelIsRender(q, ts, labels, front, n);
    }
  }

  /** The selector pass, seen at one token. */
  lemma SelectorStep(labels: Labels, names: seq<string>, selector: string, t: string)
    requires t == QUERY || IsWord(t) || |t| == 1
    ensures Rewritten(labels, names, Some(selector))(t) ==
      AlsoReplaced(Rewritten(labels, names, None), QUERY, selector, t)
  {
    assert QUERY[1] == '_' && QUERY[|QUERY|..] == "" && selector + "" == selector;
    if IsWord(t) {
      assert t[1] == t[1..][0];
    }
  }

  lemma SelectorIsRender(q: string, ts: seq<string>, labels: Labels, names: seq<string>, selector: string)
    requires DollarFree(labels) && ts == Tokens(q)
    ensures ReplaceAll(Render(ts, Rewritten(labels, names, None)), QUERY, selector) ==
      Render(ts, Rewritten(labels, names, Some(selector)))
  {
    var f, g := Rewritten(labels, names, None), Rewritten(labels, names, Some(selector));
    TokensAreTokenized(q);
    RewrittenIsInert(labels, names);
    forall t | t in ts ensures g(t) == AlsoReplaced(f, QUERY, selector, t) {
      TokenKinds(q, t);
      SelectorStep(labels, names, selector, t);
    }
    PassIsRender(ts, f, QUERY, selector, g);
  }

  /** What the label loop and the selector pass do, with all their intermediate texts, to
      any template that the interval pass left: each label word has the first known
      name replaced that starts it. The selector may be any text. */
  lemma ExpandIsRewriting(expr: string, q: string, labels: Labels, selector: string)
    requires DollarFree(labels) && q == ReplaceAll(expr, RATE_INTERVAL, "240s")
    ensures Expand(expr, labels, selector) == Render(Tokens(q), Rewritten(labels, LabelMatches(q), Some(selector)))
  {
    forall n | n in LabelMatches(q) ensures n != "" && AllLower(n) {
      MatchIsLower(q, n);
    }
    LabelsAreRender(q, Tokens(q), labels, LabelMatches(q));
    SelectorIsRender(q, Tokens(q), labels, LabelMatches(q), selector);
  }

  // ---------- when this is the substitution that is meant ----------

  /** If the known label at place `i` is the start of the other word `w`, then `w` is a
      known label too, and stands before it. */
  predicate ComesAfter(matches: seq<string>, known: set<string>, i: nat, w: string)
    requires i < |matches|
  {
    var n := matches[i];
    n in known && n <= w && n != w ==> w in known && w in matches[..i]
  }

  /** Among the label words of the template, a longer one that starts with a known one is
      known too and comes up for replacement first. */
  ghost predicate LongestFirst(matches: seq<string>, known: set<string>) {
    forall i: nat, w :: i < |matches| && w in matches ==> ComesAfter(matches, known, i, w)
  }

  /** The place of the first known name. */
  lemma {:induction false} FirstKnownAt(names: seq<string>, known: set<string>, w: string) returns (j: nat)
    ensures j <= |names| && forall l :: 0 <= l < j ==> !(names[l] in known && names[l] <= w)
    ensures FirstKnown(names, known, w) == if j < |names| then Some(names[j]) else None
    ensures j < |names| ==> names[j] in known && names[j] <= w
  {
    if names == [] {
      j := 0;
    } else {
      var n := |names| - 1;
      j := FirstKnownAt(names[..n], known, w);
      if j == n && !(names[n] in known && names[n] <= w) {
        j := n + 1;
      }
    }
  }

  /** The loop means a word as a whole. */
  predicate Whole(matches: seq<string>, known: set<string>, w: string) {
    FirstKnown(matches, known, w) == if w in known then Some(w) else None
  }

  lemma WholeIff(matches: seq<string>, known: set<string>)
    ensures LongestFirst(matches, known) <==> forall w :: w in matches ==> Whole(matches, known, w)
  {
    if LongestFirst(matches, known) {
      forall w | w in matches ensures Whole(matches, known, w) {
        var j := FirstKnownAt(matches, known, w);
        var i: nat :| i < |matches| && matches[i] == w;
        if j < |matches| {
          assert ComesAfter(matches, known, j, w);
        }
      }
    } else {
      var i: nat, w :| i < |matches| && w in matches && !ComesAfter(matches, known, i, w);
      var j := FirstKnownAt(matches, known, w);
      assert j <= i;
      assert j < i ==> matches[j] in matches[..i];
      assert !Whole(matches, known, w);
    }
  }

  /** Each `$` weighs minus `m`, every other character one. */
  function Weight(s: string, m: nat): int {
    if s == [] then 0 else Weight(s[1..], m) + if s[0] == '$' then 0 - m else 1
  }

  lemma {:induction false} WeightOfConcat(a: string, b: string, m: nat)
    ensures Weight(a + b, m) == Weight(a, m) + Weight(b, m)
  {
    if a == [] {
      assert a + b == b;
    } else {
      assert (a + b)[1..] == a[1..] + b;
      WeightOfConcat(a[1..], b, m);
    }
  }

  lemma {:induction false} WeightOfPlain(s: string, m: nat)
    requires '$' !in s
    ensures Weight(s, m) == |s|
  {
    if s != [] {
      WeightOfPlain(s[1..], m);
    }
  }

  function Piece(f: Substitution, t: string): string {
    if f(t).Some? then f(t).value else t
  }

  /** A rendering with heavier pieces is another text. */
  lemma {:induction false} RenderHeavier(ts: seq<string>, f: Substitution, g: Substitution, m: nat, bad: string)
    requires forall t :: t in ts ==> Weight(Piece(f, t), m) >= Weight(Piece(g, t), m)
    requires Weight(Piece(f, bad), m) > Weight(Piece(g, bad), m)
    ensures Weight(Render(ts, f), m) >= Weight(Render(ts, g), m)
    ensures bad in ts ==> Weight(Render(ts, f), m) > Weight(Render(ts, g), m)
  {
    if ts != [] {
      var t := ts[0];
      assert t in ts;
      RenderHeavier(ts[1..], f, g, m, bad);
      WeightOfConcat(Piece(f, t), Render(ts[1..], f), m);
      WeightOfConcat(Piece(g, t), Render(ts[1..], g), m);
    }
  }

  /** The labels without any value. */
  function Empty(known: set<string>): Labels {
    map n | n in known :: []
  }

  /** Without values a rewritten word is never lighter than what is meant, and heavier
      when another name was taken for it. */
  lemma WordWeighs(matches: seq<string>, known: set<string>, t: string, m: nat)
    requires IsWord(t) && |t| <= m
    requires t[1..] in matches
    ensures var f, g := Rewritten(Empty(known), matches, Some("")), Known(Empty(known), Some(""));
      && Weight(Piece(f, t), m) >= Weight(Piece(g, t), m)
      && (!Whole(matches, known, t[1..]) ==> Weight(Piece(f, t), m) > Weight(Piece(g, t), m))
  {
    var w, labels := t[1..], Empty(known);
    assert labels.Keys == known;
    assert t != QUERY by {
      assert QUERY[1..][0] == '_';
    }
    assert t == "$" + w && '$' !in w;
    WeightOfPlain(w, m);
    var j := FirstKnownAt(matches, known, w);
    if j < |matches| {
      var n := matches[j];
      var rest := w[|n|..];
      assert forall c :: c in rest ==> c in w;
      assert Choice(labels[n]) == "()" && Choice([]) == "()";
      WeightOfPlain("()" + rest, m);
      WeightOfPlain("()", m);
      assert |n| == |w| ==> n == w;
    }
  }

  lemma OtherWeighs(matches: seq<string>, known: set<string>, t: string)
    requires t == QUERY || |t| == 1
    ensures Piece(Rewritten(Empty(known), matches, Some("")), t) == Piece(Known(Empty(known), Some("")), t)
  {
  }

  lemma {:induction false} TokenFits(s: string, t: string)
    requires t in Tokens(s)
    ensures |t| <= |s|
  {
    if t != Token(s) {
      TokenFits(s[|Token(s)|..], t);
    }
  }

  /** If a word is not meant as a whole, then without values the loop gives another text. */
  lemma NotWholeDiffers(q: string, known: set<string>, w: string)
    requires w in LabelMatches(q) && !Whole(LabelMatches(q), known, w)
    ensures Render(Tokens(q), Rewritten(Empty(known), LabelMatches(q), Some(""))) !=
      Render(Tokens(q), Known(Empty(known), Some("")))
  {
    var ts, matches := Tokens(q), LabelMatches(q);
    var f, g := Rewritten(Empty(known), matches, Some("")), Known(Empty(known), Some(""));
    forall t | t in ts ensures Weight(Piece(f, t), |q|) >= Weight(Piece(g, t), |q|) {
      TokenKinds(q, t);
      TokenFits(q, t);
      if t == QUERY || |t| == 1 {
        OtherWeighs(matches, known, t);
      } else {
        TokenIsMatch(q, t);
        WordWeighs(matches, known, t, |q|);
      }
    }
    var bad := "$" + w;
    MatchIsToken(q, w);
    MatchIsLower(q, w);
    TokenFits(q, bad);
    assert bad[1..] == w;
    WordWeighs(matches, known, bad, |q|);
    RenderHeavier(ts, f, g, |q|, bad);
  }

  lemma WholeToken(matches: seq<string>, labels: Labels, query: Option<string>, t: string)
    requires IsWord(t) && t != QUERY ==> Whole(matches, labels.Keys, t[1..])
    ensures Rewritten(labels, matches, query)(t) == Known(labels, query)(t)
  {
    if IsWord(t) && t != QUERY && t[1..] in labels {
      var c := Choice(labels[t[1..]]);
      assert c + t[1..][|t[1..]|..] == c;
    }
  }

  lemma WholeIsKnown(q: string, labels: Labels, query: Option<string>)
    requires LongestFirst(LabelMatches(q), labels.Keys)
    ensures Render(Tokens(q), Rewritten(labels, LabelMatches(q), query)) == Render(Tokens(q), Known(labels, query))
  {
    var f, g := Rewritten(labels, LabelMatches(q), query), Known(labels, query);
    WholeIff(LabelMatches(q), labels.Keys);
    forall t | t in Tokens(q) ensures f(t) == g(t) {
      TokenKinds(q, t);
      if IsWord(t) && t != QUERY {
        TokenIsMatch(q, t);
      }
      WholeToken(LabelMatches(q), labels, query, t);
    }
    RenderAgree(Tokens(q), f, g);
  }

  /** The query is as meant. */
  predicate AsMeant(expr: string, q: string, labels: Labels, selector: string) {
    Expand(expr, labels, selector) == Render(Tokens(q), Known(labels, Some(selector)))
  }

  /** All the passes amount to one simultaneous substitution of the known labels and the
      selector, whatever the label values and the selector are, exactly when among the
      template's label words longer ones come first. */
  lemma SubstitutionIff(expr: string, q: string, known: set<string>)
    requires q == ReplaceAll(expr, RATE_INTERVAL, "240s")
    ensures LongestFirst(LabelMatches(q), known) <==>
      forall labels: Labels, selector :: labels.Keys == known && DollarFree(labels) ==> AsMeant(expr, q, labels, selector)
  {
    if LongestFirst(LabelMatches(q), known) {
      forall labels: Labels, selector | labels.Keys == known && DollarFree(labels)
        ensures AsMeant(expr, q, labels, selector)
      {
        ExpandIsRewriting(expr, q, labels, selector);
        WholeIsKnown(q, labels, Some(selector));
      }
    } else {
      WholeIff(LabelMatches(q), known);
      var w :| w in LabelMatches(q) && !Whole(LabelMatches(q), known, w);
      var labels := Empty(known);
      assert labels.Keys == known && DollarFree(labels);
      ExpandIsRewriting(expr, q, labels, "");
      NotWholeDiffers(q, known, w);
      assert !AsMeant(expr, q, labels, "");
    }
  }

  /** A template for which they do not: a shorter name that comes first is taken for the
      front of a longer word. */
  lemma ShorterNameFirst()
    ensures var expr := "$a$ab"; exists labels: Labels, selector ::
      labels.Keys == {"a"} && DollarFree(labels) && !AsMeant(expr, expr, labels, selector)
  {
    var q, matches := "$a$ab", ["a", "ab"];
    ExampleMatches(q);
    ReplaceLonger(q, RATE_INTERVAL, "240s");
    assert !ComesAfter(matches, {"a"}, 0, "ab") && matches[1] == "ab";
    SubstitutionIff(q, q, {"a"});
  }

  lemma ExampleMatches(q: string)
    requires q == "$a$ab"
    ensures LabelMatches(q) == ["a", "ab"]
  {
    var ab := "$ab";
    assert q[1..] == "a$ab" && "a$ab"[1..] == ab && ab[1..] == "ab" && "ab"[1..] == "b" && "ab"[2..] == "";
    assert Word("b") == "b" && Word("ab") == "ab" && Word("a$ab") == "a";
    assert LabelMatches(ab) == ["ab"] + LabelMatches("");
    assert LabelMatches(q) == ["a"] + LabelMatches(ab);
  }

  lemma {:induction false} ReplaceLonger(s: string, pat: string, sub: string)
    requires |s| < |pat|
    ensures ReplaceAll(s, pat, sub) == s
  {
    if s != [] {
      ReplaceLonger(s[1..], pat, sub);
    }
  }
}
