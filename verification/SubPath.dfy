/** The sub-path normaliser `parseSubPath` of `api/configure_console.go`, with Unix path
    separators. */
module SubPath {
  import opened Text

  // ---------- path.Clean ----------

  /** One component against the stack of those kept so far. */
  function Push(stack: seq<string>, part: string, rooted: bool): seq<string> {
    if part == "" || part == "." then stack
    else if part == ".." then
      if stack != [] && stack[|stack| - 1] != ".." then stack[..|stack| - 1]
      else if rooted then stack
      else stack + [part]
    else stack + [part]
  }

  function Resolve(parts: seq<string>, rooted: bool): seq<string> {
    if parts == [] then []
    else Push(Resolve(parts[..|parts| - 1], rooted), parts[|parts| - 1], rooted)
  }

  /** The path begins with a slash. */
  predicate IsRooted(p: string) {
    p != [] && p[0] == '/'
  }

  /** The components that `path.Clean` keeps. */
  function Kept(p: string): seq<string> {
    Resolve(Split(p, '/'), IsRooted(p))
  }

  /** `path.Clean` */
  function Clean(p: string): string {
    var body := Join(Kept(p), '/');
    if IsRooted(p) then "/" + body else if body == "" then "." else body
  }

  // ---------- parseSubPath ----------

  predicate HasSlashSuffix(p: string) {
    p != [] && p[|p| - 1] == '/'
  }

  function ParseSubPath(v: string): string {
    var v := TrimSpace(v);
    if v == "" then "/" else AddSlashes(Clean(v))
  }

  function AddSlashes(subPath: string): string {
    var subPath := if IsRooted(subPath) then subPath else "/" + subPath;
    if HasSlashSuffix(subPath) then subPath else subPath + "/"
  }

  // ---------- components ----------

  predicate Plain(c: string) {
    c != "" && '/' !in c
  }

  ghost predicate AllPlain(cs: seq<string>) {
    forall c :: c in cs ==> Plain(c)
  }

  /** No component is empty, `.` or `..`, and none holds a slash. */
  ghost predicate Canonical(cs: seq<string>) {
    AllPlain(cs) && "." !in cs && ".." !in cs
  }

  /** The components between a leading and a trailing slash; `/` when there are none. */
  function Slashed(cs: seq<string>): string {
    Join([""] + cs + [""], '/')
  }

  lemma {:induction false} ResolvePlain(parts: seq<string>, rooted: bool)
    requires forall p :: p in parts ==> '/' !in p
    ensures AllPlain(Resolve(parts, rooted)) && "." !in Resolve(parts, rooted)
  {
    if parts != [] {
      var front, last := parts[..|parts| - 1], parts[|parts| - 1];
      assert parts == front + [last];
      ResolvePlain(front, rooted);
      var stack := Resolve(front, rooted);
      assert forall c :: c in Push(stack, last, rooted) ==> c in stack || (c == last && last != "" && last != ".");
    }
  }

  /** Below the root nothing is left of `..`. */
  lemma {:induction false} ResolveRooted(parts: seq<string>)
    ensures ".." !in Resolve(parts, true)
  {
    if parts != [] {
      var stack := Resolve(parts[..|parts| - 1], true);
      ResolveRooted(parts[..|parts| - 1]);
      assert forall c :: c in Push(stack, parts[|parts| - 1], true) ==> c in stack || (c == parts[|parts| - 1] && c != "..");
    }
  }

  /** Elsewhere `..` is only left at the front. */
  lemma {:induction false} ResolveRelative(parts: seq<string>)
    ensures var r := Resolve(parts, false); ".." in r ==> r[0] == ".."
    ensures var r := Resolve(parts, false); forall i, j :: 0 <= i < j < |r| && r[j] == ".." ==> r[i] == ".."
  {
    if parts != [] {
      ResolveRelative(parts[..|parts| - 1]);
      var stack, part := Resolve(parts[..|parts| - 1], false), parts[|parts| - 1];
      var r := Push(stack, part, false);
      assert forall i, j :: 0 <= i < j < |r| && r[j] == ".." ==> r[i] == "..";
      if i :| 0 <= i < |r| && r[i] == ".." {
        assert i > 0 ==> r[0] == "..";
      }
    }
  }

  lemma {:induction false} ResolveCanonical(cs: seq<string>)
    requires Canonical(cs)
    ensures Resolve(cs, true) == cs
  {
    if cs != [] {
      var front, last := cs[..|cs| - 1], cs[|cs| - 1];
      assert cs == front + [last];
      assert last in cs && forall c :: c in front ==> c in cs;
      ResolveCanonical(front);
    }
  }

  lemma {:induction false} ResolveSkipsEmpty(cs: seq<string>, rooted: bool)
    ensures Resolve([""] + cs, rooted) == Resolve(cs, rooted)
  {
    if cs == [] {
      assert [""] + cs == [""] && [""][..0] == [];
    } else {
      assert ([""] + cs)[..|cs|] == [""] + cs[..|cs| - 1];
      ResolveSkipsEmpty(cs[..|cs| - 1], rooted);
    }
  }

  lemma {:induction false} JoinPlain(cs: seq<string>)
    requires AllPlain(cs) && cs != []
    ensures var s := Join(cs, '/'); s != "" && s[0] != '/' && s[|s| - 1] != '/'
  {
    assert cs[0] in cs;
    if |cs| > 1 {
      assert forall c :: c in cs[1..] ==> c in cs;
      JoinPlain(cs[1..]);
    }
  }

  lemma SlashedForm(cs: seq<string>)
    ensures Slashed([]) == "/"
    ensures cs != [] ==> Slashed(cs) == "/" + Join(cs, '/') + "/"
    ensures IsRooted(Slashed(cs)) && HasSlashSuffix(Slashed(cs))
  {
    assert [""] + [] + [""] == ["", ""] && ["", ""][1..] == [""];
    assert [""] + cs + [""] == [""] + (cs + [""]);
    JoinConcat([""], cs + [""], '/');
    assert Join([""], '/') == "" && "" + (['/'] + Join(cs + [""], '/')) == "/" + Join(cs + [""], '/');
    if cs != [] {
      JoinConcat(cs, [""], '/');
      assert Join(cs, '/') + (['/'] + "") == Join(cs, '/') + "/";
    }
  }

  lemma SplitSlashed(cs: seq<string>)
    requires AllPlain(cs)
    ensures Split(Slashed(cs), '/') == [""] + cs + [""]
  {
    SplitJoin([""] + cs + [""], '/');
  }

  lemma SlashedInjective(a: seq<string>, b: seq<string>)
    requires AllPlain(a) && AllPlain(b) && Slashed(a) == Slashed(b)
    ensures a == b
  {
    SplitSlashed(a);
    SplitSlashed(b);
    assert ([""] + a + [""])[1..|a| + 1] == a;
    assert ([""] + b + [""])[1..|b| + 1] == b;
  }

  lemma KeptPlain(p: string)
    ensures AllPlain(Kept(p)) && "." !in Kept(p)
    ensures IsRooted(p) ==> ".." !in Kept(p)
    ensures !IsRooted(p) && ".." in Kept(p) ==> Kept(p)[0] == ".."
  {
    SplitPartsAreFree(p, '/');
    ResolvePlain(Split(p, '/'), IsRooted(p));
    ResolveRooted(Split(p, '/'));
    ResolveRelative(Split(p, '/'));
  }

  /** The components of the result: those `path.Clean` keeps, or a single `.` for a
      relative path of which it keeps nothing. */
  function Components(v: string): seq<string> {
    var v := TrimSpace(v);
    if v == "" then []
    else if !IsRooted(v) && Kept(v) == [] then ["."]
    else Kept(v)
  }

  lemma ComponentsPlain(v: string)
    ensures AllPlain(Components(v))
  {
    KeptPlain(TrimSpace(v));
  }

  lemma CleanForm(p: string)
    requires p != ""
    ensures var cs := if !IsRooted(p) && Kept(p) == [] then ["."] else Kept(p);
      Clean(p) == (if IsRooted(p) then "/" else "") + Join(cs, '/')
  {
    KeptPlain(p);
    if Kept(p) != [] {
      JoinPlain(Kept(p));
    }
  }

  lemma SlashesAround(cs: seq<string>, rooted: bool)
    requires AllPlain(cs) && (cs == [] ==> rooted)
    ensures AddSlashes((if rooted then "/" else "") + Join(cs, '/')) == Slashed(cs)
  {
    SlashedForm(cs);
    var body := Join(cs, '/');
    if cs != [] {
      JoinPlain(cs);
      var s := "/" + body;
      assert s[|s| - 1] == body[|body| - 1];
      assert "" + body == body;
    } else {
      assert "/" + body == "/";
    }
  }

  /** Every result is a slashed list of components. */
  lemma ParseForm(v: string)
    ensures ParseSubPath(v) == Slashed(Components(v))
  {
    var p := TrimSpace(v);
    if p != "" {
      ComponentsPlain(v);
      CleanForm(p);
      SlashesAround(Components(v), IsRooted(p));
    } else {
      SlashedForm([]);
    }
  }

  /** Parsing a result again resolves its components below the root. */
  lemma ParseSlashed(cs: seq<string>)
    requires AllPlain(cs)
    ensures Components(Slashed(cs)) == Resolve(cs, true)
  {
    var s := Slashed(cs);
    SlashedForm(cs);
    TrimSpaceFixed(s);
    SplitSlashed(cs);
    var parts := [""] + cs + [""];
    assert parts[..|parts| - 1] == [""] + cs;
    ResolveSkipsEmpty(cs, true);
  }

  // ---------- main results ----------

  /** The result always begins and ends with a slash. */
  lemma AlwaysSlashed(v: string)
    ensures IsRooted(ParseSubPath(v)) && HasSlashSuffix(ParseSubPath(v))
  {
    ParseForm(v);
    SlashedForm(Components(v));
  }

  /** After two applications nothing changes any more, and the components are canonical. */
  lemma FixedAfterTwo(v: string)
    ensures var twice := ParseSubPath(ParseSubPath(v));
      && ParseSubPath(twice) == twice
      && Canonical(Components(twice)) && twice == Slashed(Components(twice))
  {
    var cs := Components(v);
    ComponentsPlain(v);
    ParseForm(v);
    ParseSlashed(cs);
    var ds := Resolve(cs, true);
    ParseForm(ParseSubPath(v));
    SecondIsCanonical(cs);
    ParseSlashed(ds);
    ResolveCanonical(ds);
    ParseForm(Slashed(ds));
  }

  lemma SecondIsCanonical(cs: seq<string>)
    requires AllPlain(cs)
    ensures Canonical(Resolve(cs, true))
  {
    ResolvePlain(cs, true);
    ResolveRooted(cs);
  }

  /** The inputs that are normal after one application: nothing, a rooted path, or a
      relative path that does not stay at, or climb above, where it starts. */
  predicate NormalAtOnce(v: string) {
    var p := TrimSpace(v);
    p == "" || IsRooted(p) || (Clean(p) != "." && Clean(p) != ".." && !("../" <= Clean(p)))
  }

  lemma CleanClimbs(p: string)
    requires p != "" && !IsRooted(p)
    ensures Clean(p) == "." <==> Kept(p) == []
    ensures Clean(p) == ".." || "../" <= Clean(p) <==> Kept(p) != [] && Kept(p)[0] == ".."
  {
    var cs := Kept(p);
    KeptPlain(p);
    if cs != [] {
      JoinPlain(cs);
      SplitJoin(cs, '/');
      SplitJoin(["."], '/');
      var s := Join(cs, '/');
      assert Clean(p) == s;
      assert Join(["."], '/') == ".";
      FirstIsDotDot(s);
    }
  }

  lemma FirstIsDotDot(s: string)
    ensures Split(s, '/')[0] == ".." <==> s == ".." || "../" <= s
  {
    JoinSplit(s, '/');
    if "../" <= s {
      var rest := s[3..];
      assert s == ".." + (['/'] + rest);
      SplitConcat("..", '/', rest);
    }
    SplitJoin([".."], '/');
    assert Join([".."], '/') == "..";
  }

  /** Exactly those inputs reach the fixed point after one application. */
  lemma FixedAfterOneIff(v: string)
    ensures ParseSubPath(ParseSubPath(v)) == ParseSubPath(v) <==> NormalAtOnce(v)
  {
    var p, cs := TrimSpace(v), Components(v);
    ComponentsPlain(v);
    ParseForm(v);
    ParseForm(ParseSubPath(v));
    ParseSlashed(cs);
    SecondIsCanonical(cs);
    KeptPlain(p);
    if p != "" && !IsRooted(p) {
      CleanClimbs(p);
    }
    if NormalAtOnce(v) {
      ResolveCanonical(cs);
    } else {
      assert cs[0] in cs;
      if Slashed(Resolve(cs, true)) == Slashed(cs) {
        SlashedInjective(Resolve(cs, true), cs);
      }
    }
  }

  /** For a rooted input the first result is already canonical. */
  lemma RootedIsCanonical(v: string)
    requires IsRooted(TrimSpace(v))
    ensures var r := ParseSubPath(v); ParseSubPath(r) == r && r == Slashed(Components(v)) && Canonical(Components(v))
  {
    KeptPlain(TrimSpace(v));
    ParseForm(v);
    FixedAfterOneIff(v);
  }
}
