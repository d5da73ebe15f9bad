/** The text form of a configuration: the printer of `api/admin_config.go`, a
    left-to-right reader of what it prints, and notification endpoints. */
module ConfigText {
  import opened Wrappers
  import opened Lists
  import opened Text

  /** `models.ConfigurationKV` */
  datatype KV = KV(key: string, value: string)

  // ---------- the printer ----------

  /** A value with its newlines turned into commas. */
  function CommaLines(v: string): (r: string)
    ensures |r| == |v| && forall i :: 0 <= i < |v| ==> r[i] == if v[i] == '\n' then ',' else v[i]
  {
    seq(|v|, i requires 0 <= i < |v| => if v[i] == '\n' then ',' else v[i])
  }

  /** What one entry means: a trimmed key, and a value with commas for newlines. */
  function Meaning(kv: KV): KV {
    KV(TrimSpace(kv.key), CommaLines(kv.value))
  }

  function Meanings(kvs: seq<KV>): (r: seq<KV>)
    ensures |r| == |kvs| && forall i :: 0 <= i < |r| ==> r[i] == Meaning(kvs[i])
  {
    seq(|kvs|, i requires 0 <= i < |kvs| => Meaning(kvs[i]))
  }

  /** The entries that count: those with a key. */
  function Keyed(entries: seq<KV>): seq<KV> {
    if entries == [] then []
    else
      var front, last := entries[..|entries| - 1], entries[|entries| - 1];
      Keyed(front) + if last.key == "" then [] else [last]
  }

  /** What an entry list means. */
  function Normal(kvs: seq<KV>): seq<KV> {
    Keyed(Meanings(kvs))
  }

  lemma {:induction false} KeyedMembers(entries: seq<KV>)
    ensures forall e :: e in Keyed(entries) <==> e in entries && e.key != ""
  {
    if entries != [] {
      var front, last := entries[..|entries| - 1], entries[|entries| - 1];
      KeyedMembers(front);
      assert entries == front + [last];
    }
  }

  function PrintEntry(e: KV): string {
    " " + e.key + "=" + "\"" + e.value + "\""
  }

  function PrintEntries(entries: seq<KV>): string {
    if entries == [] then "" else PrintEntry(entries[0]) + PrintEntries(entries[1..])
  }

  lemma {:induction false} ReplaceNewlines(v: string)
    ensures ReplaceAll(v, "\n", ",") == CommaLines(v)
  {
    if v != [] {
      ReplaceNewlines(v[1..]);
      assert v[..1] == "\n" <==> v[0] == '\n';
      assert CommaLines(v) == [CommaLines(v)[0]] + CommaLines(v[1..]);
    }
  }

  /** The quotes keep the value from being trimmed. */
  lemma QuotedValue(v: string)
    ensures ReplaceAll(TrimSpace("\"" + v + "\""), "\n", ",") == "\"" + CommaLines(v) + "\""
  {
    var q := "\"" + v + "\"";
    TrimSpaceFixed(q);
    ReplaceNewlines(q);
    assert CommaLines(q) == "\"" + CommaLines(v) + "\"";
  }

  lemma {:induction false} PrintAppend(entries: seq<KV>, e: KV)
    ensures PrintEntries(entries + [e]) == PrintEntries(entries) + PrintEntry(e)
  {
    if entries == [] {
      assert [e][1..] == [];
    } else {
      assert (entries + [e])[1..] == entries[1..] + [e];
      PrintAppend(entries[1..], e);
    }
  }

  lemma KeyedAppend(entries: seq<KV>, e: KV)
    ensures Keyed(entries + [e]) == Keyed(entries) + if e.key == "" then [] else [e]
  {
    assert (entries + [e])[..|entries|] == entries;
  }

  /** The name, then the normal form of the entries. */
  method BuildConfig(configName: string, kvs: seq<KV>) returns (config: string)
    ensures config == configName + PrintEntries(Normal(kvs))
  {
    var builder := configName;
    for i := 0 to |kvs|
      invariant builder == configName + PrintEntries(Normal(kvs[..i]))
    {
      PrintStep(configName, kvs, i);
      builder := WriteEntry(builder, kvs[i]);
    }
    assert kvs[..|kvs|] == kvs;
    return builder;
  }

  lemma PrintStep(configName: string, kvs: seq<KV>, i: nat)
    requires i < |kvs|
    ensures configName + PrintEntries(Normal(kvs[..i + 1])) ==
      configName + PrintEntries(Normal(kvs[..i])) + PrintIfKeyed(Meaning(kvs[i]))
  {
    var e, before := Meaning(kvs[i]), Normal(kvs[..i]);
    assert Meanings(kvs[..i + 1]) == Meanings(kvs[..i]) + [e];
    KeyedAppend(Meanings(kvs[..i]), e);
    if e.key == "" {
      assert before + [] == before;
    } else {
      PrintAppend(before, e);
    }
    Regroup(configName, PrintEntries(before), PrintIfKeyed(e));
  }

  function PrintIfKeyed(e: KV): string {
    if e.key == "" then "" else PrintEntry(e)
  }

  lemma WrittenInParts(builder: string, key: string, quoted: string)
    ensures builder + " " + key + "=" + quoted == builder + (" " + key + "=" + quoted)
  {
    Regroup(builder, " ", key);
    Regroup(builder, " " + key, "=");
    Regroup(builder, " " + key + "=", quoted);
  }

  lemma PrintedEntry(key: string, value: string)
    ensures PrintEntry(KV(key, value)) == " " + key + "=" + ("\"" + value + "\"")
  {
    Regroup(" " + key + "=", "\"", value);
    Regroup(" " + key + "=", "\"" + value, "\"");
  }

  /** The body of the printer's loop. */
  method WriteEntry(builder: string, kv: KV) returns (builder': string)
    ensures builder' == builder + PrintIfKeyed(Meaning(kv))
  {
    builder' := builder;
    var key := TrimSpace(kv.key);
    if key == "" {
      return;
    }
    var quoted := QuoteValue(kv.value);
    WrittenInParts(builder, key, quoted);
    PrintedEntry(key, CommaLines(kv.value));
    builder' := builder' + " ";
    builder' := builder' + key;
    builder' := builder' + "=";
    builder' := builder' + quoted;
  }

  method QuoteValue(value: string) returns (quoted: string)
    ensures quoted == "\"" + CommaLines(value) + "\""
  {
    QuotedValue(value);
    quoted := ReplaceAll(TrimSpace("\"" + value + "\""), "\n", ",");
  }

  // ---------- the reader ----------

  /** The text in front of the first `c`. */
  function Before(s: string, c: char): (r: string)
    ensures r <= s && c !in r
    ensures |r| < |s| ==> s[|r|] == c
  {
    if s == [] || s[0] == c then [] else [s[0]] + Before(s[1..], c)
  }

  lemma {:induction false} BeforeFirst(p: string, c: char, s: string)
    requires c !in p && (s == [] || s[0] == c)
    ensures Before(p + s, c) == p
  {
    if p == [] {
      assert p + s == s;
    } else {
      assert (p + s)[1..] == p[1..] + s;
      BeforeFirst(p[1..], c, s);
    }
  }

  /** Reads ` key="value"` again and again. */
  function ReadEntries(s: string): Option<seq<KV>>
    decreases |s|
  {
    if s == [] then Some([])
    else if s[0] != ' ' then None
    else
      var key := Before(s[1..], '=');
      var s1 := s[1..][|key|..];
      if |s1| < 2 || s1[1] != '"' then None
      else
        var value := Before(s1[2..], '"');
        var s2 := s1[2..][|value|..];
        if s2 == [] then None
        else match ReadEntries(s2[1..])
          case None => None
          case Some(rest) => Some([KV(key, value)] + rest)
  }

  /** Reads a name, up to the first space, and the entries after it. */
  function ReadConfig(s: string): Option<(string, seq<KV>)> {
    var name := Before(s, ' ');
    match ReadEntries(s[|name|..])
    case None => None
    case Some(entries) => Some((name, entries))
  }

  predicate ReadableEntry(e: KV) {
    '=' !in e.key && '"' !in e.value
  }

  /** The first entry that the reader sees in a printed list has the printed key just
      when that holds no `=`, and then the printed value just when that holds no `"`. */
  lemma ReadFirst(e: KV, rest: string)
    ensures var s := PrintEntry(e) + rest;
      && s != [] && s[0] == ' '
      && (Before(s[1..], '=') == e.key <==> '=' !in e.key)
      && ('=' !in e.key ==>
            var s1 := s[1..][|e.key|..];
            && |s1| >= 2 && s1[1] == '"'
            && (Before(s1[2..], '"') == e.value <==> '"' !in e.value)
            && ('"' !in e.value ==> s1[2..][|e.value|..] == "\"" + rest))
  {
    var s := PrintEntry(e) + rest;
    var tail := AfterKey(e, rest);
    assert s[1..] == e.key + tail;
    if '=' !in e.key {
      BeforeFirst(e.key, '=', tail);
      assert s[1..][|e.key|..] == tail;
      ReadFirstValue(e, rest);
    }
  }

  /** The printed entry from its `=` on. */
  function AfterKey(e: KV, rest: string): (tail: string)
    ensures PrintEntry(e) + rest == " " + (e.key + tail) && tail != [] && tail[0] == '='
  {
    "=" + ("\"" + (e.value + ("\"" + rest)))
  }

  lemma ReadFirstValue(e: KV, rest: string)
    ensures var tail := AfterKey(e, rest);
      && |tail| >= 2 && tail[1] == '"'
      && (Before(tail[2..], '"') == e.value <==> '"' !in e.value)
      && ('"' !in e.value ==> tail[2..][|e.value|..] == "\"" + rest)
  {
    var tail := AfterKey(e, rest);
    assert tail[2..] == e.value + ("\"" + rest);
    if '"' !in e.value {
      BeforeFirst(e.value, '"', "\"" + rest);
    }
  }

  lemma {:induction false} ReadPrintedEntries(entries: seq<KV>)
    ensures ReadEntries(PrintEntries(entries)) == Some(entries) <==> forall e :: e in entries ==> ReadableEntry(e)
  {
    if entries != [] {
      var e, rest := entries[0], PrintEntries(entries[1..]);
      ReadFirst(e, rest);
      assert entries == [e] + entries[1..];
      if ReadableEntry(e) {
        assert ("\"" + rest)[1..] == rest;
        ReadPrintedEntries(entries[1..]);
        var r := ReadEntries(rest);
        assert ReadEntries(PrintEntries(entries)) == if r.None? then None else Some([e] + r.value);
        assert r.Some? && [e] + r.value == entries ==> ([e] + r.value)[1..] == r.value;
      }
    }
  }

  /** What a caller of the printer can check: the name has no space, and no entry that
      counts has `=` in its key or `"` in its value. */
  predicate Printable(configName: string, kvs: seq<KV>) {
    && ' ' !in configName
    && forall kv :: kv in kvs && Meaning(kv).key != "" ==> '=' !in kv.key && '"' !in kv.value
  }

  lemma MeaningReadable(kv: KV)
    ensures ReadableEntry(Meaning(kv)) <==> '=' !in kv.key && '"' !in kv.value
  {
    TrimSpaceTrims(kv.key);
    if '=' in kv.key {
      TrimSpaceKeeps(kv.key, '=');
    }
    if i :| 0 <= i < |kv.value| && kv.value[i] == '"' {
      assert CommaLines(kv.value)[i] == '"';
    }
  }

  lemma NormalReadable(kvs: seq<KV>)
    ensures (forall e :: e in Normal(kvs) ==> ReadableEntry(e)) <==>
      forall kv :: kv in kvs && Meaning(kv).key != "" ==> '=' !in kv.key && '"' !in kv.value
  {
    KeyedMembers(Meanings(kvs));
    forall kv ensures ReadableEntry(Meaning(kv)) <==> '=' !in kv.key && '"' !in kv.value {
      MeaningReadable(kv);
    }
    forall kv | kv in kvs ensures Meaning(kv) in Meanings(kvs) {
      var i :| 0 <= i < |kvs| && kvs[i] == kv;
      assert Meanings(kvs)[i] == Meaning(kv);
    }
  }

  /** This reader recovers the name and the normal form of the entries for exactly the
      printable inputs. */
  lemma ReadBuilt(configName: string, kvs: seq<KV>)
    ensures ReadConfig(configName + PrintEntries(Normal(kvs))) == Some((configName, Normal(kvs))) <==> Printable(configName, kvs)
  {
    var text := PrintEntries(Normal(kvs));
    NormalReadable(kvs);
    ReadPrintedEntries(Normal(kvs));
    if Normal(kvs) != [] {
      ReadFirst(Normal(kvs)[0], PrintEntries(Normal(kvs)[1..]));
    }
    if ' ' !in configName {
      BeforeFirst(configName, ' ', text);
      assert (configName + text)[|configName|..] == text;
    }
  }

  /** Hence two printable inputs with the same text mean the same. */
  lemma BuildInjective(n1: string, kvs1: seq<KV>, n2: string, kvs2: seq<KV>)
    requires Printable(n1, kvs1) && Printable(n2, kvs2)
    requires n1 + PrintEntries(Normal(kvs1)) == n2 + PrintEntries(Normal(kvs2))
    ensures n1 == n2 && Normal(kvs1) == Normal(kvs2)
  {
    ReadBuilt(n1, kvs1);
    ReadBuilt(n2, kvs2);
  }

  /** Outside them the text can be ambiguous, for any reader. A name with spaces can hold
      all the entries of another input. */
  lemma NameHoldsEntries(configName: string, kvs: seq<KV>)
    requires Normal(kvs) != []
    ensures var text := configName + PrintEntries(Normal(kvs)); text != configName && text + PrintEntries(Normal([])) == text
  {
    ReadFirst(Normal(kvs)[0], PrintEntries(Normal(kvs)[1..]));
    assert Meanings([]) == [];
  }

  /** Another input that means something else and has the same text. */
  ghost predicate IsTwin(n1: string, kvs1: seq<KV>, n2: string, kvs2: seq<KV>) {
    && n1 + PrintEntries(Normal(kvs1)) == n2 + PrintEntries(Normal(kvs2))
    && (n1 != n2 || Normal(kvs1) != Normal(kvs2))
  }

  /** The name ends in the print of some entries. */
  ghost predicate EndsInPrint(configName: string, n: string, kvs: seq<KV>) {
    Normal(kvs) != [] && configName == n + PrintEntries(Normal(kvs))
  }

  /** With names unrestricted, exactly the inputs without entries whose name does not end
      in printed entries have a text of their own; with names free of spaces, exactly
      those without entries. */
  lemma TwinIff(configName: string, kvs: seq<KV>)
    ensures (exists n, other :: IsTwin(configName, kvs, n, other)) <==>
      Normal(kvs) != [] || exists n, other :: EndsInPrint(configName, n, other)
    ensures ' ' !in configName ==> forall n, other :: !EndsInPrint(configName, n, other)
  {
    var text := configName + PrintEntries(Normal(kvs));
    assert Meanings([]) == [] && Normal([]) == [] && text + PrintEntries([]) == text;
    if Normal(kvs) != [] {
      NameHoldsEntries(configName, kvs);
      assert IsTwin(configName, kvs, text, []);
    } else {
      assert text == configName;
      if n, other :| EndsInPrint(configName, n, other) {
        assert IsTwin(configName, kvs, n, other);
      }
      if n, other :| IsTwin(configName, kvs, n, other) {
        assert Normal(other) == [] ==> n + PrintEntries(Normal(other)) == n;
        assert EndsInPrint(configName, n, other);
      }
    }
    forall n, other | EndsInPrint(configName, n, other) ensures ' ' in configName {
      var printed := PrintEntries(Normal(other));
      ReadFirst(Normal(other)[0], PrintEntries(Normal(other)[1..]));
      assert configName[|n|] == printed[0] == ' ';
    }
  }

  /** A value with quotes can hold a second entry, */
  lemma ValueHoldsEntry(e: KV, f: KV)
    ensures PrintEntries([KV(e.key, e.value + "\"" + " " + f.key + "=" + "\"" + f.value)]) == PrintEntries([e, f])
  {
    var one := KV(e.key, e.value + "\"" + " " + f.key + "=" + "\"" + f.value);
    assert [one][1..] == [] && [e, f][1..] == [f] && [f][1..] == [];
    assert PrintEntries([f]) == PrintEntry(f);
    assert PrintEntry(one) == PrintEntry(e) + PrintEntry(f);
  }

  /** and so can a key with an equals sign. */
  lemma KeyHoldsEntry(e: KV, f: KV)
    ensures PrintEntries([KV(e.key + "=" + "\"" + e.value + "\"" + " " + f.key, f.value)]) == PrintEntries([e, f])
  {
    var one := KV(e.key + "=" + "\"" + e.value + "\"" + " " + f.key, f.value);
    assert [one][1..] == [] && [e, f][1..] == [f] && [f][1..] == [];
    assert PrintEntries([f]) == PrintEntry(f);
    assert PrintEntry(one) == PrintEntry(e) + PrintEntry(f);
  }

  /** Two inputs of the printer with one text. */
  lemma SameTextTwice()
    ensures "a b=\"c\"" + PrintEntries(Normal([])) == "a" + PrintEntries(Normal([KV("b", "c")]))
  {
    var e := KV("b", "c");
    TrimSpaceFixed("b");
    assert CommaLines("c") == "c" && Meanings([e]) == [e] && Meanings([]) == [];
    assert [e][..0] == [] && Keyed([e]) == [e] && [e][1..] == [];
    assert PrintEntries([e]) == PrintEntry(e) + PrintEntries([]) == PrintEntry(e);
    assert PrintEntry(e) == " b=\"c\"";
    assert "a" + " b=\"c\"" == "a b=\"c\"";
  }

  // ---------- notification endpoints ----------

  /** The name of a target of a sub-system, as `setConfigWithARNAccountID` writes it and
      `getConfig` rebuilds it. */
  function FullName(name: string, account: string): string {
    if account == "" then name else name + ":" + account
  }

  /** The two halves of a full name. */
  function ReadFullName(full: string): (string, string) {
    var name := Before(full, ':');
    (name, if |name| == |full| then "" else full[|name| + 1..])
  }

  lemma ReadFullNameBack(name: string, account: string)
    requires ':' !in name
    ensures ReadFullName(FullName(name, account)) == (name, account)
  {
    var tail := if account == "" then "" else ":" + account;
    assert FullName(name, account) == name + tail;
    BeforeFirst(name, ':', tail);
    assert account != "" ==> (name + tail)[|name| + 1..] == account;
  }

  /** The sub-system of a supported notification service. */
  function ServiceConfig(service: string): (r: Option<string>)
    ensures r.Some? ==> ' ' !in r.value && ':' !in r.value
  {
    if service in {"amqp", "mqtt", "elasticsearch", "redis", "nats", "postgres", "mysql", "kafka", "webhook", "nsq"}
    then Some("notify_" + service)
    else None
  }

  /** An order in which Go may walk the map. */
  ghost predicate Enumerates(order: seq<string>, properties: map<string, string>) {
    NoDuplicates(order) && forall k :: k in order <==> k in properties
  }

  function Entries(properties: map<string, string>, order: seq<string>): seq<KV>
    requires forall k :: k in order ==> k in properties
  {
    seq(|order|, i requires 0 <= i < |order| => KV(order[i], properties[order[i]]))
  }

  /** The map a list of entries stands for, later entries overriding earlier ones. */
  function ToMap(entries: seq<KV>): map<string, string> {
    if entries == [] then map[]
    else ToMap(entries[..|entries| - 1])[entries[|entries| - 1].key := entries[|entries| - 1].value]
  }

  /** Entries with the same key have the same value. */
  ghost predicate Agree(entries: seq<KV>) {
    forall i, j :: 0 <= i < j < |entries| && entries[i].key == entries[j].key != "" ==> entries[i].value == entries[j].value
  }

  ghost predicate HasKey(entries: seq<KV>, k: string) {
    exists i :: 0 <= i < |entries| && entries[i].key == k
  }

  /** The map of the keyed entries, without listing them first. */
  function Latest(entries: seq<KV>): map<string, string> {
    if entries == [] then map[]
    else
      var front, last := entries[..|entries| - 1], entries[|entries| - 1];
      if last.key == "" then Latest(front) else Latest(front)[last.key := last.value]
  }

  lemma {:induction false} MapIsLatest(entries: seq<KV>)
    ensures ToMap(Keyed(entries)) == Latest(entries)
  {
    if entries != [] {
      var front, last := entries[..|entries| - 1], entries[|entries| - 1];
      MapIsLatest(front);
      assert (Keyed(front) + [last])[..|Keyed(front)|] == Keyed(front);
      assert last.key == "" ==> Keyed(front) + [] == Keyed(front);
    }
  }

  lemma {:induction false} LatestHolds(entries: seq<KV>, k: string)
    requires Agree(entries)
    ensures k in Latest(entries) <==> k != "" && HasKey(entries, k)
    ensures forall i :: 0 <= i < |entries| && entries[i].key == k != "" ==> k in Latest(entries) && Latest(entries)[k] == entries[i].value
  {
    if entries != [] {
      var front, last := entries[..|entries| - 1], entries[|entries| - 1];
      LatestHolds(front, k);
      if i :| 0 <= i < |front| && front[i].key == k {
        assert entries[i].key == k;
      }
    }
  }

  /** The map of a list that agrees with itself has the keys that are not blank, each
      with the value it has in the list. */
  lemma MapHolds(entries: seq<KV>, k: string)
    requires Agree(entries)
    ensures var m := ToMap(Keyed(entries));
      && (k in m <==> k != "" && HasKey(entries, k))
      && forall i :: 0 <= i < |entries| && entries[i].key == k != "" ==> m[k] == entries[i].value
  {
    MapIsLatest(entries);
    LatestHolds(entries, k);
  }

  /** The last entry of a list wins. */
  lemma LastWins(front: seq<KV>, last: KV)
    requires last.key != ""
    ensures var m := ToMap(Keyed(front + [last])); last.key in m && m[last.key] == last.value
  {
    KeyedAppend(front, last);
    assert (Keyed(front) + [last])[..|Keyed(front)|] == Keyed(front);
  }

  lemma SameEntriesSameMap(a: seq<KV>, b: seq<KV>)
    requires Agree(a) && Agree(b) && forall e :: e in a <==> e in b
    ensures ToMap(Keyed(a)) == ToMap(Keyed(b))
  {
    var m, n := ToMap(Keyed(a)), ToMap(Keyed(b));
    forall k ensures (k in m <==> k in n) && (k in m ==> m[k] == n[k]) {
      MapHolds(a, k);
      MapHolds(b, k);
      KeyGoesOver(a, b, k);
      KeyGoesOver(b, a, k);
    }
  }

  lemma KeyGoesOver(a: seq<KV>, b: seq<KV>, k: string)
    requires forall e :: e in a ==> e in b
    ensures forall i :: 0 <= i < |a| && a[i].key == k ==> exists j :: 0 <= j < |b| && b[j].key == k && b[j].value == a[i].value
    ensures HasKey(a, k) ==> HasKey(b, k)
  {
    forall i | 0 <= i < |a| && a[i].key == k
      ensures exists j :: 0 <= j < |b| && b[j].key == k && b[j].value == a[i].value
    {
      assert a[i] in b;
    }
  }

  /** What the properties mean as entries, in the given order. */
  function PropertyMeanings(properties: map<string, string>, order: seq<string>): seq<KV>
    requires forall k :: k in order ==> k in properties
  {
    Meanings(Entries(properties, order))
  }

  lemma PropertyMeaningsMembers(properties: map<string, string>, order: seq<string>)
    requires forall k :: k in order ==> k in properties
    ensures forall e :: e in PropertyMeanings(properties, order) <==> exists k :: k in order && e == Meaning(KV(k, properties[k]))
  {
    var ms := PropertyMeanings(properties, order);
    forall k | k in order ensures Meaning(KV(k, properties[k])) in ms {
      var i :| 0 <= i < |order| && order[i] == k;
      assert ms[i] == Meaning(KV(k, properties[k]));
    }
  }

  /** Properties whose keys become the same key have values that become the same value. */
  ghost predicate Coherent(properties: map<string, string>) {
    forall k, l :: k in properties && l in properties ==>
      var e, f := Meaning(KV(k, properties[k])), Meaning(KV(l, properties[l]));
      e.key == f.key != "" ==> e.value == f.value
  }

  lemma CoherentAgree(properties: map<string, string>, order: seq<string>)
    requires Coherent(properties) && forall k :: k in order ==> k in properties
    ensures Agree(PropertyMeanings(properties, order))
  {
    var ms := PropertyMeanings(properties, order);
    forall i, j | 0 <= i < j < |ms| && ms[i].key == ms[j].key != "" ensures ms[i].value == ms[j].value {
      assert order[i] in order && order[j] in order;
      assert ms[i] == Meaning(KV(order[i], properties[order[i]]));
      assert ms[j] == Meaning(KV(order[j], properties[order[j]]));
    }
  }

  lemma SameMapForEveryOrder(properties: map<string, string>, o1: seq<string>, o2: seq<string>)
    requires Enumerates(o1, properties) && Enumerates(o2, properties) && Coherent(properties)
    ensures ToMap(Normal(Entries(properties, o1))) == ToMap(Normal(Entries(properties, o2)))
  {
    CoherentAgree(properties, o1);
    CoherentAgree(properties, o2);
    PropertyMeaningsMembers(properties, o1);
    PropertyMeaningsMembers(properties, o2);
    SameEntriesSameMap(PropertyMeanings(properties, o1), PropertyMeanings(properties, o2));
  }

  lemma {:induction false} SomeOrder(keys: set<string>) returns (order: seq<string>)
    ensures NoDuplicates(order) && forall k :: k in order <==> k in keys
  {
    order := [];
    if keys != {} {
      var k :| k in keys;
      var rest := SomeOrder(keys - {k});
      order := rest + [k];
    }
  }

  lemma OrderEndingIn(properties: map<string, string>, k: string) returns (order: seq<string>)
    requires k in properties && Meaning(KV(k, properties[k])).key != ""
    ensures Enumerates(order, properties)
    ensures var m, e := ToMap(Normal(Entries(properties, order))), Meaning(KV(k, properties[k]));
      e.key in m && m[e.key] == e.value
  {
    var front := SomeOrder(properties.Keys - {k});
    order := front + [k];
    assert PropertyMeanings(properties, order) == PropertyMeanings(properties, front) + [Meaning(KV(k, properties[k]))];
    LastWins(PropertyMeanings(properties, front), Meaning(KV(k, properties[k])));
  }

  /** Whether the entries mean the same map in every order in which Go may walk the
      properties is decided by the properties alone. */
  lemma OrderIrrelevantIff(properties: map<string, string>)
    ensures Coherent(properties) <==>
      forall o1, o2 :: Enumerates(o1, properties) && Enumerates(o2, properties) ==>
        ToMap(Normal(Entries(properties, o1))) == ToMap(Normal(Entries(properties, o2)))
  {
    if Coherent(properties) {
      forall o1, o2 | Enumerates(o1, properties) && Enumerates(o2, properties)
        ensures ToMap(Normal(Entries(properties, o1))) == ToMap(Normal(Entries(properties, o2)))
      {
        SameMapForEveryOrder(properties, o1, o2);
      }
    } else {
      var k, l :| k in properties && l in properties &&
        Meaning(KV(k, properties[k])).key == Meaning(KV(l, properties[l])).key != "" &&
        Meaning(KV(k, properties[k])).value != Meaning(KV(l, properties[l])).value;
      var o1 := OrderEndingIn(properties, k);
      var o2 := OrderEndingIn(properties, l);
      assert ToMap(Normal(Entries(properties, o1))) != ToMap(Normal(Entries(properties, o2)));
    }
  }

  /** The map `m` is what the properties mean. */
  ghost predicate MapOf(m: map<string, string>, properties: map<string, string>) {
    && (forall k :: k in properties ==>
          var e := Meaning(KV(k, properties[k])); e.key != "" ==> e.key in m && m[e.key] == e.value)
    && (forall t :: t in m ==> t != "" && exists k :: k in properties && Meaning(KV(k, properties[k])).key == t)
  }

  lemma MapOfOrder(properties: map<string, string>, order: seq<string>)
    requires Enumerates(order, properties) && Coherent(properties)
    ensures MapOf(ToMap(Normal(Entries(properties, order))), properties)
  {
    var ms := PropertyMeanings(properties, order);
    var m := ToMap(Keyed(ms));
    CoherentAgree(properties, order);
    forall k | k in properties
      ensures var e := Meaning(KV(k, properties[k])); e.key != "" ==> e.key in m && m[e.key] == e.value
    {
      assert k in order;
      var i :| 0 <= i < |order| && order[i] == k;
      var e := Meaning(KV(k, properties[k]));
      assert ms[i] == e;
      MapHolds(ms, e.key);
    }
    forall t | t in m ensures t != "" && exists k :: k in properties && Meaning(KV(k, properties[k])).key == t {
      MapHolds(ms, t);
      var i :| 0 <= i < |ms| && ms[i].key == t;
      assert order[i] in order;
      assert ms[i] == Meaning(KV(order[i], properties[order[i]]));
    }
  }

  /** The walk over the properties, in whatever order Go chooses. */
  method Walk(properties: map<string, string>) returns (configs: seq<KV>, ghost order: seq<string>)
    ensures Enumerates(order, properties) && configs == Entries(properties, order)
  {
    configs, order := [], [];
    var left := properties.Keys;
    while left != {}
      invariant left <= properties.Keys && NoDuplicates(order)
      invariant forall k :: k in order <==> k in properties && k !in left
      invariant configs == Entries(properties, order)
      decreases |left|
    {
      var k :| k in left;
      left := left - {k};
      configs := configs + [KV(k, properties[k])];
      order := order + [k];
    }
  }

  /** An endpoint is stored under the service's sub-system and the account. The text
      sent reads back, for an account and properties the printer can handle, as that
      name and as what the properties mean, whatever the order of the walk. */
  method AddNotificationEndpoint(service: string, account: string, properties: map<string, string>)
    returns (text: Option<string>, ghost order: seq<string>)
    ensures text.None? <==> ServiceConfig(service).None?
    ensures text.Some? ==> Enumerates(order, properties)
    ensures text.Some? ==>
      text.value == FullName(ServiceConfig(service).value, account) + PrintEntries(Normal(Entries(properties, order)))
    ensures text.Some? && Coherent(properties) && ' ' !in account && Printable("", Entries(properties, order)) ==>
      && ReadConfig(text.value).Some?
      && ReadFullName(ReadConfig(text.value).value.0) == (ServiceConfig(service).value, account)
      && MapOf(ToMap(ReadConfig(text.value).value.1), properties)
  {
    var configName := ServiceConfig(service);
    order := [];
    if configName.None? {
      return None, order;
    }
    var configs;
    configs, order := Walk(properties);
    var name := FullName(configName.value, account);
    var config := BuildConfig(name, configs);
    text := Some(config);
    ReadBuilt(name, configs);
    ReadFullNameBack(configName.value, account);
    if Coherent(properties) {
      MapOfOrder(properties, order);
    }
  }
}
