/** The removal of selected replication rules with their remote targets:
    `deleteSelectedReplicationRules` of `api/admin_remote_buckets.go`. */
module RuleRemoval {
  import opened Iam
  import opened Lists
  import opened ReplicationRules

  /** How the call ends: without an error, with the error of round `round`, or with an
      index out of range in that round. */
  datatype Outcome = Done | Refused | Failed(round: nat) | Panic(round: nat)

  /** What is stored on the server for the bucket. */
  datatype Stored = Stored(rules: seq<Rule>, targets: set<string>)

  /** The rules that stay when those with an id in `gone` are removed. */
  function Without(rules: seq<Rule>, gone: set<string>): seq<Rule> {
    if rules == [] then []
    else
      var last := rules[|rules| - 1];
      Without(rules[..|rules| - 1], gone) + if last.id in gone then [] else [last]
  }

  lemma {:induction false} WithoutHas(rules: seq<Rule>, gone: set<string>)
    ensures forall r :: r in Without(rules, gone) <==> r in rules && r.id !in gone
  {
    if rules != [] {
      var n := |rules| - 1;
      WithoutHas(rules[..n], gone);
      assert rules == rules[..n] + [rules[n]];
    }
  }

  lemma {:induction false} WithoutNone(rules: seq<Rule>)
    ensures Without(rules, {}) == rules
  {
    if rules != [] {
      WithoutNone(rules[..|rules| - 1]);
    }
  }

  lemma {:induction false} WithoutTwice(rules: seq<Rule>, gone: set<string>, id: string)
    ensures Without(Without(rules, gone), {id}) == Without(rules, gone + {id})
  {
    if rules != [] {
      var n := |rules| - 1;
      WithoutTwice(rules[..n], gone, id);
      var kept := Without(rules[..n], gone);
      if rules[n].id in gone {
        assert Without(rules, gone) == kept;
      } else {
        assert Without(rules, gone) == kept + [rules[n]];
        assert (kept + [rules[n]])[..|kept|] == kept;
      }
    }
  }

  // ---------- safety ----------

  /** Every rule has a target of its own. */
  ghost predicate OwnTargets(rules: seq<Rule>) {
    forall i, j :: 0 <= i < j < |rules| ==> rules[i].destination != rules[j].destination
  }

  predicate Names(rules: seq<Rule>, target: string) {
    exists r :: r in rules && r.destination == target
  }

  /** A target that some rule named at the start and none names now. */
  ghost predicate IsOrphan(start: Stored, now: Stored, target: string) {
    target in now.targets && Names(start.rules, target) && !Names(now.rules, target)
  }

  /** Nothing that was not selected is touched, no rule has lost its target, and at most
      one target has lost its rule. */
  ghost predicate Safe(start: Stored, ids: seq<string>, now: Stored) {
    && (forall r :: r in start.rules && r.id !in ids ==> r in now.rules)
    && (forall r :: r in now.rules ==> r in start.rules && (r.destination in start.targets ==> r.destination in now.targets))
    && (forall t :: t in start.targets && t !in now.targets ==> exists r :: r in start.rules && r.id in ids && r.destination == t)
    && (forall t, t' :: IsOrphan(start, now, t) && IsOrphan(start, now, t') ==> t == t')
  }

  /** The configuration after the removal of the first `k` ids, one after another. */
  function RulesAfter(read: seq<Rule>, ids: seq<string>, k: nat): seq<Rule>
    requires k <= |ids|
  {
    if k == 0 then read else Without(RulesAfter(read, ids, k - 1), {ids[k - 1]})
  }

  function TargetsAfter(targets: set<string>, arns: seq<string>, j: nat): set<string>
    requires j <= |arns|
  {
    if j == 0 then targets else TargetsAfter(targets, arns, j - 1) - {arns[j - 1]}
  }

  /** What is stored after the removal of the first `k` rules and the first `j` targets. */
  function Stage(start: Stored, read: seq<Rule>, ids: seq<string>, arns: seq<string>, k: nat, j: nat): Stored
    requires k <= |ids| && j <= |arns|
  {
    Stored(if k == 0 then start.rules else RulesAfter(read, ids, k), TargetsAfter(start.targets, arns, j))
  }

  lemma {:induction false} RulesAfterIs(read: seq<Rule>, ids: seq<string>, k: nat)
    requires k <= |ids|
    ensures RulesAfter(read, ids, k) == Without(read, Elements(ids[..k]))
  {
    if k == 0 {
      WithoutNone(read);
      assert Elements(ids[..0]) == {};
    } else {
      var gone := Elements(ids[..k - 1]);
      RulesAfterIs(read, ids, k - 1);
      WithoutTwice(read, gone, ids[k - 1]);
      assert Elements(ids[..k]) == gone + {ids[k - 1]} by {
        assert ids[..k] == ids[..k - 1] + [ids[k - 1]];
      }
    }
  }

  lemma {:induction false} TargetsAfterIs(targets: set<string>, arns: seq<string>, j: nat)
    requires j <= |arns|
    ensures TargetsAfter(targets, arns, j) == targets - Elements(arns[..j])
  {
    if j > 0 {
      TargetsAfterIs(targets, arns, j - 1);
      assert Elements(arns[..j]) == Elements(arns[..j - 1]) + {arns[j - 1]};
    }
  }

  lemma OwnerOf(rules: seq<Rule>, id: string) returns (r: Rule)
    requires HasRule(rules, id)
    ensures r in rules && r.id == id && r.destination == FirstDestination(rules, id)
  {
    var i: nat :| i < |rules| && rules[i].id == id;
    var first := FirstExists(rules, i);
    FirstDestinationIs(rules, first);
    r := rules[first];
  }

  /** With own targets a target belongs to one id only. */
  lemma SameOwner(rules: seq<Rule>, r: Rule, r': Rule)
    requires OwnTargets(rules) && r in rules && r' in rules && r.destination == r'.destination
    ensures r == r'
  {
    var i :| 0 <= i < |rules| && rules[i] == r;
    var j :| 0 <= j < |rules| && rules[j] == r';
  }

  lemma SameId(rules: seq<Rule>, r: Rule, r': Rule)
    requires UniqueIds(rules) && r in rules && r' in rules && r.id == r'.id
    ensures r == r'
  {
    var i :| 0 <= i < |rules| && rules[i] == r;
    var j :| 0 <= j < |rules| && rules[j] == r';
  }

  lemma GoneAt(rules: seq<Rule>, ids: seq<string>, k: nat, r: Rule) returns (i: nat)
    requires k <= |ids| && r in rules && r !in Without(rules, Elements(ids[..k]))
    ensures i < k && ids[i] == r.id
  {
    WithoutHas(rules, Elements(ids[..k]));
    assert r.id in ids[..k];
    i :| i < k && ids[i] == r.id;
  }

  // ---------- the call ----------

  /** Whether the library accepts the removal of a rule that is not there is up to the
      library; `lenient` says that it does. */
  ghost predicate CanRemove(lenient: bool, rules: seq<Rule>, id: string) {
    lenient || HasRule(rules, id)
  }

  ghost predicate AllPresent(rules: seq<Rule>, ids: seq<string>, k: nat)
    requires k <= |ids|
  {
    forall i :: 0 <= i < k ==> HasRule(rules, ids[i])
  }

  /** A state that the call passes through: `j` rounds are complete, and maybe the rule of
      the next one is gone. */
  ghost predicate IsStage(start: Stored, read: seq<Rule>, ids: seq<string>, arns: seq<string>, lenient: bool, now: Stored,
                          k: nat, j: nat)
  {
    && k <= |ids| && j <= |arns| && j <= k <= j + 1
    && (lenient || AllPresent(read, ids, k))
    && now == Stage(start, read, ids, arns, k, j)
  }

  ghost predicate IsSomeStage(start: Stored, read: seq<Rule>, ids: seq<string>, arns: seq<string>, lenient: bool, now: Stored) {
    exists k: nat, j: nat :: IsStage(start, read, ids, arns, lenient, now, k, j)
  }

  ghost predicate AllStages(start: Stored, read: seq<Rule>, ids: seq<string>, arns: seq<string>, lenient: bool, history: seq<Stored>) {
    forall h :: 0 <= h < |history| ==> IsSomeStage(start, read, ids, arns, lenient, history[h])
  }

  /** A rule that is still there in its turn was there at first. */
  lemma StillThere(read: seq<Rule>, ids: seq<string>, i: nat)
    requires i < |ids| && AllPresent(read, ids, i) && HasRule(RulesAfter(read, ids, i), ids[i])
    ensures AllPresent(read, ids, i + 1)
  {
    RulesAfterIs(read, ids, i);
    var gone := Elements(ids[..i]);
    WithoutHas(read, gone);
    var k :| 0 <= k < |Without(read, gone)| && Without(read, gone)[k].id == ids[i];
    assert Without(read, gone)[k] in read;
  }

  lemma StagesBefore(start: Stored, read: seq<Rule>, ids: seq<string>, arns: seq<string>, lenient: bool,
                     next: Stored, after: Stored, rest: seq<Stored>)
    requires IsSomeStage(start, read, ids, arns, lenient, next) && IsSomeStage(start, read, ids, arns, lenient, after)
    requires AllStages(start, read, ids, arns, lenient, rest)
    ensures AllStages(start, read, ids, arns, lenient, [next, after] + rest)
  {
    forall h | 2 <= h < |rest| + 2
      ensures IsSomeStage(start, read, ids, arns, lenient, ([next, after] + rest)[h])
    {
      assert ([next, after] + rest)[h] == rest[h - 2];
    }
  }

  /** The id at place `p` is asked for, for the first time, after one without a rule. */
  ghost predicate Overtakes(start: Stored, ids: seq<string>, k: nat, p: nat) {
    && k < p < |ids| && !HasRule(start.rules, ids[k])
    && HasRule(start.rules, ids[p]) && ids[p] !in ids[..p]
    && FirstDestination(start.rules, ids[p]) in start.targets
  }

  /** Some id without a rule stands before the first mention of one that has a rule with
      a target. */
  ghost predicate Misaligned(start: Stored, ids: seq<string>) {
    exists k: nat, p: nat :: Overtakes(start, ids, k, p)
  }

  lemma FirstMention(ids: seq<string>, p: nat) returns (first: nat)
    requires p < |ids|
    ensures first <= p && ids[first] == ids[p] && ids[first] !in ids[..first]
  {
    first := p;
    while ids[first] in ids[..first]
      invariant first <= p && ids[first] == ids[p]
      decreases first
    {
      var i :| 0 <= i < first && ids[..first][i] == ids[first];
      first := i;
    }
  }

  lemma FoundTarget(rules: seq<Rule>, ids: seq<string>, p: nat) returns (l: nat)
    requires UniqueIds(rules) && p < |ids| && HasRule(rules, ids[p])
    ensures var m := Destinations(rules);
      l == |Found(m, ids[..p])| && l <= p && l < |Found(m, ids)| && Found(m, ids)[l] == FirstDestination(rules, ids[p])
  {
    LookupsAgreeIff(rules);
    SameDestination(rules, ids[p]);
    FoundPlace(Destinations(rules), ids, p);
    l := |Found(Destinations(rules), ids[..p])|;
  }

  /** Where the answer is behind the request, an id without a rule has been skipped. */
  lemma SkippedBefore(rules: seq<Rule>, ids: seq<string>, p: nat) returns (k: nat)
    requires p <= |ids| && |Found(Destinations(rules), ids[..p])| < p
    ensures k < p && !HasRule(rules, ids[k])
  {
    var m := Destinations(rules);
    if i: nat :| i < p && ids[i] !in m {
      k := i;
      DestinationsKeys(rules, ids[k]);
    } else {
      assert forall i :: 0 <= i < p ==> ids[..p][i] in m;
      FoundInStep(m, ids[..p], p);
    }
  }

  /** A rule that stays while its target goes has been overtaken. */
  lemma LostByOvertaking(start: Stored, ids: seq<string>, k: nat, j: nat, l: nat, r: Rule)
    requires UniqueIds(start.rules) && OwnTargets(start.rules)
    requires l < j <= k <= |ids| && l < |Found(Destinations(start.rules), ids)|
    requires r in start.rules && r.id !in ids[..k] && r.destination in start.targets
    requires Found(Destinations(start.rules), ids)[l] == r.destination
    ensures Misaligned(start, ids) && !AllPresent(start.rules, ids, k)
  {
    var rules, m := start.rules, Destinations(start.rules);
    var p := FoundSource(m, ids, l);
    DestinationsKeys(rules, ids[p]);
    LookupsAgreeIff(rules);
    SameDestination(rules, ids[p]);
    var r' := OwnerOf(rules, ids[p]);
    SameOwner(rules, r, r');
    var first := FirstMention(ids, p);
    assert forall x :: 0 <= x < k ==> ids[x] in ids[..k];
    FoundGrows(m, ids, first, p);
    var skipped := SkippedBefore(rules, ids, first);
    assert Overtakes(start, ids, skipped, first);
    FoundGrows(m, ids, k, first);
    var missing := SkippedBefore(rules, ids, k);
  }

  lemma NotBefore(arns: seq<string>, l: nat, j: nat)
    requires l < |arns| && j <= |arns| && arns[l] !in Elements(arns[..j])
    ensures j <= l
  {
    assert forall x :: 0 <= x < j ==> arns[x] in arns[..j];
  }

  /** The target of a requested rule has its place among the answers. */
  lemma TargetPlace(rules: seq<Rule>, ids: seq<string>, arns: seq<string>, i: nat, r: Rule) returns (l: nat)
    requires UniqueIds(rules) && arns == Found(Destinations(rules), ids)
    requires r in rules && i < |ids| && ids[i] == r.id
    ensures l < |arns| && l <= i && arns[l] == r.destination
  {
    RuleHasIt(rules, r);
    var r' := OwnerOf(rules, ids[i]);
    SameId(rules, r, r');
    l := FoundTarget(rules, ids, i);
  }

  /** A rule that is gone, while its target is not, was the last one to go. */
  lemma LastToGo(rules: seq<Rule>, ids: seq<string>, arns: seq<string>, i: nat, j: nat, r: Rule)
    requires UniqueIds(rules) && arns == Found(Destinations(rules), ids)
    requires i < |ids| && i <= j <= |arns|
    requires r in rules && ids[i] == r.id && r.destination !in Elements(arns[..j])
    ensures j < |arns| && r.destination == arns[j]
  {
    var l := TargetPlace(rules, ids, arns, i, r);
    NotBefore(arns, l, j);
  }

  lemma OrphanOf(start: Stored, now: Stored, t: string) returns (r: Rule)
    requires IsOrphan(start, now, t)
    ensures r in start.rules && r !in now.rules && r.destination == t
  {
    r :| r in start.rules && r.destination == t;
  }

  lemma OrphanIsLast(start: Stored, ids: seq<string>, arns: seq<string>, k: nat, j: nat, now: Stored, t: string)
    requires UniqueIds(start.rules) && arns == Found(Destinations(start.rules), ids)
    requires k <= |ids| && j <= |arns| && k <= j + 1
    requires now.rules == Without(start.rules, Elements(ids[..k])) && now.targets == start.targets - Elements(arns[..j])
    requires IsOrphan(start, now, t)
    ensures j < |arns| && t == arns[j]
  {
    var r := OrphanOf(start, now, t);
    var i := GoneAt(start.rules, ids, k, r);
    LastToGo(start.rules, ids, arns, i, j, r);
  }

  lemma RuleHasIt(rules: seq<Rule>, r: Rule)
    requires r in rules
    ensures HasRule(rules, r.id)
  {
    var i :| 0 <= i < |rules| && rules[i] == r;
  }

  /** A lost target belonged to a selected rule. */
  lemma LostIsSelected(start: Stored, ids: seq<string>, t: string) returns (r: Rule)
    requires UniqueIds(start.rules) && t in Found(Destinations(start.rules), ids)
    ensures r in start.rules && r.id in ids && r.destination == t
  {
    var arns := Found(Destinations(start.rules), ids);
    var l :| 0 <= l < |arns| && arns[l] == t;
    var p := FoundSource(Destinations(start.rules), ids, l);
    DestinationsKeys(start.rules, ids[p]);
    LookupsAgreeIff(start.rules);
    SameDestination(start.rules, ids[p]);
    r := OwnerOf(start.rules, ids[p]);
  }

  /** Every stage is safe when nothing is overtaken, even if ids are missing, and as long
      as all ids have had a rule. */
  lemma StageIsSafe(start: Stored, ids: seq<string>, arns: seq<string>, k: nat, j: nat)
    requires UniqueIds(start.rules) && OwnTargets(start.rules)
    requires arns == Found(Destinations(start.rules), ids) && k <= |ids| && j <= |arns| && j <= k <= j + 1
    requires !Misaligned(start, ids) || AllPresent(start.rules, ids, k)
    ensures Safe(start, ids, Stage(start, start.rules, ids, arns, k, j))
  {
    var now := Stage(start, start.rules, ids, arns, k, j);
    RulesAfterIs(start.rules, ids, k);
    TargetsAfterIs(start.targets, arns, j);
    WithoutHas(start.rules, Elements(ids[..k]));
    forall r | r in now.rules && r.destination in start.targets ensures r.destination in now.targets {
      if l :| 0 <= l < j && arns[l] == r.destination {
        LostByOvertaking(start, ids, k, j, l, r);
      }
    }
    forall t | t in start.targets && t !in now.targets
      ensures exists r :: r in start.rules && r.id in ids && r.destination == t
    {
      var r := LostIsSelected(start, ids, t);
    }
    forall t, t' | IsOrphan(start, now, t) && IsOrphan(start, now, t') ensures t == t' {
      OrphanIsLast(start, ids, arns, k, j, now, t);
      OrphanIsLast(start, ids, arns, k, j, now, t');
    }
  }

  /** What is overtaken loses its target while its rule stays. */
  lemma OvertakenIsUnsafe(start: Stored, ids: seq<string>, arns: seq<string>, k: nat, p: nat) returns (l: nat)
    requires UniqueIds(start.rules) && Overtakes(start, ids, k, p) && arns == Found(Destinations(start.rules), ids)
    ensures l < |arns| && l < |ids| && !Safe(start, ids, Stage(start, start.rules, ids, arns, l + 1, l + 1))
  {
    var rules := start.rules;
    l := FoundTarget(rules, ids, p);
    DestinationsKeys(rules, ids[k]);
    assert ids[..p][k] == ids[k];
    FoundShort(Destinations(rules), ids[..p], k);
    RulesAfterIs(rules, ids, l + 1);
    TargetsAfterIs(start.targets, arns, l + 1);
    WithoutHas(rules, Elements(ids[..l + 1]));
    var r := OwnerOf(rules, ids[p]);
    assert forall i :: 0 <= i < l + 1 ==> ids[i] == ids[..p][i];
    assert r.id !in ids[..l + 1];
    assert arns[..l + 1][l] == r.destination;
    var now := Stage(start, rules, ids, arns, l + 1, l + 1);
    assert r in now.rules && r.destination in start.targets && r.destination !in now.targets;
  }

  /** With a library that refuses to remove a rule that is not there, no request does
      harm, not even when the configuration could not be read. With a lenient one the
      configuration must have been read and no id may be overtaken. */
  lemma StagesAreSafe(start: Stored, read: seq<Rule>, ids: seq<string>, arns: seq<string>, lenient: bool, history: seq<Stored>)
    requires UniqueIds(start.rules) && OwnTargets(start.rules)
    requires arns == Found(Destinations(read), ids) && AllStages(start, read, ids, arns, lenient, history)
    requires read == start.rules || read == []
    requires lenient ==> read == start.rules && !Misaligned(start, ids)
    ensures forall h :: 0 <= h < |history| ==> Safe(start, ids, history[h])
  {
    forall h | 0 <= h < |history| ensures Safe(start, ids, history[h]) {
      assert IsSomeStage(start, read, ids, arns, lenient, history[h]);
      var k: nat, j: nat :| IsStage(start, read, ids, arns, lenient, history[h], k, j);
      SomeStageIsSafe(start, read, ids, arns, lenient, history[h], k, j);
    }
  }

  lemma SomeStageIsSafe(start: Stored, read: seq<Rule>, ids: seq<string>, arns: seq<string>, lenient: bool, now: Stored,
                        k: nat, j: nat)
    requires UniqueIds(start.rules) && OwnTargets(start.rules)
    requires arns == Found(Destinations(read), ids) && IsStage(start, read, ids, arns, lenient, now, k, j)
    requires read == start.rules || read == []
    requires lenient ==> read == start.rules && !Misaligned(start, ids)
    ensures Safe(start, ids, now)
  {
    if read == start.rules {
      StageIsSafe(start, ids, arns, k, j);
    } else {
      NothingPresent(ids, k);
    }
  }

  lemma NothingPresent(ids: seq<string>, k: nat)
    requires k <= |ids| && AllPresent([], ids, k)
    ensures k == 0
  {
    assert !HasRule([], if k > 0 then ids[0] else "");
  }

  /** There is a target for each round exactly when every id has a rule. */
  lemma EnoughTargetsIff(rules: seq<Rule>, ids: seq<string>)
    ensures |Found(Destinations(rules), ids)| == |ids| <==> AllPresent(rules, ids, |ids|)
    ensures |Found(Destinations(rules), ids)| <= |ids|
  {
    forall i | 0 <= i < |ids| ensures ids[i] in Destinations(rules) <==> HasRule(rules, ids[i]) {
      DestinationsKeys(rules, ids[i]);
    }
    FoundInStep(Destinations(rules), ids, 0);
    if i: nat :| i < |ids| && !HasRule(rules, ids[i]) {
      FoundShort(Destinations(rules), ids, i);
    } else {
      FoundInStep(Destinations(rules), ids, |ids|);
    }
  }

  /** What is left after a call that removed everything it was asked to remove. */
  ghost predicate Removed(start: Stored, ids: seq<string>, now: Stored) {
    && now.rules == Without(start.rules, Elements(ids))
    && forall t :: t in now.targets <==>
         t in start.targets && !exists r :: r in start.rules && r.id in ids && r.destination == t
  }

  lemma LastStage(start: Stored, ids: seq<string>)
    requires UniqueIds(start.rules) && AllPresent(start.rules, ids, |ids|)
    ensures var arns := Found(Destinations(start.rules), ids);
      |arns| == |ids| && Removed(start, ids, Stage(start, start.rules, ids, arns, |ids|, |ids|))
  {
    var arns := Found(Destinations(start.rules), ids);
    EnoughTargetsIff(start.rules, ids);
    assert ids[..|ids|] == ids && arns[..|ids|] == arns;
    RulesAfterIs(start.rules, ids, |ids|);
    TargetsAfterIs(start.targets, arns, |ids|);
    forall t | t in arns ensures exists r :: r in start.rules && r.id in ids && r.destination == t {
      var r := LostIsSelected(start, ids, t);
    }
    forall r | r in start.rules && r.id in ids ensures r.destination in arns {
      var i: nat :| i < |ids| && ids[i] == r.id;
      var l := TargetPlace(start.rules, ids, arns, i, r);
    }
  }

  lemma EnoughTargets(read: seq<Rule>, ids: seq<string>, k: nat)
    requires k <= |ids| && AllPresent(read, ids, k)
    ensures k <= |Found(Destinations(read), ids)|
  {
    forall i | 0 <= i < k ensures ids[i] in Destinations(read) {
      DestinationsKeys(read, ids[i]);
    }
    FoundInStep(Destinations(read), ids, k);
  }

  /** A call, or what is left of it: its end, what was stored after each request, and what
      is stored at the end. */
  datatype Run = Run(outcome: Outcome, history: seq<Stored>, final: Stored)

  ghost function Before(past: seq<Stored>, r: Run): Run {
    r.(history := past + r.history)
  }

  lemma BeforeBefore(past: seq<Stored>, log: seq<Stored>, r: Run)
    ensures Before(past, Before(log, r)) == Before(past + log, r)
  {
    Regroup(past, log, r.history);
  }

  /** The rounds from `i` on, when request number `c` is the next. */
  ghost function RunFrom(accepts: nat -> bool, lenient: bool, ids: seq<string>, arns: seq<string>,
                         cfg: seq<Rule>, now: Stored, i: nat, c: nat): Run
    requires i <= |ids|
    decreases |ids| - i
  {
    if i == |ids| then Run(Done, [], now)
    else if !accepts(c) || !CanRemove(lenient, cfg, ids[i]) then Run(Failed(i), [now], now)
    else
      var cfg' := Without(cfg, {ids[i]});
      var next := now.(rules := cfg');
      if i >= |arns| then Run(Panic(i), [next], next)
      else if !accepts(c + 1) then Run(Failed(i), [next, next], next)
      else
        var after := next.(targets := next.targets - {arns[i]});
        var r := RunFrom(accepts, lenient, ids, arns, cfg', after, i + 1, c + 2);
        Before([next, after], r)
  }

  /** The call only ever passes through stages. */
  lemma {:induction false} RunStages(accepts: nat -> bool, lenient: bool, start: Stored, read: seq<Rule>,
                                     ids: seq<string>, arns: seq<string>, now: Stored, i: nat, c: nat)
    requires IsStage(start, read, ids, arns, lenient, now, i, i)
    ensures var r := RunFrom(accepts, lenient, ids, arns, RulesAfter(read, ids, i), now, i, c);
      AllStages(start, read, ids, arns, lenient, r.history) &&
      (r.outcome.Done? ==> IsStage(start, read, ids, arns, lenient, r.final, |ids|, |ids|))
    decreases |ids| - i
  {
    var cfg := RulesAfter(read, ids, i);
    assert IsSomeStage(start, read, ids, arns, lenient, now);
    if i < |ids| && accepts(c) && CanRemove(lenient, cfg, ids[i]) {
      if !lenient {
        StillThere(read, ids, i);
      }
      var next := now.(rules := RulesAfter(read, ids, i + 1));
      assert IsStage(start, read, ids, arns, lenient, next, i + 1, i);
      assert IsSomeStage(start, read, ids, arns, lenient, next);
      if i < |arns| && accepts(c + 1) {
        var after := next.(targets := next.targets - {arns[i]});
        assert IsStage(start, read, ids, arns, lenient, after, i + 1, i + 1);
        assert IsSomeStage(start, read, ids, arns, lenient, after);
        RunStages(accepts, lenient, start, read, ids, arns, after, i + 1, c + 2);
        var rest := RunFrom(accepts, lenient, ids, arns, next.rules, after, i + 1, c + 2);
        StagesBefore(start, read, ids, arns, lenient, next, after, rest.history);
      }
    }
  }

  /** A complete round. */
  lemma RunOneRound(accepts: nat -> bool, lenient: bool, ids: seq<string>, arns: seq<string>,
                    cfg: seq<Rule>, now: Stored, i: nat, c: nat)
    requires i < |ids| && i < |arns| && accepts(c) && accepts(c + 1) && CanRemove(lenient, cfg, ids[i])
    ensures var next := now.(rules := Without(cfg, {ids[i]}));
      var after := next.(targets := next.targets - {arns[i]});
      RunFrom(accepts, lenient, ids, arns, cfg, now, i, c) ==
      Before([next, after], RunFrom(accepts, lenient, ids, arns, next.rules, after, i + 1, c + 2))
  {
  }

  lemma BeforeAt(next: Stored, after: Stored, r: Run, g: nat)
    ensures Before([next, after], r).history[1] == after && |Before([next, after], r).history| == |r.history| + 2
    ensures g < |r.history| ==> Before([next, after], r).history[g + 2] == r.history[g]
  {
  }

  /** When every request is accepted, a lenient library ends with an index out of range
      exactly when there are fewer targets than ids. */
  lemma {:induction false} RunOutcome(accepts: nat -> bool, lenient: bool, ids: seq<string>, arns: seq<string>,
                                      cfg: seq<Rule>, now: Stored, i: nat, c: nat)
    requires i <= |ids| && i <= |arns|
    ensures var r := RunFrom(accepts, lenient, ids, arns, cfg, now, i, c);
      !r.outcome.Refused? &&
      (r.outcome.Panic? ==> |arns| < |ids|) &&
      (AllAccepted(accepts, c) && lenient ==> r.outcome == if |arns| < |ids| then Panic(|arns|) else Done)
    decreases |ids| - i
  {
    if i < |ids| && i < |arns| && accepts(c) && accepts(c + 1) && CanRemove(lenient, cfg, ids[i]) {
      var cfg' := Without(cfg, {ids[i]});
      var after := Stored(cfg', now.targets - {arns[i]});
      RunOutcome(accepts, lenient, ids, arns, cfg', after, i + 1, c + 2);
    }
  }

  ghost predicate AllAccepted(accepts: nat -> bool, c: nat) {
    forall k :: k >= c ==> accepts(k)
  }

  /** An accepting, lenient library lets the call reach every stage that there is a target
      for. */
  lemma {:induction false} RunReaches(accepts: nat -> bool, start: Stored, read: seq<Rule>, ids: seq<string>, arns: seq<string>,
                                      now: Stored, i: nat, c: nat, l: nat) returns (h: nat)
    requires AllAccepted(accepts, c) && IsStage(start, read, ids, arns, true, now, i, i) && i <= l < |arns| && l < |ids|
    ensures var r := RunFrom(accepts, true, ids, arns, RulesAfter(read, ids, i), now, i, c);
      h == 2 * (l - i) + 1 < |r.history| && r.history[h] == Stage(start, read, ids, arns, l + 1, l + 1)
    decreases |ids| - i
  {
    var next := now.(rules := RulesAfter(read, ids, i + 1));
    var after := next.(targets := next.targets - {arns[i]});
    assert after == Stage(start, read, ids, arns, i + 1, i + 1);
    var rest := RunFrom(accepts, true, ids, arns, next.rules, after, i + 1, c + 2);
    RunOneRound(accepts, true, ids, arns, RulesAfter(read, ids, i), now, i, c);
    if i == l {
      h := 1;
      BeforeAt(next, after, rest, 0);
    } else {
      var g := RunReaches(accepts, start, read, ids, arns, after, i + 1, c + 2, l);
      h := g + 2;
      BeforeAt(next, after, rest, g);
    }
  }

  /** A strict library never lets the loop run out of targets. */
  lemma {:induction false} StrictNeverPanics(accepts: nat -> bool, read: seq<Rule>, ids: seq<string>,
                                             now: Stored, i: nat, c: nat)
    requires i <= |ids| && AllPresent(read, ids, i)
    ensures var arns := Found(Destinations(read), ids);
      !RunFrom(accepts, false, ids, arns, RulesAfter(read, ids, i), now, i, c).outcome.Panic?
    decreases |ids| - i
  {
    var arns := Found(Destinations(read), ids);
    var cfg := RulesAfter(read, ids, i);
    if i < |ids| && HasRule(cfg, ids[i]) {
      StillThere(read, ids, i);
      EnoughTargets(read, ids, i + 1);
      var after := Stored(RulesAfter(read, ids, i + 1), now.targets - {arns[i]});
      StrictNeverPanics(accepts, read, ids, after, i + 1, c + 2);
    }
  }

  /** The request is in order at place `i`: its id has a rule and was not asked for before. */
  ghost predicate InOrder(rules: seq<Rule>, ids: seq<string>, i: nat) {
    i < |ids| && HasRule(rules, ids[i]) && ids[i] !in ids[..i]
  }

  lemma HasRuleInTurn(read: seq<Rule>, ids: seq<string>, i: nat)
    requires i < |ids|
    ensures HasRule(RulesAfter(read, ids, i), ids[i]) <==> InOrder(read, ids, i)
  {
    RulesAfterIs(read, ids, i);
    WithoutHas(read, Elements(ids[..i]));
    var left := Without(read, Elements(ids[..i]));
    if HasRule(left, ids[i]) {
      var k :| 0 <= k < |left| && left[k].id == ids[i];
      assert left[k] in left;
      RuleHasIt(read, left[k]);
    }
    if InOrder(read, ids, i) {
      var k :| 0 <= k < |read| && read[k].id == ids[i];
      assert read[k] in left;
      RuleHasIt(left, read[k]);
    }
  }

  /** The outcome tells the first place from `i` on where the request is not in order. */
  ghost predicate EndsInOrder(rules: seq<Rule>, ids: seq<string>, i: nat, o: Outcome) {
    match o
    case Done => forall k :: i <= k < |ids| ==> InOrder(rules, ids, k)
    case Failed(round) => i <= round < |ids| && !InOrder(rules, ids, round) && forall k :: i <= k < round ==> InOrder(rules, ids, k)
    case _ => false
  }

  /** A round of a strict library, with its request in order or not. */
  lemma StrictRound(accepts: nat -> bool, read: seq<Rule>, ids: seq<string>, arns: seq<string>, now: Stored, i: nat, c: nat)
    requires i < |ids| && AllPresent(read, ids, i) && accepts(c) && accepts(c + 1) && arns == Found(Destinations(read), ids)
    ensures !InOrder(read, ids, i) ==>
      RunFrom(accepts, false, ids, arns, RulesAfter(read, ids, i), now, i, c).outcome == Failed(i)
    ensures InOrder(read, ids, i) ==>
      && i < |arns| && AllPresent(read, ids, i + 1)
      && RunFrom(accepts, false, ids, arns, RulesAfter(read, ids, i), now, i, c).outcome ==
         RunFrom(accepts, false, ids, arns, RulesAfter(read, ids, i + 1),
                 Stored(RulesAfter(read, ids, i + 1), now.targets - {arns[i]}), i + 1, c + 2).outcome
  {
    HasRuleInTurn(read, ids, i);
    if InOrder(read, ids, i) {
      EnoughTargets(read, ids, i + 1);
      RunOneRound(accepts, false, ids, arns, RulesAfter(read, ids, i), now, i, c);
    }
  }

  /** When every request is accepted, a strict library lets the call end well exactly when
      all ids have a rule and none is repeated; else it ends with an error in the round
      of the first id that has none left. */
  lemma {:induction false} StrictOutcome(accepts: nat -> bool, read: seq<Rule>, ids: seq<string>, arns: seq<string>,
                                         now: Stored, i: nat, c: nat)
    requires i <= |ids| && AllPresent(read, ids, i) && AllAccepted(accepts, c) && arns == Found(Destinations(read), ids)
    ensures EndsInOrder(read, ids, i, RunFrom(accepts, false, ids, arns, RulesAfter(read, ids, i), now, i, c).outcome)
    decreases |ids| - i
  {
    if i < |ids| {
      StrictRound(accepts, read, ids, arns, now, i, c);
      if InOrder(read, ids, i) {
        var after := Stored(RulesAfter(read, ids, i + 1), now.targets - {arns[i]});
        StrictOutcome(accepts, read, ids, arns, after, i + 1, c + 2);
        EndsOneEarlier(read, ids, i,
                       RunFrom(accepts, false, ids, arns, RulesAfter(read, ids, i + 1), after, i + 1, c + 2).outcome);
      }
    }
  }

  lemma EndsOneEarlier(rules: seq<Rule>, ids: seq<string>, i: nat, o: Outcome)
    requires InOrder(rules, ids, i) && EndsInOrder(rules, ids, i + 1, o)
    ensures EndsInOrder(rules, ids, i, o)
  {
  }

  /** The guarantee of a whole call. */
  lemma CallIsSafe(accepts: nat -> bool, lenient: bool, start: Stored, read: seq<Rule>, ids: seq<string>, c: nat)
    requires UniqueIds(start.rules) && OwnTargets(start.rules)
    requires read == start.rules || read == []
    requires lenient ==> read == start.rules && !Misaligned(start, ids)
    ensures var r := RunFrom(accepts, lenient, ids, Found(Destinations(read), ids), read, start, 0, c);
      (forall h :: 0 <= h < |r.history| ==> Safe(start, ids, r.history[h])) &&
      (r.outcome.Panic? ==> lenient && !AllPresent(read, ids, |ids|)) &&
      (r.outcome.Done? && read == start.rules ==> Removed(start, ids, r.final))
  {
    var arns := Found(Destinations(read), ids);
    RunStages(accepts, lenient, start, read, ids, arns, start, 0, c);
    var r := RunFrom(accepts, lenient, ids, arns, read, start, 0, c);
    StagesAreSafe(start, read, ids, arns, lenient, r.history);
    EnoughTargetsIff(read, ids);
    if lenient {
      RunOutcome(accepts, lenient, ids, arns, read, start, 0, c);
    } else {
      StrictNeverPanics(accepts, read, ids, start, 0, c);
    }
    if r.outcome.Done? && read == start.rules {
      LastStage(start, ids);
    }
  }

  /** A lenient library that accepts every request keeps every state safe exactly when no
      id without a rule stands before the first mention of one that has a rule. */
  lemma LenientSafeIff(accepts: nat -> bool, start: Stored, ids: seq<string>, c: nat)
    requires UniqueIds(start.rules) && OwnTargets(start.rules) && AllAccepted(accepts, c)
    ensures var r := RunFrom(accepts, true, ids, Found(Destinations(start.rules), ids), start.rules, start, 0, c);
      (forall h :: 0 <= h < |r.history| ==> Safe(start, ids, r.history[h])) <==> !Misaligned(start, ids)
  {
    if Misaligned(start, ids) {
      var arns := Found(Destinations(start.rules), ids);
      var k: nat, p: nat :| Overtakes(start, ids, k, p);
      var l := OvertakenIsUnsafe(start, ids, arns, k, p);
      var h := RunReaches(accepts, start, start.rules, ids, arns, start, 0, c, l);
    } else {
      CallIsSafe(accepts, true, start, start.rules, ids, c);
    }
  }

  /** A lenient library with a configuration that could not be read: the first accepted
      removal stores an empty configuration, and the call indexes out of range. That is
      harmless only if all rules were selected and at most one had a target. */
  lemma FailedReadWipes(accepts: nat -> bool, start: Stored, ids: seq<string>, c: nat)
    requires ids != [] && accepts(c)
    ensures var r := RunFrom(accepts, true, ids, Found(Destinations([]), ids), [], start, 0, c);
      && r.outcome == Panic(0) && r.history == [r.final] && r.final == Stored([], start.targets)
      && (Safe(start, ids, r.final) <==>
            (forall x :: x in start.rules ==> x.id in ids) &&
            forall t, t' :: t in start.targets && t' in start.targets && Names(start.rules, t) && Names(start.rules, t') ==> t == t')
  {
    EnoughTargetsIff([], ids);
    NothingFound(ids);
    var now := Stored([], start.targets);
    assert forall t :: IsOrphan(start, now, t) <==> t in start.targets && Names(start.rules, t);
  }

  lemma {:induction false} NothingFound(ids: seq<string>)
    ensures Found(map[], ids) == []
  {
    if ids != [] {
      NothingFound(ids[..|ids| - 1]);
    }
  }

  /** The shortest request that does harm: the target goes and the rule stays. */
  lemma MissingIdTakesWrongTarget(accepts: nat -> bool, b: Rule, x: string, c: nat)
    requires AllAccepted(accepts, c) && x != b.id
    ensures var start, ids := Stored([b], {b.destination}), [x, b.id];
      var r := RunFrom(accepts, true, ids, Found(Destinations([b]), ids), [b], start, 0, c);
      |r.history| > 1 && r.history[1] == Stored([b], {})
  {
    var start, ids := Stored([b], {b.destination}), [x, b.id];
    var arns := [b.destination];
    OneFound(b, x);
    assert RulesAfter([b], ids, 1) == Without(RulesAfter([b], ids, 0), {x}) == Without([b], {x});
    WithoutOther(b, x);
    var h := RunReaches(accepts, start, [b], ids, arns, start, 0, c, 0);
    assert TargetsAfter(start.targets, arns, 1) == TargetsAfter(start.targets, arns, 0) - {b.destination} == {};
  }

  lemma OneFound(b: Rule, x: string)
    requires x != b.id
    ensures Found(Destinations([b]), [x, b.id]) == [b.destination]
  {
    var m := map[b.id := b.destination];
    assert [b][..0] == [] && Destinations([b]) == m;
    assert [x, b.id][..1] == [x] && [x][..0] == [];
    assert Found(m, [x]) == [];
  }

  lemma WithoutOther(b: Rule, x: string)
    requires x != b.id
    ensures Without([b], {x}) == [b]
  {
    assert [b][..0] == [] && Without([], {x}) == [];
  }

  /** With a lenient library that accepts every request, the call indexes out of range
      exactly when some requested id has no rule. */
  lemma PanicsIff(accepts: nat -> bool, start: Stored, ids: seq<string>, c: nat)
    requires AllAccepted(accepts, c)
    ensures var r := RunFrom(accepts, true, ids, Found(Destinations(start.rules), ids), start.rules, start, 0, c);
      r.outcome.Panic? <==> !AllPresent(start.rules, ids, |ids|)
  {
    EnoughTargetsIff(start.rules, ids);
    RunOutcome(accepts, true, ids, Found(Destinations(start.rules), ids), start.rules, start, 0, c);
  }

  /** The server behind the clients of one call. Call number `k` is accepted when
      `accepts(k)` holds; there is no other writer. */
  class Bucket {
    const accepts: nat -> bool
    const lenient: bool
    var calls: nat
    var stored: Stored
    /** What was stored after each call. */
    ghost var history: seq<Stored>

    constructor (accepts: nat -> bool, lenient: bool, stored: Stored)
      ensures this.accepts == accepts && this.lenient == lenient && this.stored == stored
      ensures calls == 0 && history == []
    {
      this.accepts, this.lenient, this.stored := accepts, lenient, stored;
      calls, history := 0, [];
    }

    /** The error of this call is only logged; the configuration is then empty. */
    method GetBucketReplication() returns (cfg: seq<Rule>)
      modifies this`calls
      ensures calls == old(calls) + 1
      ensures cfg == if accepts(old(calls)) then stored.rules else []
    {
      cfg := if accepts(calls) then stored.rules else [];
      calls := calls + 1;
    }

    /** Removes the rule from the configuration it is given and stores that. */
    method SetReplication(cfg: seq<Rule>, id: string) returns (ok: bool, cfg': seq<Rule>)
      modifies this`calls, this`stored, this`history
      ensures calls == old(calls) + 1 && history == old(history) + [stored]
      ensures ok <==> accepts(old(calls)) && CanRemove(lenient, cfg, id)
      ensures cfg' == if ok then Without(cfg, {id}) else cfg
      ensures stored == if ok then old(stored).(rules := cfg') else old(stored)
    {
      var present := exists i :: 0 <= i < |cfg| && cfg[i].id == id;
      ok := accepts(calls) && (lenient || present);
      cfg' := cfg;
      calls := calls + 1;
      if ok {
        cfg' := Without(cfg, {id});
        stored := stored.(rules := cfg');
      }
      history := history + [stored];
    }

    method DeleteRemoteBucket(arn: string) returns (ok: bool)
      modifies this`calls, this`stored, this`history
      ensures calls == old(calls) + 1 && history == old(history) + [stored]
      ensures ok == accepts(old(calls))
      ensures stored == if ok then old(stored).(targets := old(stored).targets - {arn}) else old(stored)
    {
      ok := accepts(calls);
      calls := calls + 1;
      if ok {
        stored := stored.(targets := stored.targets - {arn});
      }
      history := history + [stored];
    }

    /** One round: the rule `ids[i]`, then its target. */
    method RemoveOne(cfg: seq<Rule>, ids: seq<string>, arns: seq<string>, i: nat)
      returns (cfg': seq<Rule>, outcome: Outcome, ghost log: seq<Stored>)
      requires i < |ids|
      modifies this`calls, this`stored, this`history
      ensures history == old(history) + log
      ensures RunFrom(accepts, lenient, ids, arns, cfg, old(stored), i, old(calls)) ==
        if outcome.Done? then Before(log, RunFrom(accepts, lenient, ids, arns, cfg', stored, i + 1, calls))
        else Run(outcome, log, stored)
    {
      var ok;
      ok, cfg' := SetReplication(cfg, ids[i]);
      log := [stored];
      if !ok {
        return cfg', Failed(i), log;
      }
      if i >= |arns| {
        return cfg', Panic(i), log;
      }
      ok := DeleteRemoteBucket(arns[i]);
      log := log + [stored];
      outcome := if ok then Done else Failed(i);
    }

    /** `connected` says whether all clients could be made. */
    method DeleteSelectedReplicationRules(ids: seq<string>, connected: bool) returns (outcome: Outcome)
      modifies this`calls, this`stored, this`history
      ensures !connected ==> outcome == Refused && stored == old(stored) && history == old(history)
      ensures connected ==>
        var read := if accepts(old(calls)) then old(stored).rules else [];
        var r := RunFrom(accepts, lenient, ids, Found(Destinations(read), ids), read, old(stored), 0, old(calls) + 1);
        Run(outcome, history, stored) == Before(old(history), r)
    {
      if !connected {
        return Refused;
      }
      var cfg := GetBucketReplication();
      var arns := GetARNsFromIDs(cfg, ids);
      ghost var whole := Before(history, RunFrom(accepts, lenient, ids, arns, cfg, stored, 0, calls));
      for i := 0 to |ids|
        invariant whole == Before(history, RunFrom(accepts, lenient, ids, arns, cfg, stored, i, calls))
      {
        ghost var past := history;
        ghost var log;
        cfg, outcome, log := RemoveOne(cfg, ids, arns, i);
        if !outcome.Done? {
          return;
        }
        BeforeBefore(past, log, RunFrom(accepts, lenient, ids, arns, cfg, stored, i + 1, calls));
      }
      return Done;
    }
  }
}
