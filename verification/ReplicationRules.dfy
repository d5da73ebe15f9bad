/** Replication rules of a bucket: the choice of a priority, the two look-ups of a remote
    target by rule, and the removal of selected rules, from `api/admin_remote_buckets.go`. */
module ReplicationRules {
  import opened Machine

  const MAX_INT64: int64 := 0x7FFF_FFFF_FFFF_FFFF
  const MIN_INT64: int64 := -0x8000_0000_0000_0000

  /** A rule, as far as it is used here: `destination` is the ARN of its remote target. */
  datatype Rule = Rule(id: string, priority: int64, destination: string)

  // ---------- the next priority ----------

  /** Go's `x + 1` on a 64-bit `int`. */
  function Increment(x: int64): int64 {
    if x == MAX_INT64 then MIN_INT64 else x + 1
  }

  /** The highest priority in use, or 0. */
  function Highest(rules: seq<Rule>): int64 {
    if rules == [] then 0
    else
      var h, last := Highest(rules[..|rules| - 1]), rules[|rules| - 1].priority;
      if last > h then last else h
  }

  lemma {:induction false} HighestIs(rules: seq<Rule>)
    ensures Highest(rules) >= 0
    ensures forall r :: r in rules ==> r.priority <= Highest(rules)
    ensures Highest(rules) == 0 || exists r :: r in rules && r.priority == Highest(rules)
  {
    if rules != [] {
      var n := |rules| - 1;
      HighestIs(rules[..n]);
      assert rules == rules[..n] + [rules[n]];
      if Highest(rules) == rules[n].priority {
        assert rules[n] in rules;
      }
    }
  }

  /** A priority that the user picked is taken as it is. */
  function Chosen(rules: seq<Rule>, priority: int32): int64 {
    if priority > 0 then priority as int64 else Increment(Highest(rules))
  }

  /** The priority that a new rule gets. A default priority is positive and above all
      others, and no higher than it must be, exactly as long as no rule holds the highest
      machine integer; then it wraps around to the lowest. */
  method ChoosePriority(rules: seq<Rule>, priority: int32) returns (chosen: int64)
    ensures chosen == Chosen(rules, priority)
    ensures priority <= 0 ==>
      ((chosen >= 1 && forall r :: r in rules ==> r.priority < chosen) <==>
       forall r :: r in rules ==> r.priority != MAX_INT64)
    ensures priority <= 0 && chosen > 1 ==> exists r :: r in rules && r.priority == chosen - 1
  {
    var maxPrio: int64 := 0;
    if priority <= 0 {
      for i := 0 to |rules|
        invariant maxPrio == Highest(rules[..i])
      {
        assert rules[..i + 1][..i] == rules[..i];
        if rules[i].priority > maxPrio {
          maxPrio := rules[i].priority;
        }
      }
      assert rules[..|rules|] == rules;
      HighestIs(rules);
      maxPrio := Increment(maxPrio);
    } else {
      maxPrio := priority as int64;
    }
    return maxPrio;
  }

  /** A run of adds with the default priority; where the new rule is put does not matter. */
  ghost predicate IsAddRun(states: seq<seq<Rule>>, added: seq<Rule>) {
    && |states| == |added| + 1
    && forall k :: 0 <= k < |added| ==> Adds(states[k], added[k], states[k + 1])
  }

  ghost predicate Adds(before: seq<Rule>, rule: Rule, after: seq<Rule>) {
    rule.priority == Increment(Highest(before)) && multiset(after) == multiset(before) + multiset{rule}
  }

  lemma AddsMember(before: seq<Rule>, rule: Rule, after: seq<Rule>, r: Rule)
    requires Adds(before, rule, after)
    ensures r in after <==> r in before || r == rule
  {
    assert r in after <==> r in multiset(after);
    assert r in before <==> r in multiset(before);
  }

  lemma HighestAfter(before: seq<Rule>, rule: Rule, after: seq<Rule>)
    requires Adds(before, rule, after)
    ensures Highest(after) == if Highest(before) == MAX_INT64 then MAX_INT64 else Highest(before) + 1
  {
    HighestIs(before);
    HighestIs(after);
    forall r ensures r in after <==> r in before || r == rule {
      AddsMember(before, rule, after, r);
    }
  }

  /** The k-th default priority is the highest before the run plus k + 1, and the lowest
      machine integer once there is no room above. */
  lemma {:induction false} PriorityOfRun(states: seq<seq<Rule>>, added: seq<Rule>, k: nat)
    requires IsAddRun(states, added) && k < |added|
    ensures var p := Highest(states[0]) as int + 1 + k;
      added[k].priority as int == if p <= MAX_INT64 as int then p else MIN_INT64 as int
    ensures Highest(states[k]) as int ==
      var h := Highest(states[0]) as int + k; if h <= MAX_INT64 as int then h else MAX_INT64 as int
  {
    if k > 0 {
      PriorityOfRun(states, added, k - 1);
      HighestAfter(states[k - 1], added[k - 1], states[k]);
    }
    assert Adds(states[k], added[k], states[k + 1]);
  }

  /** The priorities that a run adds grow strictly, so are pairwise distinct, and each is
      above all rules present when it is added, exactly when they fit below the machine
      limit. */
  lemma PrioritiesGrowIff(states: seq<seq<Rule>>, added: seq<Rule>)
    requires IsAddRun(states, added) && added != []
    ensures (forall k :: 0 <= k < |added| ==>
               added[k].priority >= 1 &&
               (forall r :: r in states[k] ==> r.priority < added[k].priority) &&
               (forall j :: 0 <= j < k ==> added[j].priority < added[k].priority)) <==>
            Highest(states[0]) as int + |added| <= MAX_INT64 as int
  {
    PriorityOfRun(states, added, |added| - 1);
    if Highest(states[0]) as int + |added| <= MAX_INT64 as int {
      forall k | 0 <= k < |added|
        ensures added[k].priority >= 1
        ensures forall r :: r in states[k] ==> r.priority < added[k].priority
        ensures forall j :: 0 <= j < k ==> added[j].priority < added[k].priority
      {
        PriorityOfRun(states, added, k);
        HighestIs(states[k]);
        forall j | 0 <= j < k ensures added[j].priority < added[k].priority {
          PriorityOfRun(states, added, j);
        }
      }
    }
  }

  // ---------- from rules to targets ----------

  ghost predicate HasRule(rules: seq<Rule>, id: string) {
    exists i :: 0 <= i < |rules| && rules[i].id == id
  }

  ghost predicate UniqueIds(rules: seq<Rule>) {
    forall i, j :: 0 <= i < j < |rules| ==> rules[i].id != rules[j].id
  }

  /** The destination of the first rule with this id. */
  function FirstDestination(rules: seq<Rule>, id: string): string {
    if rules == [] then ""
    else if rules[0].id == id then rules[0].destination
    else FirstDestination(rules[1..], id)
  }

  /** For each id the destination of its last rule. */
  function Destinations(rules: seq<Rule>): map<string, string> {
    if rules == [] then map[]
    else
      var last := rules[|rules| - 1];
      Destinations(rules[..|rules| - 1])[last.id := last.destination]
  }

  function Found(m: map<string, string>, ids: seq<string>): seq<string> {
    if ids == [] then []
    else
      var last := ids[|ids| - 1];
      Found(m, ids[..|ids| - 1]) + if last in m then [m[last]] else []
  }

  method GetARNFromID(rules: seq<Rule>, id: string) returns (arn: string)
    ensures arn == FirstDestination(rules, id)
    ensures !HasRule(rules, id) ==> arn == ""
  {
    for i := 0 to |rules|
      invariant forall j :: 0 <= j < i ==> rules[j].id != id
      invariant FirstDestination(rules, id) == FirstDestination(rules[i..], id)
    {
      if rules[i].id == id {
        return rules[i].destination;
      }
      assert rules[i..][1..] == rules[i + 1..];
    }
    return "";
  }

  method GetARNsFromIDs(rules: seq<Rule>, ids: seq<string>) returns (arns: seq<string>)
    ensures arns == Found(Destinations(rules), ids)
  {
    var temp: map<string, string> := map[];
    for i := 0 to |rules|
      invariant temp == Destinations(rules[..i])
    {
      assert rules[..i + 1][..i] == rules[..i];
      temp := temp[rules[i].id := rules[i].destination];
    }
    assert rules[..|rules|] == rules;
    arns := [];
    for i := 0 to |ids|
      invariant arns == Found(temp, ids[..i])
    {
      assert ids[..i + 1][..i] == ids[..i];
      if ids[i] in temp {
        arns := arns + [temp[ids[i]]];
      }
    }
    assert ids[..|ids|] == ids;
  }

  ghost predicate IsFirst(rules: seq<Rule>, i: nat) {
    i < |rules| && forall j :: 0 <= j < i ==> rules[j].id != rules[i].id
  }

  ghost predicate IsLast(rules: seq<Rule>, i: nat) {
    i < |rules| && forall j :: i < j < |rules| ==> rules[j].id != rules[i].id
  }

  lemma {:induction false} DestinationsKeys(rules: seq<Rule>, id: string)
    ensures id in Destinations(rules) <==> HasRule(rules, id)
  {
    if rules != [] {
      var n := |rules| - 1;
      DestinationsKeys(rules[..n], id);
      if i :| 0 <= i < n && rules[i].id == id {
        assert rules[..n][i].id == id;
      } else if rules[n].id == id {
        assert HasRule(rules, id);
      } else {
        assert !HasRule(rules, id);
      }
    }
  }

  lemma {:induction false} DestinationsIs(rules: seq<Rule>, i: nat)
    requires IsLast(rules, i)
    ensures rules[i].id in Destinations(rules) && Destinations(rules)[rules[i].id] == rules[i].destination
  {
    var n := |rules| - 1;
    if i < n {
      assert rules[n].id != rules[i].id;
      DestinationsIs(rules[..n], i);
    }
  }

  lemma {:induction false} LastExists(rules: seq<Rule>, i: nat) returns (last: nat)
    requires i < |rules|
    ensures IsLast(rules, last) && i <= last && rules[last].id == rules[i].id
    decreases |rules| - i
  {
    if j: nat :| i < j < |rules| && rules[j].id == rules[i].id {
      last := LastExists(rules, j);
    } else {
      last := i;
    }
  }

  lemma {:induction false} FirstDestinationIs(rules: seq<Rule>, i: nat)
    requires IsFirst(rules, i)
    ensures FirstDestination(rules, rules[i].id) == rules[i].destination
  {
    if i > 0 {
      assert rules[0].id != rules[i].id;
      FirstDestinationIs(rules[1..], i - 1);
    }
  }

  lemma {:induction false} FirstExists(rules: seq<Rule>, i: nat) returns (first: nat)
    requires i < |rules|
    ensures IsFirst(rules, first) && first <= i && rules[first].id == rules[i].id
  {
    if j: nat :| j < i && rules[j].id == rules[i].id {
      first := FirstExists(rules, j);
    } else {
      first := i;
    }
  }

  /** The requested ids that have a rule, each looked up on its own. */
  ghost function Scan(rules: seq<Rule>, ids: seq<string>): seq<string> {
    if ids == [] then []
    else
      var last := ids[|ids| - 1];
      Scan(rules, ids[..|ids| - 1]) + if HasRule(rules, last) then [FirstDestination(rules, last)] else []
  }

  /** The first and the last rule of an id name the same target. */
  ghost predicate FirstsMatchLasts(rules: seq<Rule>) {
    forall i: nat, j: nat :: IsFirst(rules, i) && IsLast(rules, j) && rules[i].id == rules[j].id ==>
      rules[i].destination == rules[j].destination
  }

  lemma SameDestination(rules: seq<Rule>, id: string)
    requires FirstsMatchLasts(rules) && HasRule(rules, id)
    ensures id in Destinations(rules) && Destinations(rules)[id] == FirstDestination(rules, id)
  {
    var k: nat :| k < |rules| && rules[k].id == id;
    var j := LastExists(rules, k);
    DestinationsIs(rules, j);
    var i := FirstExists(rules, j);
    FirstDestinationIs(rules, i);
  }

  lemma {:induction false} ScanIsFound(rules: seq<Rule>, ids: seq<string>)
    requires FirstsMatchLasts(rules)
    ensures Found(Destinations(rules), ids) == Scan(rules, ids)
  {
    if ids != [] {
      var last := ids[|ids| - 1];
      ScanIsFound(rules, ids[..|ids| - 1]);
      DestinationsKeys(rules, last);
      if HasRule(rules, last) {
        SameDestination(rules, last);
      }
    }
  }

  /** The map and the linear scan give the same targets for every request exactly when
      repeated ids do not matter; with unique ids they always do. */
  lemma LookupsAgreeIff(rules: seq<Rule>)
    ensures (forall ids :: Found(Destinations(rules), ids) == Scan(rules, ids)) <==> FirstsMatchLasts(rules)
    ensures UniqueIds(rules) ==> FirstsMatchLasts(rules)
  {
    if FirstsMatchLasts(rules) {
      forall ids ensures Found(Destinations(rules), ids) == Scan(rules, ids) {
        ScanIsFound(rules, ids);
      }
    } else {
      var i: nat, j: nat :| IsFirst(rules, i) && IsLast(rules, j) && rules[i].id == rules[j].id &&
        rules[i].destination != rules[j].destination;
      var id := rules[i].id;
      DestinationsIs(rules, j);
      FirstDestinationIs(rules, i);
      assert Found(Destinations(rules), [id]) == [rules[j].destination] by {
        assert [id][..0] == [];
      }
      assert Scan(rules, [id]) == [rules[i].destination] by {
        assert [id][..0] == [];
      }
    }
  }

  /** As long as all ids have been found, the answer is in step with the request. */
  lemma {:induction false} FoundInStep(m: map<string, string>, ids: seq<string>, k: nat)
    requires k <= |ids| && forall i :: 0 <= i < k ==> ids[i] in m
    ensures k <= |Found(m, ids)| <= |ids|
    ensures forall i :: 0 <= i < k ==> Found(m, ids)[i] == m[ids[i]]
  {
    if ids != [] {
      var n := |ids| - 1;
      FoundInStep(m, ids[..n], if k <= n then k else n);
    }
  }

  lemma {:induction false} FoundShort(m: map<string, string>, ids: seq<string>, k: nat)
    requires k < |ids| && ids[k] !in m
    ensures |Found(m, ids)| < |ids|
  {
    var n := |ids| - 1;
    FoundInStep(m, ids[..n], 0);
    if k < n {
      FoundShort(m, ids[..n], k);
    }
  }

  lemma {:induction false} FoundConcat(m: map<string, string>, a: seq<string>, b: seq<string>)
    ensures Found(m, a + b) == Found(m, a) + Found(m, b)
  {
    if b == [] {
      assert a + b == a;
    } else {
      var n := |b| - 1;
      assert (a + b)[..|a| + n] == a + b[..n];
      FoundConcat(m, a, b[..n]);
    }
  }

  /** A requested id that is found at place `p` has its answer at the place that counts
      the found ids before it. */
  lemma FoundPlace(m: map<string, string>, ids: seq<string>, p: nat)
    requires p < |ids| && ids[p] in m
    ensures var l := |Found(m, ids[..p])|; l <= p && l < |Found(m, ids)| && Found(m, ids)[l] == m[ids[p]]
  {
    FoundInStep(m, ids[..p], 0);
    FoundConcat(m, ids[..p + 1], ids[p + 1..]);
    assert ids[..p + 1][..p] == ids[..p] && ids[..p + 1] + ids[p + 1..] == ids;
  }

  lemma {:induction false} FoundSource(m: map<string, string>, ids: seq<string>, l: nat) returns (p: nat)
    requires l < |Found(m, ids)|
    ensures p < |ids| && ids[p] in m && |Found(m, ids[..p])| == l && Found(m, ids)[l] == m[ids[p]]
  {
    var n := |ids| - 1;
    if l < |Found(m, ids[..n])| {
      p := FoundSource(m, ids[..n], l);
      assert ids[..n][..p] == ids[..p];
    } else {
      p := n;
    }
  }

  lemma FoundGrows(m: map<string, string>, ids: seq<string>, p: nat, q: nat)
    requires p <= q <= |ids|
    ensures |Found(m, ids[..p])| <= |Found(m, ids[..q])|
  {
    FoundConcat(m, ids[..p], ids[p..q]);
    assert ids[..p] + ids[p..q] == ids[..q];
  }

  /** The answer has one target for each requested id, in step, exactly when every id has
      a rule. */
  lemma InStepIff(rules: seq<Rule>, ids: seq<string>)
    requires UniqueIds(rules)
    ensures var arns := Found(Destinations(rules), ids);
      (|arns| == |ids| && forall i :: 0 <= i < |ids| ==> arns[i] == FirstDestination(rules, ids[i])) <==>
      forall i :: 0 <= i < |ids| ==> HasRule(rules, ids[i])
  {
    LookupsAgreeIff(rules);
    var m := Destinations(rules);
    forall i | 0 <= i < |ids| ensures ids[i] in m <==> HasRule(rules, ids[i]) {
      DestinationsKeys(rules, ids[i]);
    }
    if k: nat :| k < |ids| && !HasRule(rules, ids[k]) {
      FoundShort(m, ids, k);
    } else {
      FoundInStep(m, ids, |ids|);
      forall i | 0 <= i < |ids| ensures m[ids[i]] == FirstDestination(rules, ids[i]) {
        SameDestination(rules, ids[i]);
      }
    }
  }
}
