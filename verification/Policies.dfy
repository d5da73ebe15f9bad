/** Assigning policies to several users and groups, and collecting a user's policies:
    `api/admin_policies.go`. */
module Policies {
  import opened Lists
  import opened Text
  import opened Wrappers

  // ---------- what a group's policy string becomes ----------

  /** The string written for a group whose policy string was `was`. */
  function NewGroupPolicy(was: string, policyName: string, multi: bool): string {
    if multi then Join(Unique(Split(was + "," + policyName, ',')), ',') else policyName
  }

  /** Read back, the string written in multi-group mode is the first-occurrence list of
      the old policies followed by the new ones. */
  lemma NewPolicyList(was: string, policyName: string)
    ensures Split(NewGroupPolicy(was, policyName, true), ',') == Unique(Split(was, ',') + Split(policyName, ','))
  {
    var parts := Split(was, ',') + Split(policyName, ',');
    SplitConcat(was, ',', policyName);
    assert was + "," + policyName == was + ([','] + policyName);
    SplitPartsAreFree(was + "," + policyName, ',');
    assert parts[0] in parts;
    assert parts[0] in Unique(parts);
    SplitJoin(Unique(parts), ',');
  }

  /** No policy is lost and none appears from nowhere; the old ones come first, in their
      order, and nothing is there twice. */
  lemma NoPolicyLost(was: string, policyName: string)
    ensures var list := Split(NewGroupPolicy(was, policyName, true), ',');
      && NoDuplicates(list)
      && (forall p :: p in list <==> p in Split(was, ',') || p in Split(policyName, ','))
      && Unique(Split(was, ',')) <= list
  {
    NewPolicyList(was, policyName);
    UniqueOfFront(Split(was, ','), Split(policyName, ','));
  }

  /** Assigning the same policies once more writes the same string. */
  lemma NewPolicyIdempotent(was: string, policyName: string, multi: bool)
    ensures var once := NewGroupPolicy(was, policyName, multi); NewGroupPolicy(once, policyName, multi) == once
  {
    if multi {
      var once := NewGroupPolicy(was, policyName, true);
      var twice := NewGroupPolicy(once, policyName, true);
      NewPolicyList(was, policyName);
      NewPolicyList(once, policyName);
      UniqueAbsorbs(Split(once, ','), Split(policyName, ','));
      UniqueFixed(Split(once, ','));
      JoinSplit(once, ',');
      JoinSplit(twice, ',');
    }
  }

  /** In multi-group mode the written list starts with an empty name exactly when the
      group had no policy string, or one that started with a comma. */
  lemma EmptyFirstName(was: string, policyName: string)
    ensures Split(NewGroupPolicy(was, policyName, true), ',')[0] == "" <==> was == "" || was[0] == ','
  {
    NewPolicyList(was, policyName);
    var parts := Split(was, ',') + Split(policyName, ',');
    UniqueOfFront([parts[0]], parts[1..]);
    assert [parts[0]] + parts[1..] == parts;
    assert [parts[0]][..0] == [];
    assert Unique([parts[0]]) == [parts[0]];
  }

  // ---------- the whole assignment ----------

  /** The users' policy strings after the first `n` have been written. */
  ghost function SetUsers(policies: map<string, string>, users: seq<string>, n: nat, policyName: string): map<string, string>
    requires n <= |users|
  {
    if n == 0 then policies else SetUsers(policies, users, n - 1, policyName)[users[n - 1] := policyName]
  }

  /** The groups' policy strings after the first `n` of the list have been written; each
      write starts from what is there at that moment. */
  ghost function SetGroups(policies: map<string, string>, groups: seq<string>, n: nat, policyName: string): (r: map<string, string>)
    requires n <= |groups|
    requires forall i :: 0 <= i < n ==> groups[i] in policies
    ensures r.Keys == policies.Keys
  {
    if n == 0 then policies
    else
      var before := SetGroups(policies, groups, n - 1, policyName);
      var g := groups[n - 1];
      before[g := NewGroupPolicy(before[g], policyName, |groups| > 1)]
  }

  /** A user ends with the new policy exactly when it is among the written ones. */
  lemma {:induction false} SetUsersEffect(policies: map<string, string>, users: seq<string>, n: nat, policyName: string)
    requires n <= |users|
    ensures var after := SetUsers(policies, users, n, policyName);
      && after.Keys == policies.Keys + (set u | u in users[..n])
      && forall u :: u in after ==> after[u] == if u in users[..n] then policyName else policies[u]
  {
    if n > 0 {
      SetUsersEffect(policies, users, n - 1, policyName);
      assert users[..n] == users[..n - 1] + [users[n - 1]];
    }
  }

  /** A group ends with its merged policy exactly when it is among the written ones,
      also when the list names it more than once. */
  lemma {:induction false} SetGroupsEffect(policies: map<string, string>, groups: seq<string>, n: nat, policyName: string, g: string)
    requires n <= |groups| && g in policies
    requires forall i :: 0 <= i < n ==> groups[i] in policies
    ensures SetGroups(policies, groups, n, policyName)[g] ==
      if g in groups[..n] then NewGroupPolicy(policies[g], policyName, |groups| > 1) else policies[g]
  {
    if n > 0 {
      SetGroupsEffect(policies, groups, n - 1, policyName, g);
      assert groups[..n] == groups[..n - 1] + [groups[n - 1]];
      NewPolicyIdempotent(policies[g], policyName, |groups| > 1);
    }
  }

  /** Repeating the whole assignment changes nothing more. */
  lemma AssignmentIdempotent(userPolicies: map<string, string>, groupPolicies: map<string, string>,
                             users: seq<string>, groups: seq<string>, policyName: string)
    requires forall i :: 0 <= i < |groups| ==> groups[i] in groupPolicies
    ensures var u, g := SetUsers(userPolicies, users, |users|, policyName), SetGroups(groupPolicies, groups, |groups|, policyName);
      SetUsers(u, users, |users|, policyName) == u && SetGroups(g, groups, |groups|, policyName) == g
  {
    var u, g := SetUsers(userPolicies, users, |users|, policyName), SetGroups(groupPolicies, groups, |groups|, policyName);
    SetUsersEffect(userPolicies, users, |users|, policyName);
    SetUsersEffect(u, users, |users|, policyName);
    forall k | k in g ensures SetGroups(g, groups, |groups|, policyName)[k] == g[k] {
      SetGroupsEffect(groupPolicies, groups, |groups|, policyName, k);
      SetGroupsEffect(g, groups, |groups|, policyName, k);
      NewPolicyIdempotent(groupPolicies[k], policyName, |groups| > 1);
    }
  }

  /** The server's policy strings; `groupPolicies` has an entry for every group. Call
      number `k` is accepted when `accepts(k)` holds. */
  class PolicyAdmin {
    const accepts: nat -> bool
    var calls: nat
    var userPolicies: map<string, string>
    var groupPolicies: map<string, string>

    constructor (accepts: nat -> bool, userPolicies: map<string, string>, groupPolicies: map<string, string>)
      ensures this.accepts == accepts && calls == 0
      ensures this.userPolicies == userPolicies && this.groupPolicies == groupPolicies
    {
      this.accepts, calls := accepts, 0;
      this.userPolicies, this.groupPolicies := userPolicies, groupPolicies;
    }

    method SetPolicy(name: string, entity: string, isGroup: bool) returns (ok: bool)
      modifies this
      ensures ok == accepts(old(calls)) && calls == old(calls) + 1
      ensures userPolicies == if ok && !isGroup then old(userPolicies)[entity := name] else old(userPolicies)
      ensures groupPolicies == if ok && isGroup then old(groupPolicies)[entity := name] else old(groupPolicies)
    {
      ok := accepts(calls);
      calls := calls + 1;
      if ok && isGroup {
        groupPolicies := groupPolicies[entity := name];
      } else if ok {
        userPolicies := userPolicies[entity := name];
      }
    }

    method GroupPolicy(group: string) returns (ok: bool, policy: string)
      modifies this`calls
      ensures calls == old(calls) + 1
      ensures ok <==> accepts(old(calls)) && group in groupPolicies
      ensures ok ==> policy == groupPolicies[group]
    {
      ok := accepts(calls) && group in groupPolicies;
      calls := calls + 1;
      policy := if ok then groupPolicies[group] else "";
    }

    /** One group of the list: read its policy string, and write the new one. */
    method SetGroupPolicy(policyName: string, group: string, multi: bool) returns (ok: bool)
      modifies this
      ensures old(calls) < calls && (!ok ==> !accepts(calls - 1) || group !in old(groupPolicies))
      ensures ok ==> group in old(groupPolicies)
      ensures ok ==> groupPolicies == old(groupPolicies)[group := NewGroupPolicy(old(groupPolicies)[group], policyName, multi)]
      ensures !ok ==> groupPolicies == old(groupPolicies)
      ensures userPolicies == old(userPolicies)
    {
      var policy;
      ok, policy := GroupPolicy(group);
      if ok {
        var allGroupPolicies := "";
        if multi {
          allGroupPolicies := policy + "," + policyName;
          var s := Split(allGroupPolicies, ',');
          var unique := UniqueKeys(s);
          allGroupPolicies := Join(unique, ',');
        } else {
          allGroupPolicies := policyName;
        }
        ok := SetPolicy(allGroupPolicies, group, true);
      }
    }

    method SetGroupPolicies(policyName: string, groups: seq<string>) returns (ok: bool, ghost written: nat)
      modifies this
      ensures written <= |groups| && (ok <==> written == |groups|)
      ensures forall i :: 0 <= i < written ==> groups[i] in old(groupPolicies)
      ensures groupPolicies == SetGroups(old(groupPolicies), groups, written, policyName)
      ensures userPolicies == old(userPolicies)
      ensures !ok ==> calls > 0 && (!accepts(calls - 1) || groups[written] !in old(groupPolicies))
    {
      ok, written := true, 0;
      for i := 0 to |groups|
        invariant ok && written == i
        invariant forall j :: 0 <= j < i ==> groups[j] in old(groupPolicies)
        invariant groupPolicies == SetGroups(old(groupPolicies), groups, i, policyName)
        invariant userPolicies == old(userPolicies)
      {
        ok := SetGroupPolicy(policyName, groups[i], |groups| > 1);
        if !ok {
          return;
        }
        written := written + 1;
      }
    }

    /** Users first, then groups, stopping at the first failure: at every return
        exactly a prefix of users-then-groups has been written, all of it on success. */
    method SetPolicyMultipleEntities(policyName: string, users: seq<string>, groups: seq<string>)
      returns (ok: bool, ghost written: nat)
      modifies this
      ensures written <= |users| + |groups| && (ok <==> written == |users| + |groups|)
      ensures written <= |users| ==>
        userPolicies == SetUsers(old(userPolicies), users, written, policyName) && groupPolicies == old(groupPolicies)
      ensures written > |users| ==>
        && userPolicies == SetUsers(old(userPolicies), users, |users|, policyName)
        && (forall i :: 0 <= i < written - |users| ==> groups[i] in old(groupPolicies))
        && groupPolicies == SetGroups(old(groupPolicies), groups, written - |users|, policyName)
      ensures !ok ==> calls > 0
      ensures !ok && accepts(calls - 1) ==> written >= |users| && groups[written - |users|] !in old(groupPolicies)
    {
      written := 0;
      for i := 0 to |users|
        invariant written == i
        invariant userPolicies == SetUsers(old(userPolicies), users, i, policyName)
        invariant groupPolicies == old(groupPolicies)
      {
        ok := SetPolicy(policyName, users[i], false);
        if !ok {
          return;
        }
        written := written + 1;
      }
      ghost var n;
      ok, n := SetGroupPolicies(policyName, groups);
      written := |users| + n;
    }
  }

  // ---------- the policies that apply to one user ----------

  /** The names in the non-empty policy strings, in order. */
  ghost function AllNames(policies: seq<string>): seq<string> {
    if policies == [] then []
    else
      var last := policies[|policies| - 1];
      AllNames(policies[..|policies| - 1]) + if last == "" then [] else Split(last, ',')
  }

  /** The policy strings, when every look-up succeeded. */
  ghost function Strings(answers: seq<Option<string>>): seq<string>
    requires forall i :: 0 <= i < |answers| ==> answers[i].Some?
  {
    seq(|answers|, i requires 0 <= i < |answers| => answers[i].value)
  }

  /** The user's own policies and then those of the groups, each name once. `user` and
      `groups` are the answers of the look-ups; the first failed one ends the call. */
  method EffectivePolicyNames(user: Option<string>, groups: seq<Option<string>>) returns (userPolicyList: Option<seq<string>>)
    ensures userPolicyList.Some? <==> user.Some? && forall i :: 0 <= i < |groups| ==> groups[i].Some?
    ensures userPolicyList.Some? ==>
      userPolicyList.value == Unique((if user.value == "" then [] else Split(user.value, ',')) + AllNames(Strings(groups)))
  {
    if user.None? {
      return None;
    }
    var userPolicies: seq<string> := [];
    if |user.value| > 0 {
      userPolicies := Split(user.value, ',');
    }
    ghost var own := userPolicies;
    for i := 0 to |groups|
      invariant forall j :: 0 <= j < i ==> groups[j].Some?
      invariant userPolicies == own + AllNames(Strings(groups[..i]))
    {
      if groups[i].None? {
        return None;
      }
      NamesStep(own, groups, i);
      if groups[i].value != "" {
        userPolicies := userPolicies + Split(groups[i].value, ',');
      }
    }
    assert groups[..|groups|] == groups;
    var list := UniqueKeys(userPolicies);
    userPolicyList := Some(list);
  }

  lemma NamesStep(own: seq<string>, groups: seq<Option<string>>, i: nat)
    requires i < |groups| && forall j :: 0 <= j <= i ==> groups[j].Some?
    ensures own + AllNames(Strings(groups[..i + 1])) ==
      own + AllNames(Strings(groups[..i])) + if groups[i].value == "" then [] else Split(groups[i].value, ',')
  {
    var before, names := AllNames(Strings(groups[..i])), if groups[i].value == "" then [] else Split(groups[i].value, ',');
    assert Strings(groups[..i + 1])[..i] == Strings(groups[..i]);
    Regroup(own, before, names);
  }
}
