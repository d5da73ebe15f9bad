/** The group assignment of `api/admin_users.go`: one user to many groups, many users to
    many groups, and user creation. */
module UserGroups {
  import opened Wrappers
  import opened Lists
  import opened Iam
  import opened FanOut
  import opened GroupFanOut
  import Text

  /** `madmin.UserInfo` */
  datatype UserInfo = UserInfo(memberOf: seq<string>, policyName: string, status: string)

  /** `models.User` */
  datatype User = User(accessKey: string, memberOf: seq<string>, policy: seq<string>, status: string)

  // ---------- updateUserGroups ----------

  /** The groups that get a goroutine. */
  function Merged(memberOf: seq<string>, assign: seq<string>): seq<string> {
    Unique(memberOf + assign)
  }

  function UpdateJob(user: string, memberOf: seq<string>, assign: seq<string>, g: string): Job {
    if g in assign && g in memberOf then NoCall else Call(MemberRequest(g, [user], g !in assign))
  }

  function UpdateJobs(user: string, memberOf: seq<string>, assign: seq<string>): (jobs: seq<Job>)
    ensures |jobs| == |Merged(memberOf, assign)|
  {
    var merged := Merged(memberOf, assign);
    seq(|merged|, i requires 0 <= i < |merged| => UpdateJob(user, memberOf, assign, merged[i]))
  }

  lemma UpdateJobsIndependent(user: string, memberOf: seq<string>, assign: seq<string>)
    ensures AllIndependent(UpdateJobs(user, memberOf, assign))
  {
  }

  /** Some job on `g` is among the first `n` and done. */
  ghost predicate Touched(groups: seq<string>, done: set<nat>, n: nat, g: string)
    requires n <= |groups|
  {
    exists i: nat :: i < n && i in done && groups[i] == g
  }

  lemma TouchedStep(groups: seq<string>, done: set<nat>, n: nat, g: string)
    requires n < |groups|
    ensures Touched(groups, done, n + 1, g) <==> Touched(groups, done, n, g) || (n in done && groups[n] == g)
    ensures g in groups[..n + 1] <==> g in groups[..n] || groups[n] == g
  {
    assert groups[..n + 1] == groups[..n] + [groups[n]];
  }

  /** One accepted job puts the user where `assign` says, in its group only. */
  lemma JobEffect(user: string, memberOf: seq<string>, assign: seq<string>, h: string, m: Memberships, g: string)
    requires UpdateJob(user, memberOf, assign, h).Call?
    ensures var after := Apply(m, UpdateJob(user, memberOf, assign, h).request);
      && (IsMember(after, g, user) <==> if g == h then h in assign else IsMember(m, g, user))
      && (forall u :: u != user ==> (IsMember(after, g, u) <==> IsMember(m, g, u)))
      && (g != h ==> (g in after <==> g in m) && MembersOf(after, g) == MembersOf(m, g))
  {
  }

  /** After the first `n` jobs the user is where `assign` says in the groups whose job
      succeeded, and where it was in the others. */
  lemma {:induction false} UpdateEffect(user: string, memberOf: seq<string>, assign: seq<string>,
                                        done: set<nat>, m: Memberships, n: nat, g: string)
    requires ListsGroups(m, user, memberOf) && n <= |Merged(memberOf, assign)|
    ensures var merged, after := Merged(memberOf, assign), Sequential(UpdateJobs(user, memberOf, assign), done, m, n);
      IsMember(after, g, user) <==> if Touched(merged, done, n, g) then g in assign else IsMember(m, g, user)
  {
    if n > 0 {
      var merged := Merged(memberOf, assign);
      var before := Sequential(UpdateJobs(user, memberOf, assign), done, m, n - 1);
      UpdateEffect(user, memberOf, assign, done, m, n - 1, g);
      if UpdateJob(user, memberOf, assign, merged[n - 1]).Call? {
        JobEffect(user, memberOf, assign, merged[n - 1], before, g);
      }
      TouchedStep(merged, done, n - 1, g);
    }
  }

  /** They change nothing else. */
  lemma {:induction false} UpdateFrame(user: string, memberOf: seq<string>, assign: seq<string>,
                                       done: set<nat>, m: Memberships, n: nat, g: string)
    requires n <= |Merged(memberOf, assign)|
    ensures var merged, after := Merged(memberOf, assign), Sequential(UpdateJobs(user, memberOf, assign), done, m, n);
      && (forall u :: u != user ==> (IsMember(after, g, u) <==> IsMember(m, g, u)))
      && (g !in merged[..n] ==> (g in after <==> g in m) && MembersOf(after, g) == MembersOf(m, g))
  {
    if n > 0 {
      var merged := Merged(memberOf, assign);
      var before := Sequential(UpdateJobs(user, memberOf, assign), done, m, n - 1);
      UpdateFrame(user, memberOf, assign, done, m, n - 1, g);
      if UpdateJob(user, memberOf, assign, merged[n - 1]).Call? {
        JobEffect(user, memberOf, assign, merged[n - 1], before, g);
      }
      TouchedStep(merged, done, n - 1, g);
    }
  }

  /** What a complete run of the update does, under every scheduler: the user is in the
      assigned groups exactly where the call succeeded and where it was before
      elsewhere; no other user and no other group is affected; and with no failed call
      the user is in exactly the assigned groups. */
  lemma UpdateOutcome(user: string, memberOf: seq<string>, assign: seq<string>, m: Memberships,
                      states: seq<State>, events: seq<Event>)
    requires ListsGroups(m, user, memberOf)
    requires IsRun(UpdateJobs(user, memberOf, assign), m, states, events)
    requires Finished(states[|events|].control)
    ensures var merged, after, errors := Merged(memberOf, assign), states[|events|].members, states[|events|].control.received;
      && |errors| == |merged|
      && (forall i :: 0 <= i < |merged| ==>
            (IsMember(after, merged[i], user) <==>
             if errors[i] == None then merged[i] in assign else IsMember(m, merged[i], user)))
      && (forall g, u :: u != user ==> (IsMember(after, g, u) <==> IsMember(m, g, u)))
      && (forall g :: (IsMember(after, g, user) <==> IsMember(m, g, user)) || (IsMember(after, g, user) <==> g in assign))
      && (forall g :: g !in memberOf && g !in assign ==>
            (g in after <==> g in m) && MembersOf(after, g) == MembersOf(m, g))
      && ((forall g :: IsMember(after, g, user) <==> g in assign) <==>
          forall i :: 0 <= i < |errors| ==> errors[i] == None)
  {
    var jobs, merged := UpdateJobs(user, memberOf, assign), Merged(memberOf, assign);
    var s := states[|events|];
    UpdateJobsIndependent(user, memberOf, assign);
    RunIsSequential(jobs, m, states, events, |events|);
    AllReturned(s.control);
    var done, errors := Succeeded(s), s.control.received;
    forall g {
      UpdateEffect(user, memberOf, assign, done, m, |jobs|, g);
    }
    forall g {
      UpdateFrame(user, memberOf, assign, done, m, |jobs|, g);
    }
    assert merged[..|merged|] == merged;
    forall i: nat | i < |merged| ensures Touched(merged, done, |merged|, merged[i]) <==> errors[i] == None {
      assert i in done <==> errors[i] == None;
    }
    assert forall i :: 0 <= i < |merged| && errors[i] != None ==> jobs[i].Call?;
    ExactIffNoError(user, memberOf, assign, m, s.members, errors);
  }

  /** A failed call leaves its group wrong: only groups that need one get one. */
  lemma ExactIffNoError(user: string, memberOf: seq<string>, assign: seq<string>, m: Memberships, after: Memberships,
                        errors: seq<Option<string>>)
    requires ListsGroups(m, user, memberOf) && |errors| == |Merged(memberOf, assign)|
    requires forall i :: 0 <= i < |errors| ==>
      var g := Merged(memberOf, assign)[i];
      && (errors[i] != None ==> !(g in assign && g in memberOf))
      && (IsMember(after, g, user) <==> if errors[i] == None then g in assign else IsMember(m, g, user))
    requires forall g :: g !in memberOf && g !in assign ==> !IsMember(after, g, user)
    ensures (forall g :: IsMember(after, g, user) <==> g in assign) <==> forall i :: 0 <= i < |errors| ==> errors[i] == None
  {
    var merged := Merged(memberOf, assign);
    if i :| 0 <= i < |errors| && errors[i] != None {
      assert merged[i] in merged;
      assert IsMember(after, merged[i], user) <==> merged[i] !in assign;
    } else {
      forall g ensures IsMember(after, g, user) <==> g in assign {
        if g in merged {
          var i: nat :| i < |merged| && merged[i] == g;
        }
      }
    }
  }

  /** `getUserInfo`, which may fail, and lists the groups in any order. */
  method GetUserInfo(m: Memberships, user: string, policyName: string, status: string) returns (r: Result<UserInfo>)
    ensures r.Ok? ==> ListsGroups(m, user, r.value.memberOf)
    ensures r.Ok? ==> r.value.policyName == policyName && r.value.status == status
  {
    var reachable: bool := *;
    if !reachable {
      return Error("user info not available");
    }
    var listing := Listing(set g | g in m && user in m[g]);
    assert forall g :: g in Elements(listing) <==> g in listing;
    return Ok(UserInfo(listing, policyName, status));
  }

  ghost predicate NoError(errors: seq<Option<string>>) {
    forall i :: 0 <= i < |errors| ==> errors[i] == None
  }

  method AnyError(errors: seq<Option<string>>) returns (channelHasError: bool)
    ensures channelHasError <==> !NoError(errors)
  {
    channelHasError := false;
    for i := 0 to |errors|
      invariant channelHasError <==> exists j :: 0 <= j < i && errors[j] != None
    {
      if errors[i] != None {
        channelHasError := true;
      }
    }
  }

  /** Whatever the scheduler and the server do: a success leaves the user in exactly
      the assigned groups and reports them; otherwise every group is, for the user,
      in its old or its desired state. It succeeds exactly when no call failed: neither
      reading the user (`found`), nor an update (`errors`), nor reading again (`reread`). */
  method UpdateUserGroups(m: Memberships, policyName: string, status: string, user: string, groupsToAssign: seq<string>)
    returns (after: Memberships, r: Result<User>, ghost found: bool, ghost errors: seq<Option<string>>, ghost reread: bool)
    ensures r.Ok? <==> found && NoError(errors) && reread
    ensures !found ==> after == m
    ensures found ==> (NoError(errors) <==> forall g :: IsMember(after, g, user) <==> g in groupsToAssign)
    ensures r.Ok? ==> forall g :: IsMember(after, g, user) <==> g in groupsToAssign
    ensures r.Ok? ==> Elements(r.value.memberOf) == Elements(groupsToAssign)
    ensures r.Ok? ==> r.value.accessKey == user && r.value.status == status && Text.Join(r.value.policy, ',') == policyName
    ensures forall g :: (IsMember(after, g, user) <==> IsMember(m, g, user)) || (IsMember(after, g, user) <==> g in groupsToAssign)
    ensures forall g, u :: u != user ==> (IsMember(after, g, u) <==> IsMember(m, g, u))
    ensures forall g :: !IsMember(m, g, user) && g !in groupsToAssign ==>
      (g in after <==> g in m) && MembersOf(after, g) == MembersOf(m, g)
  {
    var before := GetUserInfo(m, user, policyName, status);
    found, errors, reread := before.Ok?, [], false;
    if before.Error? {
      return m, Error(before.message), found, errors, reread;
    }
    var memberOf := before.value.memberOf;
    var mergedGroupArray := UniqueKeys(memberOf + groupsToAssign);
    UpdateJobsIndependent(user, memberOf, groupsToAssign);
    var s, states, events := RunAll(UpdateJobs(user, memberOf, groupsToAssign), m);
    UpdateOutcome(user, memberOf, groupsToAssign, m, states, events);
    after, errors := s.members, s.control.received;
    assert mergedGroupArray == Merged(memberOf, groupsToAssign);

    var channelHasError := AnyError(s.control.received);
    if channelHasError {
      return after, Error("there was an error updating the groups"), found, errors, reread;
    }
    var userInfo := GetUserInfo(after, user, policyName, status);
    reread := userInfo.Ok?;
    if userInfo.Error? {
      return after, Error(userInfo.message), found, errors, reread;
    }
    var policies := Text.Split(userInfo.value.policyName, ',');
    Text.JoinSplit(policyName, ',');
    return after, Ok(User(user, userInfo.value.memberOf, policies, userInfo.value.status)), found, errors, reread;
  }

  // ---------- addUsersListToGroups ----------

  function AddJobs(users: seq<string>, groups: seq<string>): seq<Job> {
    seq(|groups|, i requires 0 <= i < |groups| => Call(MemberRequest(groups[i], users, false)))
  }

  lemma {:induction false} AddEffect(users: seq<string>, groups: seq<string>, done: set<nat>, m: Memberships, n: nat, g: string)
    requires n <= |groups|
    ensures var after := Sequential(AddJobs(users, groups), done, m, n);
      && MembersOf(after, g) == MembersOf(m, g) + (if Touched(groups, done, n, g) then Elements(users) else {})
      && (g in after <==> g in m || Touched(groups, done, n, g))
  {
    if n > 0 {
      AddEffect(users, groups, done, m, n - 1, g);
    }
  }

  /** A complete run adds exactly the users-by-groups product for the groups with an
      accepted call, also when a group is named twice. */
  lemma AddOutcome(users: seq<string>, groups: seq<string>, m: Memberships, states: seq<State>, events: seq<Event>)
    requires IsRun(AddJobs(users, groups), m, states, events)
    requires Finished(states[|events|].control)
    ensures var after, errors := states[|events|].members, states[|events|].control.received;
      && |errors| == |groups|
      && forall g ::
           var added := exists i: nat :: i < |groups| && groups[i] == g && errors[i] == None;
           && (g in after <==> g in m || added)
           && MembersOf(after, g) == MembersOf(m, g) + (if added then Elements(users) else {})
  {
    var s := states[|events|];
    RunIsSequential(AddJobs(users, groups), m, states, events, |events|);
    AllReturned(s.control);
    forall g ensures Touched(groups, Succeeded(s), |groups|, g) <==>
        exists i: nat :: i < |groups| && groups[i] == g && s.control.received[i] == None
    {
      assert forall i: nat :: i < |groups| ==> (i in Succeeded(s) <==> s.control.received[i] == None);
    }
    forall g {
      AddEffect(users, groups, Succeeded(s), m, |groups|, g);
    }
  }

  /** The messages of the failed calls, in the order of the groups. */
  function Messages(errors: seq<Option<string>>): (r: seq<string>)
    ensures r == [] <==> forall i :: 0 <= i < |errors| ==> errors[i] == None
    ensures forall i :: 0 <= i < |errors| && errors[i].Some? ==> errors[i].value in r
  {
    if errors == [] then []
    else
      var front, last := errors[..|errors| - 1], errors[|errors| - 1];
      Messages(front) + match last case None => [] case Some(message) => [message]
  }

  /** The loop over the received errors. */
  method CollectMessages(errors: seq<Option<string>>) returns (list: seq<string>)
    ensures list == Messages(errors)
  {
    list := [];
    for i := 0 to |errors|
      invariant list == Messages(errors[..i])
    {
      assert errors[..i + 1][..i] == errors[..i];
      if errors[i].Some? {
        list := list + [errors[i].value];
      }
    }
    assert errors[..|errors|] == errors;
  }

  /** Succeeds exactly when every call did, and otherwise lists one message for each
      failed call. */
  method AddUsersListToGroups(m: Memberships, users: seq<string>, groups: seq<string>)
    returns (after: Memberships, errorsList: Option<seq<string>>, ghost errors: seq<Option<string>>)
    ensures |errors| == |groups|
    ensures forall g ::
      var added := exists i: nat :: i < |groups| && groups[i] == g && errors[i] == None;
      && (g in after <==> g in m || added)
      && MembersOf(after, g) == MembersOf(m, g) + (if added then Elements(users) else {})
    ensures errorsList == None <==> forall i :: 0 <= i < |groups| ==> errors[i] == None
    ensures errorsList == None ==> forall g, u :: g in groups && u in users ==> IsMember(after, g, u)
    ensures errorsList.Some? ==> errorsList.value == Messages(errors)
  {
    var s, states, events := RunAll(AddJobs(users, groups), m);
    AddOutcome(users, groups, m, states, events);
    after, errors := s.members, s.control.received;
    var list := CollectMessages(s.control.received);
    errorsList := if |list| > 0 then Some(list) else None;
    if errorsList == None {
      forall g, u | g in groups && u in users ensures IsMember(after, g, u) {
        var i: nat :| i < |groups| && groups[i] == g;
        assert errors[i] == None;
        assert u in Elements(users);
      }
    }
  }

  // ---------- addUser ----------

  /** Creation does not roll back: once the user exists, a failure leaves each group in its
      old or its desired state for the user, or all as desired when only the policies
      failed, and the policy unset. An error for a new user leaves everything as it was
      exactly when the user was not created. The call succeeds exactly when the user was
      created, was put into its groups (`grouped`), and got its policies (`allowed`). */
  method AddUser(users: set<string>, m: Memberships, userPolicies: map<string, string>, serverStatus: string,
                 accessKey: string, groups: seq<string>, policies: seq<string>)
    returns (usersAfter: set<string>, after: Memberships, policiesAfter: map<string, string>, created: bool, r: Result<User>,
             ghost grouped: bool, ghost allowed: bool)
    ensures r.Ok? <==> created && (groups == [] || grouped) && (policies == [] || allowed)
    ensures usersAfter == if created then users + {accessKey} else users
    ensures !created ==> r.Error? && after == m && policiesAfter == userPolicies
    ensures r.Ok? && groups != [] ==> Elements(r.value.memberOf) == Elements(groups) && forall g :: IsMember(after, g, accessKey) <==> g in groups
    ensures r.Ok? && groups == [] ==> r.value.memberOf == [] && after == m
    ensures r.Ok? ==> r.value.policy == policies && r.value.accessKey == accessKey
    ensures r.Ok? ==> r.value.status == if groups == [] then "enabled" else serverStatus
    ensures policiesAfter == userPolicies || (policies != [] && policiesAfter == userPolicies[accessKey := Text.Join(policies, ',')])
    ensures r.Ok? && policies != [] ==> accessKey in policiesAfter && policiesAfter[accessKey] == Text.Join(policies, ',')
    ensures r.Error? ==> policiesAfter == userPolicies
    ensures groups == [] ==> after == m
    ensures created && groups != [] && grouped ==> forall g :: IsMember(after, g, accessKey) <==> g in groups
    ensures forall g ::
      (IsMember(after, g, accessKey) <==> IsMember(m, g, accessKey)) || (IsMember(after, g, accessKey) <==> g in groups)
    ensures r.Error? && accessKey !in users ==>
      (usersAfter == users && after == m && policiesAfter == userPolicies <==> !created)
    ensures forall g, u :: u != accessKey ==> (IsMember(after, g, u) <==> IsMember(m, g, u))
  {
    usersAfter, after, policiesAfter, grouped, allowed := users, m, userPolicies, false, false;
    created := *;
    if !created {
      return usersAfter, after, policiesAfter, false, Error("cannot add user"), grouped, allowed;
    }
    usersAfter := users + {accessKey};
    var memberOf, status := [], "enabled";
    if |groups| > 0 {
      var userWithGroups;
      ghost var found, errors, reread;
      after, userWithGroups, found, errors, reread := UpdateUserGroups(m, "", serverStatus, accessKey, groups);
      grouped := userWithGroups.Ok?;
      if userWithGroups.Error? {
        return usersAfter, after, policiesAfter, true, userWithGroups, grouped, allowed;
      }
      memberOf, status := userWithGroups.value.memberOf, userWithGroups.value.status;
    }
    if |policies| > 0 {
      var accepted: bool := *;
      allowed := accepted;
      if !accepted {
        return usersAfter, after, policiesAfter, true, Error("cannot set policy"), grouped, allowed;
      }
      policiesAfter := userPolicies[accessKey := Text.Join(policies, ',')];
    }
    return usersAfter, after, policiesAfter, true, Ok(User(accessKey, memberOf, policies, status)), grouped, allowed;
  }
}
