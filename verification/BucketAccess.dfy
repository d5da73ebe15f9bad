/** Who has access to a bucket: `listUsersWithAccessToBucket` of `api/admin_users.go`. */
module BucketAccess {
  import opened Wrappers
  import opened Lists
  import opened Ordering
  import Text

  /** `iampolicy.Statement`; what the resource patterns match is up to the library. */
  datatype Statement = Statement(resources: seq<string>, effect: string)

  type Policy = seq<Statement>

  datatype Verdict = Unknown | Allow | Deny

  /** `madmin.GroupDesc`, as far as it is used here. */
  datatype GroupDesc = GroupDesc(members: seq<string>, policy: string)

  /** The place in the program of one `getPolicy` call. */
  datatype Call = Direct(user: string, index: nat) | ForGroup(index: nat)

  /** What the server answers: the listings, the group at each place of the group list,
      and the policy at each call, where `None` is a failed call. */
  datatype Server = Server(
    users: Option<map<string, string>>,
    groups: Option<seq<string>>,
    groupInfo: (nat, string) -> Option<GroupDesc>,
    getPolicy: (Call, string) -> Option<Policy>,
    matches: (seq<string>, string) -> bool)

  predicate IsValidEffect(effect: string) {
    effect == "Allow" || effect == "Deny"
  }

  /** The statement says something about the bucket. */
  predicate Decides(s: Server, bucket: string, st: Statement) {
    s.matches(st.resources, bucket) && IsValidEffect(st.effect)
  }

  /** Statement `i` is the first that decides, and it says `v`. */
  ghost predicate FirstToDecide(s: Server, bucket: string, policy: Policy, i: nat, v: Verdict) {
    && i < |policy|
    && Decides(s, bucket, policy[i])
    && v == (if policy[i].effect == "Allow" then Allow else Deny)
    && forall j :: 0 <= j < i ==> !Decides(s, bucket, policy[j])
  }

  /** The first statement that decides gives the verdict. */
  function VerdictOf(s: Server, bucket: string, policy: Policy): (v: Verdict)
    ensures v == Unknown <==> forall i :: 0 <= i < |policy| ==> !Decides(s, bucket, policy[i])
    ensures v != Unknown ==> exists i: nat :: FirstToDecide(s, bucket, policy, i, v)
  {
    if policy == [] then Unknown
    else if Decides(s, bucket, policy[0]) then
      var v := if policy[0].effect == "Allow" then Allow else Deny;
      assert FirstToDecide(s, bucket, policy, 0, v);
      v
    else
      var v := VerdictOf(s, bucket, policy[1..]);
      assert policy == [policy[0]] + policy[1..];
      assert v != Unknown ==> exists i: nat :: FirstToDecide(s, bucket, policy, i, v) by {
        if v != Unknown {
          var i: nat :| FirstToDecide(s, bucket, policy[1..], i, v);
          assert FirstToDecide(s, bucket, policy, i + 1, v);
        }
      }
      v
  }

  method PolicyAllowsAndMatchesBucket(s: Server, policy: Policy, bucket: string) returns (v: Verdict)
    ensures v == VerdictOf(s, bucket, policy)
  {
    for i := 0 to |policy|
      invariant VerdictOf(s, bucket, policy) == VerdictOf(s, bucket, policy[i..])
    {
      assert policy[i..][1..] == policy[i + 1..];
      if s.matches(policy[i].resources, bucket) {
        if IsValidEffect(policy[i].effect) {
          if policy[i].effect == "Allow" {
            return Allow;
          }
          return Deny;
        }
      }
    }
    return Unknown;
  }

  /** One of the first `n` names of the user's policy string leads to a fetched policy
      with verdict `v`. */
  ghost predicate DirectSays(s: Server, bucket: string, k: string, policyName: string, n: nat, v: Verdict)
    requires n <= |Text.Split(policyName, ',')|
  {
    exists j: nat :: j < n && NameSays(s, bucket, k, policyName, j, v)
  }

  ghost predicate NameSays(s: Server, bucket: string, k: string, policyName: string, j: nat, v: Verdict)
    requires j < |Text.Split(policyName, ',')|
  {
    var name := Text.TrimSpace(Text.Split(policyName, ',')[j]);
    && name != ""
    && s.getPolicy(Direct(k, j), name).Some?
    && VerdictOf(s, bucket, s.getPolicy(Direct(k, j), name).value) == v
  }

  /** The group at place `i` lists `k`, and its policy string, taken as one name, leads
      to a fetched policy with verdict `v`. */
  ghost predicate GroupSays(s: Server, bucket: string, groups: seq<string>, i: nat, k: string, v: Verdict)
    requires i < |groups|
  {
    var info := s.groupInfo(i, groups[i]);
    && info.Some?
    && k in info.value.members
    && s.getPolicy(ForGroup(i), info.value.policy).Some?
    && VerdictOf(s, bucket, s.getPolicy(ForGroup(i), info.value.policy).value) == v
  }

  /** One of the first `n` groups does. */
  ghost predicate GroupsSay(s: Server, bucket: string, groups: seq<string>, n: nat, k: string, v: Verdict)
    requires n <= |groups|
  {
    exists i: nat :: i < n && GroupSays(s, bucket, groups, i, k, v)
  }

  /** Some fetchable policy that applies to `k` has verdict `v` for the bucket. */
  ghost predicate Says(s: Server, bucket: string, users: map<string, string>, groups: seq<string>, k: string, v: Verdict) {
    || (k in users && DirectSays(s, bucket, k, users[k], |Text.Split(users[k], ',')|, v))
    || GroupsSay(s, bucket, groups, |groups|, k, v)
  }

  /** Deny overrides: at least one Allow and no Deny. */
  ghost predicate HasAccess(s: Server, bucket: string, users: map<string, string>, groups: seq<string>, k: string) {
    Says(s, bucket, users, groups, k, Allow) && !Says(s, bucket, users, groups, k, Deny)
  }

  /** The verdicts met so far, and the two maps as they must be after them. */
  ghost predicate Tracks(met: set<(string, Verdict)>, hasAccess: set<string>, isDenied: set<string>) {
    && (forall k :: k in isDenied <==> (k, Deny) in met)
    && (forall k :: k in hasAccess <==> (k, Allow) in met && (k, Deny) !in met)
  }

  /** The `switch` on one verdict for one key. A denied key stays denied, and no key is
      ever in both maps. */
  method Note(k: string, v: Verdict, hasAccess: set<string>, isDenied: set<string>, ghost met: set<(string, Verdict)>)
    returns (hasAccess': set<string>, isDenied': set<string>)
    requires Tracks(met, hasAccess, isDenied)
    ensures Tracks(met + {(k, v)}, hasAccess', isDenied')
    ensures isDenied <= isDenied' && hasAccess' !! isDenied'
  {
    hasAccess', isDenied' := hasAccess, isDenied;
    if k !in isDenied {
      match v
      case Allow =>
        hasAccess' := hasAccess + {k};
      case Deny =>
        isDenied' := isDenied + {k};
        hasAccess' := hasAccess - {k};
      case Unknown =>
    }
  }

  /** The policies of one user, in the order of the policy string. */
  method ScanUser(s: Server, bucket: string, k: string, policyName: string,
                  hasAccess: set<string>, isDenied: set<string>, ghost met: set<(string, Verdict)>)
    returns (hasAccess': set<string>, isDenied': set<string>, ghost met': set<(string, Verdict)>)
    requires Tracks(met, hasAccess, isDenied)
    ensures Tracks(met', hasAccess', isDenied') && isDenied <= isDenied'
    ensures forall p :: p in met' <==>
      p in met || (p.0 == k && DirectSays(s, bucket, k, policyName, |Text.Split(policyName, ',')|, p.1))
  {
    hasAccess', isDenied', met' := hasAccess, isDenied, met;
    var names := Text.Split(policyName, ',');
    for j := 0 to |names|
      invariant Tracks(met', hasAccess', isDenied') && isDenied <= isDenied'
      invariant forall p :: p in met' <==> p in met || (p.0 == k && DirectSays(s, bucket, k, policyName, j, p.1))
    {
      assert forall v :: DirectSays(s, bucket, k, policyName, j + 1, v) <==>
        DirectSays(s, bucket, k, policyName, j, v) || NameSays(s, bucket, k, policyName, j, v);
      var name := Text.TrimSpace(names[j]);
      if name == "" {
        continue;
      }
      var policy := s.getPolicy(Direct(k, j), name);
      if policy.None? {
        continue;
      }
      var v := PolicyAllowsAndMatchesBucket(s, policy.value, bucket);
      hasAccess', isDenied' := Note(k, v, hasAccess', isDenied', met');
      met' := met' + {(k, v)};
    }
  }

  /** The members of one group. */
  method ScanMembers(members: seq<string>, v: Verdict,
                     hasAccess: set<string>, isDenied: set<string>, ghost met: set<(string, Verdict)>)
    returns (hasAccess': set<string>, isDenied': set<string>, ghost met': set<(string, Verdict)>)
    requires Tracks(met, hasAccess, isDenied)
    ensures Tracks(met', hasAccess', isDenied') && isDenied <= isDenied'
    ensures forall p :: p in met' <==> p in met || (p.0 in members && p.1 == v)
  {
    hasAccess', isDenied', met' := hasAccess, isDenied, met;
    for n := 0 to |members|
      invariant Tracks(met', hasAccess', isDenied') && isDenied <= isDenied'
      invariant forall p :: p in met' <==> p in met || (p.0 in members[..n] && p.1 == v)
    {
      hasAccess', isDenied' := Note(members[n], v, hasAccess', isDenied', met');
      met' := met' + {(members[n], v)};
    }
    assert members[..|members|] == members;
  }

  /** All users, in whatever order Go visits them. */
  method ScanUsers(s: Server, bucket: string, users: map<string, string>)
    returns (akHasAccess: set<string>, akIsDenied: set<string>, ghost met: set<(string, Verdict)>)
    ensures Tracks(met, akHasAccess, akIsDenied)
    ensures forall p :: p in met <==>
      p.0 in users && DirectSays(s, bucket, p.0, users[p.0], |Text.Split(users[p.0], ',')|, p.1)
  {
    akHasAccess, akIsDenied, met := {}, {}, {};
    var left := users.Keys;
    while left != {}
      invariant left <= users.Keys
      invariant Tracks(met, akHasAccess, akIsDenied)
      invariant forall p :: p in met <==>
        p.0 in users && p.0 !in left && DirectSays(s, bucket, p.0, users[p.0], |Text.Split(users[p.0], ',')|, p.1)
      decreases |left|
    {
      var k :| k in left;
      left := left - {k};
      akHasAccess, akIsDenied, met := ScanUser(s, bucket, k, users[k], akHasAccess, akIsDenied, met);
    }
  }

  /** All groups, in the order of the listing. */
  method ScanGroups(s: Server, bucket: string, groups: seq<string>,
                    hasAccess: set<string>, isDenied: set<string>, ghost met: set<(string, Verdict)>)
    returns (akHasAccess: set<string>, akIsDenied: set<string>, ghost met': set<(string, Verdict)>)
    requires Tracks(met, hasAccess, isDenied)
    ensures Tracks(met', akHasAccess, akIsDenied) && isDenied <= akIsDenied
    ensures forall p :: p in met' <==> p in met || GroupsSay(s, bucket, groups, |groups|, p.0, p.1)
  {
    akHasAccess, akIsDenied, met' := hasAccess, isDenied, met;
    for i := 0 to |groups|
      invariant Tracks(met', akHasAccess, akIsDenied) && isDenied <= akIsDenied
      invariant forall p :: p in met' <==> p in met || GroupsSay(s, bucket, groups, i, p.0, p.1)
    {
      assert forall k, v :: GroupsSay(s, bucket, groups, i + 1, k, v) <==>
        GroupsSay(s, bucket, groups, i, k, v) || GroupSays(s, bucket, groups, i, k, v);
      var info := s.groupInfo(i, groups[i]);
      if info.None? {
        continue;
      }
      var policy := s.getPolicy(ForGroup(i), info.value.policy);
      if policy.None? {
        continue;
      }
      var v := PolicyAllowsAndMatchesBucket(s, policy.value, bucket);
      akHasAccess, akIsDenied, met' := ScanMembers(info.value.members, v, akHasAccess, akIsDenied, met');
    }
  }

  /** The keys of a map, collected in any order and sorted. */
  method SortedKeys(keys: set<string>) returns (retval: seq<string>)
    ensures Sorted(retval) && NoDuplicates(retval) && forall k :: k in retval <==> k in keys
  {
    retval := [];
    var rest := keys;
    while rest != {}
      invariant rest <= keys && NoDuplicates(retval)
      invariant forall k :: k in retval <==> k in keys && k !in rest
      decreases |rest|
    {
      var k :| k in rest;
      rest := rest - {k};
      retval := retval + [k];
    }
    SortKeepsDistinct(retval);
    retval := SortStrings(retval);
  }

  /** For every order in which the users are visited the answer is the sorted list,
      without repetition, of the keys that have access. A failed group listing gives an
      empty list and no error, whatever the users' own policies say. */
  method ListUsersWithAccessToBucket(s: Server, bucket: string) returns (r: Result<seq<string>>)
    ensures r.Error? <==> s.users.None?
    ensures s.users.Some? && s.groups.Some? ==>
      && Sorted(r.value) && NoDuplicates(r.value)
      && forall k :: k in r.value <==> HasAccess(s, bucket, s.users.value, s.groups.value, k)
    ensures s.users.Some? && s.groups.None? ==> r.value == []
  {
    if s.users.None? {
      return Error("cannot list users");
    }
    var users := s.users.value;
    ghost var met;
    var akHasAccess, akIsDenied;
    akHasAccess, akIsDenied, met := ScanUsers(s, bucket, users);
    if s.groups.None? {
      return Ok([]);
    }
    var groups := s.groups.value;
    akHasAccess, akIsDenied, met := ScanGroups(s, bucket, groups, akHasAccess, akIsDenied, met);
    assert forall k, v :: (k, v) in met <==> Says(s, bucket, users, groups, k, v);
    var retval := SortedKeys(akHasAccess);
    return Ok(retval);
  }

  /** The contract leaves one answer: two calls cannot differ, in whatever order they
      visited the maps. */
  lemma AnswerIsUnique(s: Server, bucket: string, users: map<string, string>, groups: seq<string>, a: seq<string>, b: seq<string>)
    requires Sorted(a) && NoDuplicates(a) && forall k :: k in a <==> HasAccess(s, bucket, users, groups, k)
    requires Sorted(b) && NoDuplicates(b) && forall k :: k in b <==> HasAccess(s, bucket, users, groups, k)
    ensures a == b
  {
    SortedUnique(a, b);
  }
}
