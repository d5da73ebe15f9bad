/** Group membership as the MinIO server keeps it, and the effect of one accepted
    membership request. */
module Iam {

  /** The members of every existing group. */
  type Memberships = map<string, set<string>>

  /** `madmin.GroupAddRemove` */
  datatype MemberRequest = MemberRequest(group: string, members: seq<string>, isRemove: bool)

  function Elements(s: seq<string>): (r: set<string>)
    ensures forall x :: x in r <==> x in s
  {
    set x | x in s
  }

  function MembersOf(m: Memberships, g: string): set<string> {
    if g in m then m[g] else {}
  }

  predicate IsMember(m: Memberships, g: string, u: string) {
    g in m && u in m[g]
  }

  /** `listing` is a `MemberOf` list the server may report for `u`, in any order. */
  ghost predicate ListsGroups(m: Memberships, u: string, listing: seq<string>) {
    forall g :: g in listing <==> IsMember(m, g, u)
  }

  /** An accepted request. Adding creates a missing group; a removal that names nobody
      is how a group is deleted. */
  function Apply(m: Memberships, r: MemberRequest): Memberships {
    if !r.isRemove then m[r.group := MembersOf(m, r.group) + Elements(r.members)]
    else if r.members == [] then m - {r.group}
    else if r.group in m then m[r.group := m[r.group] - Elements(r.members)]
    else m
  }

  /** Requests whose order does not matter: on different groups, or both adding. */
  predicate Independent(a: MemberRequest, b: MemberRequest) {
    a.group != b.group || (!a.isRemove && !b.isRemove)
  }

  lemma ApplyCommutes(m: Memberships, a: MemberRequest, b: MemberRequest)
    requires Independent(a, b)
    ensures Apply(Apply(m, a), b) == Apply(Apply(m, b), a)
  {
    if a.group == b.group {
      assert MembersOf(m, a.group) + Elements(a.members) + Elements(b.members)
          == MembersOf(m, a.group) + Elements(b.members) + Elements(a.members);
    }
  }

  /** A listing of a set, as the server sends it: each element once, in any order. */
  method Listing(s: set<string>) returns (l: seq<string>)
    ensures Elements(l) == s && |l| == |s|
  {
    l := [];
    var left := s;
    while left != {}
      invariant left <= s && Elements(l) == s - left && |l| == |s| - |left|
      decreases |left|
    {
      var x :| x in left;
      assert Elements(l + [x]) == Elements(l) + {x};
      left := left - {x};
      l := l + [x];
    }
  }
}
