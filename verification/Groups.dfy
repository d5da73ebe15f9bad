/** Group administration of `api/admin_groups.go`. */
module Groups {
  import opened Wrappers
  import opened Lists
  import opened Iam

  /** `madmin.GroupDesc`, as far as it is used here. */
  datatype GroupDesc = GroupDesc(name: string, members: seq<string>, status: string)

  /** A membership request that was sent, and the memberships after it. */
  datatype Entry = Entry(request: MemberRequest, after: Memberships)

  predicate ValidStatus(status: string) {
    status == "enabled" || status == "disabled"
  }

  /** In `m'` the members of `g` lie between those who were in and are wanted, and those
      who were in or are wanted; the other groups are as in `m`. */
  ghost predicate Between(m': Memberships, g: string, m: Memberships, want: set<string>)
    requires g in m
  {
    g in m' && m[g] * want <= m'[g] <= m[g] + want && m' - {g} == m - {g}
  }

  ghost predicate StayedBetween(entries: seq<Entry>, g: string, m: Memberships, want: set<string>)
    requires g in m
  {
    forall i :: 0 <= i < |entries| ==> Between(entries[i].after, g, m, want)
  }

  /** No request deletes a group. */
  ghost predicate NoneDeletes(entries: seq<Entry>) {
    forall i :: 0 <= i < |entries| && entries[i].request.isRemove ==> entries[i].request.members != []
  }

  lemma ThreeStates(m: Memberships, g: string, want: set<string>)
    requires g in m
    ensures m[g := m[g]] == m && m[g := m[g] * want][g := want] == m[g := want]
    ensures Between(m, g, m, want) && Between(m[g := m[g] * want], g, m, want) && Between(m[g := want], g, m, want)
  {
    assert m[g := m[g] * want] - {g} == m - {g} == m[g := want] - {g};
  }

  /** The calls with a number from `first` up to `last`. */
  ghost predicate AllAccepted(accepts: nat -> bool, first: nat, last: nat) {
    forall k :: first <= k < last ==> accepts(k)
  }

  lemma AcceptedInTwo(accepts: nat -> bool, first: nat, middle: nat, last: nat)
    requires first <= middle <= last
    ensures AllAccepted(accepts, first, last) <==> AllAccepted(accepts, first, middle) && AllAccepted(accepts, middle, last)
  {
  }

  lemma BothStayed(a: seq<Entry>, b: seq<Entry>, g: string, m: Memberships, want: set<string>)
    requires g in m && StayedBetween(a, g, m, want) && StayedBetween(b, g, m, want) && NoneDeletes(a) && NoneDeletes(b)
    ensures StayedBetween(a + b, g, m, want) && NoneDeletes(a + b)
  {
  }

  /** The server behind the admin client. Call number `k` of the whole session is
      accepted when `accepts(k)` holds; there is no other writer. */
  class AdminClient {
    const accepts: nat -> bool
    var calls: nat
    var memberships: Memberships
    var statuses: map<string, string>
    /** Every membership request sent, with the memberships after it. */
    ghost var sent: seq<Entry>
    /** Every status request sent. */
    ghost var statusSent: seq<(string, string)>

    constructor (accepts: nat -> bool, memberships: Memberships)
      ensures this.accepts == accepts && this.memberships == memberships
      ensures calls == 0 && statuses == map[] && sent == [] && statusSent == []
    {
      this.accepts, this.memberships := accepts, memberships;
      calls, statuses := 0, map[];
      sent, statusSent := [], [];
    }

    /** The status of a group; groups start enabled. */
    function StatusOf(g: string): string
      reads this
    {
      if g in statuses then statuses[g] else "enabled"
    }

    method UpdateGroupMembers(group: string, members: seq<string>, isRemove: bool) returns (ok: bool)
      modifies this`calls, this`memberships, this`sent
      ensures ok == accepts(old(calls)) && calls == old(calls) + 1
      ensures memberships == if ok then Apply(old(memberships), MemberRequest(group, members, isRemove)) else old(memberships)
      ensures sent == old(sent) + [Entry(MemberRequest(group, members, isRemove), memberships)]
    {
      ok := accepts(calls);
      calls := calls + 1;
      if ok {
        memberships := Apply(memberships, MemberRequest(group, members, isRemove));
      }
      sent := sent + [Entry(MemberRequest(group, members, isRemove), memberships)];
    }

    /** Deletes the group: the request that removes nobody. */
    method RemoveGroup(group: string) returns (ok: bool)
      modifies this`calls, this`memberships, this`sent
      ensures ok == accepts(old(calls)) && calls == old(calls) + 1
      ensures memberships == if ok then old(memberships) - {group} else old(memberships)
      ensures sent == old(sent) + [Entry(MemberRequest(group, [], true), memberships)]
    {
      ok := UpdateGroupMembers(group, [], true);
    }

    method GroupInfo(group: string) returns (r: Result<GroupDesc>)
      modifies this`calls
      ensures calls == old(calls) + 1
      ensures r.Ok? <==> accepts(old(calls)) && group in memberships
      ensures r.Ok? ==> r.value.name == group && r.value.status == StatusOf(group)
      ensures r.Ok? ==> Elements(r.value.members) == memberships[group]
    {
      var accepted := accepts(calls);
      calls := calls + 1;
      if !accepted || group !in memberships {
        return Error("no group info");
      }
      var members := Listing(memberships[group]);
      return Ok(GroupDesc(group, members, StatusOf(group)));
    }

    method SetGroupStatus(group: string, status: string) returns (ok: bool)
      modifies this`calls, this`statuses, this`statusSent
      ensures ok <==> ValidStatus(status) && accepts(old(calls))
      ensures calls == old(calls) + if ValidStatus(status) then 1 else 0
      ensures statuses == if ok then old(statuses)[group := status] else old(statuses)
      ensures statusSent == old(statusSent) + if ValidStatus(status) then [(group, status)] else []
    {
      if !ValidStatus(status) {
        return false;
      }
      statusSent := statusSent + [(group, status)];
      ok := accepts(calls);
      calls := calls + 1;
      if ok {
        statuses := statuses[group := status];
      }
    }

    /** Sends the request unless it names nobody, and moves the members of `g` from
        `was` to `next` when it is accepted. */
    method UpdateIfAny(g: string, members: seq<string>, isRemove: bool, ghost next: set<string>)
      returns (ok: bool, ghost entries: seq<Entry>)
      requires g in memberships
      requires next == if isRemove then memberships[g] - Elements(members) else memberships[g] + Elements(members)
      modifies this`calls, this`memberships, this`sent
      ensures memberships == if ok then old(memberships)[g := next] else old(memberships)
      ensures calls == old(calls) + |entries|
      ensures ok <==> AllAccepted(accepts, old(calls), calls)
      ensures entries == if members == [] then [] else [Entry(MemberRequest(g, members, isRemove), memberships)]
      ensures sent == old(sent) + entries
    {
      ok, entries := true, [];
      if |members| > 0 {
        ok := UpdateGroupMembers(g, members, isRemove);
        entries := [Entry(MemberRequest(g, members, isRemove), memberships)];
      } else {
        assert Elements(members) == {} && memberships[g] == next;
        assert memberships == memberships[g := next];
      }
    }

    /** Removes who is not expected, then adds who is missing, stopping at the first
        failure. Whatever fails, nobody who was and should stay is ever out, and nobody
        is in who neither was nor should be. */
    method AddOrDeleteMembers(group: GroupDesc, expected: seq<string>) returns (ok: bool, ghost entries: seq<Entry>)
      requires group.name in memberships && memberships[group.name] == Elements(group.members)
      modifies this`calls, this`memberships, this`sent
      ensures ok ==> memberships == old(memberships)[group.name := Elements(expected)]
      ensures calls == old(calls) + |entries| && (ok <==> AllAccepted(accepts, old(calls), calls))
      ensures sent == old(sent) + entries && |entries| <= 2 && NoneDeletes(entries)
      ensures |entries| == 2 ==> entries[0].request.isRemove && !entries[1].request.isRemove
      ensures memberships == if entries == [] then old(memberships) else entries[|entries| - 1].after
      ensures StayedBetween(entries, group.name, old(memberships), Elements(expected))
      ensures Elements(group.members) == Elements(expected) ==> ok && entries == []
    {
      var membersToDelete := DifferenceArrays(group.members, expected);
      var membersToAdd := DifferenceArrays(expected, group.members);
      ghost var m, was, want := memberships, memberships[group.name], Elements(expected);
      Differences(group.members, expected, was);
      ThreeStates(m, group.name, want);
      ok, entries := UpdateIfAny(group.name, membersToDelete, true, was * want);
      if ok {
        ghost var more;
        ghost var between := calls;
        ok, more := UpdateIfAny(group.name, membersToAdd, false, want);
        AcceptedInTwo(accepts, old(calls), between, calls);
        Regroup(old(sent), entries, more);
        BothStayed(entries, more, group.name, m, want);
        entries := entries + more;
      }
    }

    /** A success leaves exactly the expected members and status, and says so. When the
        group is already as expected, nothing is written. */
    method GroupUpdate(groupName: string, expectedMembers: seq<string>, expectedStatus: string)
      returns (r: Result<GroupDesc>, ghost entries: seq<Entry>)
      modifies this
      ensures r.Ok? ==> groupName in old(memberships)
      ensures r.Ok? ==> memberships == old(memberships)[groupName := Elements(expectedMembers)]
      ensures r.Ok? ==> StatusOf(groupName) == expectedStatus
      ensures r.Ok? ==> r.value.name == groupName && r.value.status == expectedStatus
      ensures r.Ok? ==> Elements(r.value.members) == Elements(expectedMembers)
      ensures r.Ok? <==>
        && groupName in old(memberships)
        && (ValidStatus(expectedStatus) || old(StatusOf(groupName)) == expectedStatus)
        && AllAccepted(accepts, old(calls), calls)
      ensures memberships - {groupName} == old(memberships) - {groupName}
      ensures forall g :: g != groupName ==> StatusOf(g) == old(StatusOf(g))
      ensures sent == old(sent) + entries && |entries| <= 2 && NoneDeletes(entries)
      ensures old(statusSent) <= statusSent && |statusSent| <= |old(statusSent)| + 1
      ensures groupName in old(memberships) && old(memberships)[groupName] == Elements(expectedMembers)
        && old(StatusOf(groupName)) == expectedStatus
        ==> sent == old(sent) && statusSent == old(statusSent) && memberships == old(memberships) && statuses == old(statuses)
    {
      entries := [];
      var description := GroupInfo(groupName);
      if description.Error? {
        assert calls == old(calls) + 1;
        assert groupName in memberships ==> !accepts(calls - 1);
        return description, entries;
      }
      var updated;
      updated, entries := AddOrDeleteMembers(description.value, expectedMembers);
      if !updated {
        return Error("error updating group"), entries;
      }
      if expectedStatus != description.value.status {
        var statusSet := SetGroupStatus(description.value.name, expectedStatus);
        if !statusSet {
          assert ValidStatus(expectedStatus) ==> !accepts(calls - 1);
          return Error("error updating group's status"), entries;
        }
      }
      r := GroupInfo(groupName);
      assert groupName in memberships;
      assert r.Error? ==> !accepts(calls - 1);
    }

    /** The update is idempotent: the same request again, whether or not its calls
        succeed, writes nothing. */
    method UpdateAgain(groupName: string, expectedMembers: seq<string>, expectedStatus: string)
      returns (first: Result<GroupDesc>, again: Result<GroupDesc>,
               ghost sentOnce: seq<Entry>, ghost statusOnce: seq<(string, string)>)
      modifies this
      ensures first.Ok? ==>
        && memberships == old(memberships)[groupName := Elements(expectedMembers)]
        && StatusOf(groupName) == expectedStatus
        && sent == sentOnce && statusSent == statusOnce
      ensures old(sent) <= sentOnce && |sentOnce| <= |old(sent)| + 2 && |statusOnce| <= |old(statusSent)| + 1
    {
      ghost var entries;
      first, entries := GroupUpdate(groupName, expectedMembers, expectedStatus);
      sentOnce, statusOnce := sent, statusSent;
      again, entries := GroupUpdate(groupName, expectedMembers, expectedStatus);
    }
  }

  lemma Differences(current: seq<string>, expected: seq<string>, was: set<string>)
    requires was == Elements(current)
    ensures was - Elements(Difference(current, expected)) == was * Elements(expected)
    ensures was * Elements(expected) + Elements(Difference(expected, current)) == Elements(expected)
    ensures Difference(current, expected) == [] ==> was == was * Elements(expected)
    ensures Difference(expected, current) == [] ==> Elements(expected) == was * Elements(expected)
    ensures was == Elements(expected) ==> Difference(current, expected) == [] && Difference(expected, current) == []
  {
    var d, e := Difference(current, expected), Difference(expected, current);
    assert d != [] ==> d[0] in d;
    assert e != [] ==> e[0] in e;
  }
}
