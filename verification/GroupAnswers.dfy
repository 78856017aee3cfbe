/** How the group repository answers each call, and in which order it lists groups and members. */
module GroupAnswers {
  import opened Wire
  import opened Text
  import opened Query
  import opened GroupModel
  import opened GroupInvariant

  // ---------------------------------------------------------------- success and refusals, by the rules for one group

  /** Why a user cannot be added, or 0. */
  ghost function WhyNotAdd(club: Option<Club>, users: set<UserId>, operator: UserId, target: UserId): int {
    if club.None? then 404
    else if operator != club.value.creator then 403
    else if target !in users then 404
    else if |club.value.members| >= 50 then 400
    else if target in club.value.members then 409
    else 0
  }

  /** Only the creator removes, and never itself. */
  ghost function WhyNotRemove(club: Option<Club>, operator: UserId, target: UserId): int {
    if club.None? then 404
    else if operator != club.value.creator || target == club.value.creator then 403
    else if target !in club.value.members then 404
    else 0
  }

  /** Only members leave, and the creator only as the last one. */
  ghost function WhyNotLeave(club: Option<Club>, operator: UserId): int {
    if club.None? || operator !in club.value.members then 404
    else if operator == club.value.creator && club.value.members != {operator} then 403
    else 0
  }

  ghost predicate Answered(r: OpResult, why: int) {
    r == OpResult(why == 0, why)
  }

  lemma AddAnswer(t: Tables, groupId: string, operator: UserId, target: UserId, now: string)
    requires GroupInv(t)
    ensures Answered(AddMember(t, groupId, operator, target, now).1, WhyNotAdd(ClubOf(t, groupId), t.users, operator, target))
    ensures AddMember(t, groupId, operator, target, now).1.success ==>
              AddMember(t, groupId, operator, target, now).0.members == t.members + [Member(groupId, target, MemberRole, now)]
  {
    CountIsSize(t.members, groupId);
    MemberSetOf(t.members, groupId, target);
    hide GroupInv, Count, MemberSet;
  }

  lemma RemoveAnswer(t: Tables, groupId: string, operator: UserId, target: UserId)
    requires GroupInv(t)
    ensures Answered(RemoveMember(t, groupId, operator, target).1, WhyNotRemove(ClubOf(t, groupId), operator, target))
  {
    MemberSetOf(t.members, groupId, target);
    hide GroupInv, MemberSet, Where;
  }

  lemma LeaveAnswer(t: Tables, groupId: string, operator: UserId)
    requires GroupInv(t)
    ensures Answered(LeaveGroup(t, groupId, operator).1, WhyNotLeave(ClubOf(t, groupId), operator))
  {
    CountIsSize(t.members, groupId);
    MemberSetOf(t.members, groupId, operator);
    if operator in MemberSet(t.members, groupId) { OnlyOne(MemberSet(t.members, groupId), operator); }
    hide GroupInv, MemberSet, Where, Count;
  }

  /** Why a group cannot be created, or 0. */
  ghost function WhyNotCreate(club: Option<Club>, users: set<UserId>, creator: UserId, invitees: seq<string>): int {
    if |{creator} + Invited(invitees)| > 50 then 400
    else if !(Invited(invitees) <= users + {creator}) then 404
    else if club.Some? then 500
    else 0
  }

  lemma CreateRefusal(t: Tables, name: string, creator: UserId, invitees: seq<string>, groupId: string, now: string)
    requires GroupInv(t)
    ensures var r := CreateGroup(t, name, creator, invitees, groupId, now).1;
            r.errorCode == WhyNotCreate(ClubOf(t, groupId), t.users, creator, invitees) && (r.success <==> r.errorCode == 0)
  {
    CreateOutcome(t, name, creator, invitees, groupId, now);
    CleanedElements(creator, invitees);
    CreateCounts(creator, invitees);
    assert forall x :: x in Cleaned(creator, invitees) <==> x in Elements(Cleaned(creator, invitees));
    hide Cleaned, Invited, GroupInv, MemberRows, InsertMembers, ClubOf;
  }

  /** A new group is stored under its name, with its creator; its rows date from now; the answer names its members,
      the creator first. */
  lemma CreateAnswer(t: Tables, name: string, creator: UserId, invitees: seq<string>, groupId: string, now: string)
    requires GroupInv(t)
    ensures var (u, r) := CreateGroup(t, name, creator, invitees, groupId, now);
            && r.errorCode == WhyNotCreate(ClubOf(t, groupId), t.users, creator, invitees)
            && (r.success <==> r.errorCode == 0)
            && (r.success ==>
                  && r.groupId == groupId && u.users == t.users
                  && u.groups == t.groups + [Group(groupId, name, creator, now, now)]
                  && r.memberUserIds != [] && r.memberUserIds[0] == creator && Distinct(r.memberUserIds)
                  && Elements(r.memberUserIds) == {creator} + Invited(invitees)
                  && t.members <= u.members
                  && (forall i :: |t.members| <= i < |u.members| ==> u.members[i].group == groupId && u.members[i].joinedAt == now))
  {
    CreateRefusal(t, name, creator, invitees, groupId, now);
    var (u, r) := CreateGroup(t, name, creator, invitees, groupId, now);
    if r.success {
      var others := Cleaned(creator, invitees);
      var rows := [Member(groupId, creator, CreatorRole, now)] + MemberRows(groupId, others, now);
      assert u.members == t.members + rows && r.memberUserIds == [creator] + others by {
        CreateOutcome(t, name, creator, invitees, groupId, now);
        hide GroupInv, Cleaned, Invited, MemberRows, InsertMembers, ClubOf;
      }
      NewMembers(creator, invitees);
      forall i | 0 <= i < |rows| ensures rows[i].group == groupId && rows[i].joinedAt == now {
      }
      hide GroupInv, Cleaned, Invited, MemberRows, InsertMembers, ClubOf, WhyNotCreate, Distinct, Elements;
    }
  }

  /** `first` is named before every mention of `second`. */
  ghost predicate NamedBefore(invitees: seq<string>, first: UserId, second: UserId) {
    exists p :: 0 <= p < |invitees| && Trim(invitees[p]) == first && forall q :: 0 <= q <= p ==> Trim(invitees[q]) != second
  }

  /** The invitees become members in the order in which they are first named. */
  lemma {:induction false} InvitedInOrder(creator: UserId, invitees: seq<string>, i: nat, j: nat)
    requires i < j < |Cleaned(creator, invitees)|
    ensures NamedBefore(invitees, Cleaned(creator, invitees)[i], Cleaned(creator, invitees)[j])
  {
    hide Trim;
    var n := |invitees| - 1;
    var front, all := Cleaned(creator, invitees[..n]), Cleaned(creator, invitees);
    var p;
    if j < |front| {
      InvitedInOrder(creator, invitees[..n], i, j);
      p :| 0 <= p < n && Trim(invitees[..n][p]) == all[i] && forall q :: 0 <= q <= p ==> Trim(invitees[..n][q]) != all[j];
    } else {
      CleanedElements(creator, invitees[..n]);
      assert front[i] in Elements(front);
      p :| 0 <= p < n && Trim(invitees[..n][p]) == front[i];
      assert forall q :: 0 <= q < n ==> Trim(invitees[..n][q]) != "" ==> Trim(invitees[..n][q]) in Invited(invitees[..n]);
      assert all[j] !in front && all[j] !in Elements(front);
    }
    assert forall q :: 0 <= q <= p ==> invitees[..n][q] == invitees[q];
  }

  lemma NewMembers(creator: UserId, invitees: seq<string>)
    ensures var users := [creator] + Cleaned(creator, invitees);
            Distinct(users) && Elements(users) == {creator} + Invited(invitees)
  {
    hide Cleaned, Invited;
    CleanedElements(creator, invitees);
    var others := Cleaned(creator, invitees);
    assert Elements([creator] + others) == {creator} + Elements(others);
    assert forall x :: x in others <==> x in Elements(others);
  }

  // ---------------------------------------------------------------- the order of the lists

  lemma JoinTimeIsOrder()
    ensures IsOrder(ByJoinTime())
  {
    forall a: Member, b: Member ensures ByJoinTime()(a, b) || ByJoinTime()(b, a) { LessDecides(a.joinedAt, b.joinedAt); }
    forall a: Member, b: Member, c: Member | ByJoinTime()(a, b) && ByJoinTime()(b, c) ensures ByJoinTime()(a, c) {
      LessTransitive(a.joinedAt, b.joinedAt, c.joinedAt);
    }
  }

  ghost predicate JoinedAt(members: seq<Member>, id: string, user: UserId, at: string) {
    exists m :: m in members && m.group == id && m.user == user && m.joinedAt == at
  }

  lemma ListedMember(members: seq<Member>, id: string, i: nat, at: string)
    requires UniqueMembers(members) && i < |MembersOf(members, id)| && JoinedAt(members, id, MembersOf(members, id)[i], at)
    ensures OrderBy(Where(members, OfGroup(id)), ByJoinTime())[i].joinedAt == at
  {
    var kept := Where(members, OfGroup(id));
    var row := OrderBy(kept, ByJoinTime())[i];
    SameRows(kept, ByJoinTime());
    hide OrderBy;
    assert row in OrderBy(kept, ByJoinTime()) && row in members && row.group == id;
    var m :| m in members && m.group == id && m.user == MembersOf(members, id)[i] && m.joinedAt == at;
    assert m == row;
  }

  /** A member list is loaded exactly for a group that exists, with its name; otherwise the answer is 404. */
  lemma LoadedAnswer(t: Tables, groupId: string, token: Token)
    ensures var r := GroupModel.LoadGroupMembers(t, groupId, token);
            && r.groupId == groupId && r.token == token
            && (r.success <==> ClubOf(t, groupId).Some?)
            && (r.success ==> exists g :: g in t.groups && g.id == groupId && g.name == r.groupName)
            && (!r.success ==> r.errorCode == 404 && r.errorMessage == "Group not found" && r.members == [])
  {
  }

  /** Members are listed in the order in which they joined. */
  lemma MembersInJoinOrder(members: seq<Member>, id: string, i: nat, j: nat, first: string, second: string)
    requires UniqueMembers(members) && i < j < |MembersOf(members, id)|
    requires JoinedAt(members, id, MembersOf(members, id)[i], first) && JoinedAt(members, id, MembersOf(members, id)[j], second)
    ensures !Less(second, first)
  {
    JoinTimeIsOrder();
    var kept := Where(members, OfGroup(id));
    OrderBySorted(kept, ByJoinTime());
    ListedMember(members, id, i, first);
    ListedMember(members, id, j, second);
    assert ByJoinTime()(OrderBy(kept, ByJoinTime())[i], OrderBy(kept, ByJoinTime())[j]);
  }

  lemma LastChangeIsOrder()
    ensures IsOrder(ByLastChange())
  {
    forall a: Group, b: Group ensures ByLastChange()(a, b) || ByLastChange()(b, a) {
      LessDecides(a.updatedAt, b.updatedAt);
      LessDecides(a.createdAt, b.createdAt);
    }
    forall a: Group, b: Group, c: Group | ByLastChange()(a, b) && ByLastChange()(b, c) ensures ByLastChange()(a, c) {
      LessDecides(a.updatedAt, b.updatedAt);
      LessDecides(b.updatedAt, c.updatedAt);
      LessDecides(a.updatedAt, c.updatedAt);
      LessTransitive(c.updatedAt, b.updatedAt, a.updatedAt);
      if a.updatedAt == b.updatedAt == c.updatedAt { LessTransitive(c.createdAt, b.createdAt, a.createdAt); }
    }
  }

  /** A user's groups are exactly those with the user as a member, the last changed first, of these the last created
      first; each is listed with its members. */
  lemma GroupListExact(t: Tables, user: UserId)
    ensures var list := GroupList(t, user);
            && (forall g :: (exists i :: 0 <= i < |list| && list[i].group == g) <==> g in t.groups && HasMember(t.members, g.id, user))
            && (forall i :: 0 <= i < |list| ==> list[i].memberUserIds == MembersOf(t.members, list[i].group.id))
            && (forall i, j :: 0 <= i < j < |list| ==>
                  && !Less(list[i].group.updatedAt, list[j].group.updatedAt)
                  && (list[i].group.updatedAt == list[j].group.updatedAt ==> !Less(list[i].group.createdAt, list[j].group.createdAt)))
  {
    var kept := Where(t.groups, Joined(t.members, user));
    var groups, list := GroupsOf(t, user), GroupList(t, user);
    LastChangeIsOrder();
    OrderBySorted(kept, ByLastChange());
    SameRows(kept, ByLastChange());
    forall g ensures (exists i :: 0 <= i < |list| && list[i].group == g) <==> g in t.groups && HasMember(t.members, g.id, user) {
      if g in groups {
        var i :| 0 <= i < |groups| && groups[i] == g;
        assert list[i].group == g;
      }
      assert g in groups <==> g in kept;
    }
    forall i, j | 0 <= i < j < |list|
      ensures !Less(list[i].group.updatedAt, list[j].group.updatedAt)
      ensures list[i].group.updatedAt == list[j].group.updatedAt ==> !Less(list[i].group.createdAt, list[j].group.createdAt)
    {
      assert ByLastChange()(groups[i], groups[j]);
      LessDecides(list[i].group.updatedAt, list[j].group.updatedAt);
    }
  }
}
