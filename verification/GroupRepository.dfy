/** The server's group repository: three tables, updated in place. */
module Groups {
  import opened Wire
  import opened Text
  import opened Query
  import opened GroupModel
  import GroupInvariant

  // ---------------------------------------------------------------- one query for all groups

  function Ids(groups: seq<Group>): seq<string> {
    seq(|groups|, i requires 0 <= i < |groups| => groups[i].id)
  }

  function OfGroups(ids: seq<string>): Member -> bool { (m: Member) => m.group in ids }

  lemma JoinTimeIsOrder()
    ensures IsOrder(ByJoinTime())
  {
    forall a: Member, b: Member ensures ByJoinTime()(a, b) || ByJoinTime()(b, a) {
      LessDecides(a.joinedAt, b.joinedAt);
    }
    forall a: Member, b: Member, c: Member | ByJoinTime()(a, b) && ByJoinTime()(b, c) ensures ByJoinTime()(a, c) {
      LessTransitive(a.joinedAt, b.joinedAt, c.joinedAt);
    }
  }

  /** Out of the single query over all groups, the rows of one group are exactly that group's own
      query, in the same order. */
  lemma BatchedRows(members: seq<Member>, ids: seq<string>, id: string)
    requires id in ids
    ensures Users(Where(OrderBy(Where(members, OfGroups(ids)), ByJoinTime()), OfGroup(id))) == MembersOf(members, id)
  {
    JoinTimeIsOrder();
    OrderThenWhere(Where(members, OfGroups(ids)), ByJoinTime(), OfGroup(id));
    WhereTwice(members, OfGroups(ids), OfGroup(id));
  }

  lemma WhereSnoc(rows: seq<Member>, k: nat, p: Member -> bool)
    requires k < |rows|
    ensures Users(Where(rows[..k + 1], p)) == Users(Where(rows[..k], p)) + (if p(rows[k]) then [rows[k].user] else [])
  {
    assert rows[..k + 1][..k] == rows[..k];
  }

  lemma NoRowsYet(joined: seq<Group>)
    ensures forall k :: 0 <= k < |joined| ==> Users(Where([], OfGroup(joined[k].id))) == []
  {
  }

  lemma IdsUnique(t: Tables, user: UserId)
    requires UniqueIds(t.groups)
    ensures UniqueIds(GroupsOf(t, user))
  {
    GroupInvariant.WhereUniqueIds(t.groups, Joined(t.members, user));
    IdsUniqueOrder(Where(t.groups, Joined(t.members, user)), ByLastChange());
  }

  lemma {:induction false} InsertedUnique(groups: seq<Group>, g: Group, leq: (Group, Group) -> bool)
    requires UniqueIds(groups) && forall h :: h in groups ==> h.id != g.id
    ensures UniqueIds(InsertRow(groups, g, leq))
  {
    if groups != [] {
      var n := |groups| - 1;
      if !leq(groups[n], g) {
        InsertedUnique(groups[..n], g, leq);
        InsertRowRows(groups[..n], g, leq);
        var front := InsertRow(groups[..n], g, leq);
        forall i | 0 <= i < |front| ensures front[i].id != groups[n].id {
          assert front[i] in multiset(front);
          assert front[i] in groups[..n] || front[i] == g;
        }
      }
    }
  }

  lemma {:induction false} IdsUniqueOrder(groups: seq<Group>, leq: (Group, Group) -> bool)
    requires UniqueIds(groups)
    ensures UniqueIds(OrderBy(groups, leq))
  {
    if groups != [] {
      var n := |groups| - 1;
      IdsUniqueOrder(groups[..n], leq);
      SameRows(groups[..n], leq);
      InsertedUnique(OrderBy(groups[..n], leq), groups[n], leq);
    }
  }

  // ---------------------------------------------------------------- the repository

  class GroupRepository {
    var users: set<UserId>
    var groups: seq<Group>
    var members: seq<Member>

    ghost function View(): Tables reads this { Tables(users, groups, members) }

    method CreateGroup(name: string, creatorUserId: UserId, memberUserIds: seq<string>, groupId: string, now: string) returns (result: CreateResult)
      modifies this`groups, this`members
      ensures (View(), result) == GroupModel.CreateGroup(old(View()), name, creatorUserId, memberUserIds, groupId, now)
    {
      var cleanedMembers := CleanMembers(creatorUserId, memberUserIds);
      var totalMembers := 1 + |cleanedMembers|;
      if totalMembers > MAX_MEMBERS {
        return Refused(400);
      }
      for i := 0 to |cleanedMembers|
        invariant forall u :: u in cleanedMembers[..i] ==> u in users
      {
        if cleanedMembers[i] !in users {
          return Refused(404);
        }
      }
      if FindGroup(groups, groupId).Some? { // the primary key refuses the INSERT
        return Refused(500);
      }
      var savedGroups, savedMembers := groups, members; // BEGIN
      groups := groups + [Group(groupId, name, creatorUserId, now, now)];
      var ok := Insert(Member(groupId, creatorUserId, CreatorRole, now));
      ghost var rows := [Member(groupId, creatorUserId, CreatorRole, now)] + MemberRows(groupId, cleanedMembers, now);
      assert rows[..1] == [rows[0]] && rows[..1][..0] == [];
      var i := 0;
      while ok && i < |cleanedMembers|
        invariant 0 <= i <= |cleanedMembers|
        invariant groups == savedGroups + [Group(groupId, name, creatorUserId, now, now)]
        invariant InsertMembers(savedMembers, rows[..i + 1]) == if ok then Some(members) else None
      {
        assert rows[..i + 2][..i + 1] == rows[..i + 1];
        ok := Insert(Member(groupId, cleanedMembers[i], MemberRole, now));
        i := i + 1;
      }
      if !ok {
        NoneStaysNone(savedMembers, rows, i + 1);
        groups, members := savedGroups, savedMembers; // ROLLBACK
        return Refused(500);
      }
      assert rows[..i + 1] == rows;
      result := CreateResult(groupId, [creatorUserId] + cleanedMembers, true, 0);
    }

    method CleanMembers(creatorUserId: UserId, memberUserIds: seq<string>) returns (cleanedMembers: seq<UserId>)
      ensures cleanedMembers == Cleaned(creatorUserId, memberUserIds)
    {
      cleanedMembers := [];
      var seen := {creatorUserId};
      for i := 0 to |memberUserIds|
        invariant cleanedMembers == Cleaned(creatorUserId, memberUserIds[..i])
        invariant forall u :: u in seen <==> u == creatorUserId || u in cleanedMembers
      {
        assert memberUserIds[..i + 1][..i] == memberUserIds[..i];
        var trimmed := Trim(memberUserIds[i]);
        if trimmed != "" && trimmed !in seen {
          seen := seen + {trimmed};
          cleanedMembers := cleanedMembers + [trimmed];
        }
      }
      assert memberUserIds[..|memberUserIds|] == memberUserIds;
    }

    method Insert(m: Member) returns (ok: bool)
      modifies this`members
      ensures InsertMember(old(members), m) == if ok then Some(members) else None
      ensures !ok ==> members == old(members)
    {
      ok := !HasMember(members, m.group, m.user);
      if ok {
        members := members + [m];
      }
    }

    method AddMember(groupId: string, operatorUserId: UserId, targetUserId: UserId, now: string) returns (result: OpResult)
      modifies this`members
      ensures (View(), result) == GroupModel.AddMember(old(View()), groupId, operatorUserId, targetUserId, now)
    {
      var found := FindGroup(groups, groupId);
      if found.None? {
        return OpRefused(404);
      }
      var creatorId := found.value.creator;
      if operatorUserId != creatorId {
        return OpRefused(403);
      }
      if targetUserId !in users {
        return OpRefused(404);
      }
      var currentCount := Count(members, groupId);
      if currentCount >= MAX_MEMBERS {
        return OpRefused(400);
      }
      if HasMember(members, groupId, targetUserId) {
        return OpRefused(409);
      }
      members := members + [Member(groupId, targetUserId, MemberRole, now)];
      result := OpResult(true, 0);
    }

    method RemoveMember(groupId: string, operatorUserId: UserId, targetUserId: UserId) returns (result: OpResult)
      modifies this`members
      ensures (View(), result) == GroupModel.RemoveMember(old(View()), groupId, operatorUserId, targetUserId)
    {
      var found := FindGroup(groups, groupId);
      if found.None? {
        return OpRefused(404);
      }
      var creatorId := found.value.creator;
      if operatorUserId != creatorId {
        return OpRefused(403);
      }
      if targetUserId == creatorId {
        return OpRefused(403);
      }
      if !HasMember(members, groupId, targetUserId) {
        return OpRefused(404);
      }
      members := Where(members, NotRow(groupId, targetUserId));
      result := OpResult(true, 0);
    }

    method LeaveGroup(groupId: string, operatorUserId: UserId) returns (result: OpResult)
      modifies this`groups, this`members
      ensures (View(), result) == GroupModel.LeaveGroup(old(View()), groupId, operatorUserId)
    {
      var found := FindGroup(groups, groupId);
      if found.None? {
        return OpRefused(404);
      }
      var creatorId := found.value.creator;
      if !HasMember(members, groupId, operatorUserId) {
        return OpRefused(404);
      }
      if operatorUserId == creatorId {
        var memberCount := Count(members, groupId);
        if memberCount == 1 {
          groups := Where(groups, OtherGroup(groupId));
          members := Where(members, NotOfGroup(groupId)); // ON DELETE CASCADE
          return OpResult(true, 0);
        }
        return OpRefused(403);
      }
      members := Where(members, NotRow(groupId, operatorUserId));
      result := OpResult(true, 0);
    }

    method LoadGroupMembers(groupId: string, reqMsgId: Token) returns (result: MembersResult)
      ensures result == GroupModel.LoadGroupMembers(View(), groupId, reqMsgId)
    {
      var found := FindGroup(groups, groupId);
      if found.None? {
        return MembersResult(groupId, "", [], reqMsgId, false, 404, "Group not found");
      }
      var rows := OrderBy(Where(members, OfGroup(groupId)), ByJoinTime());
      var loaded: seq<UserId> := [];
      for i := 0 to |rows|
        invariant loaded == Users(rows[..i])
      {
        loaded := loaded + [rows[i].user];
      }
      assert rows[..|rows|] == rows;
      result := MembersResult(groupId, found.value.name, loaded, reqMsgId, true, 0, "");
    }

    /** One query for the members of all groups, sorted into the entries through an index: the same
        list as one query per group. */
    method LoadGroupList(userId: UserId) returns (entries: seq<Entry>)
      requires UniqueIds(groups)
      ensures entries == GroupList(View(), userId)
    {
      var joined := OrderBy(Where(groups, Joined(members, userId)), ByLastChange());
      IdsUnique(View(), userId);
      hide Where, OrderBy;
      entries := FillEntries(joined);
    }

    method FillEntries(joined: seq<Group>) returns (entries: seq<Entry>)
      requires UniqueIds(joined)
      ensures |entries| == |joined|
      ensures forall k :: 0 <= k < |joined| ==> entries[k] == Entry(joined[k], MembersOf(members, joined[k].id))
    {
      entries := [];
      var groupIndex: map<string, nat> := map[];
      for i := 0 to |joined|
        invariant |entries| == i
        invariant forall k :: 0 <= k < i ==> entries[k] == Entry(joined[k], [])
        invariant forall k :: 0 <= k < i ==> joined[k].id in groupIndex && groupIndex[joined[k].id] == k
        invariant forall id :: id in groupIndex ==> groupIndex[id] < i && joined[groupIndex[id]].id == id
      {
        entries := entries + [Entry(joined[i], [])];
        groupIndex := groupIndex[joined[i].id := i];
      }
      NoRowsYet(joined);
      if joined != [] {
        hide Where, OrderBy, MembersOf, Users;
        var rows := OrderBy(Where(members, OfGroups(Ids(joined))), ByJoinTime());
        for i := 0 to |rows|
          invariant |entries| == |joined|
          invariant forall k :: 0 <= k < |joined| ==>
            entries[k] == Entry(joined[k], Users(Where(rows[..i], OfGroup(joined[k].id))))
        {
          forall k | 0 <= k < |joined| {
            WhereSnoc(rows, i, OfGroup(joined[k].id));
          }
          var row := rows[i];
          if row.group in groupIndex {
            var k := groupIndex[row.group];
            entries := entries[k := entries[k].(memberUserIds := entries[k].memberUserIds + [row.user])];
          }
        }
        assert rows[..|rows|] == rows;
        forall k | 0 <= k < |joined| ensures entries[k] == Entry(joined[k], MembersOf(members, joined[k].id)) {
          assert Ids(joined)[k] == joined[k].id;
          BatchedRows(members, Ids(joined), joined[k].id);
        }
      }
    }
  }

  lemma {:induction false} NoneStaysNone(members: seq<Member>, rows: seq<Member>, k: nat)
    requires k <= |rows| && InsertMembers(members, rows[..k]).None?
    ensures InsertMembers(members, rows).None?
    decreases |rows| - k
  {
    if k < |rows| {
      assert rows[..k + 1][..k] == rows[..k];
      NoneStaysNone(members, rows, k + 1);
    } else {
      assert rows[..k] == rows;
    }
  }
}
