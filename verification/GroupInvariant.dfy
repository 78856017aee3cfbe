/** What every sequence of group calls keeps. */
module GroupInvariant {
  import opened Wire
  import opened Text
  import opened Query
  import opened GroupModel

  // ---------------------------------------------------------------- cleaning the invitees

  /** The trimmed, non-empty invitees. */
  ghost function Invited(invitees: seq<string>): set<UserId> {
    set i | 0 <= i < |invitees| && Trim(invitees[i]) != "" :: Trim(invitees[i])
  }

  ghost predicate Distinct(xs: seq<UserId>) {
    forall i, j :: 0 <= i < j < |xs| ==> xs[i] != xs[j]
  }

  ghost function Elements(xs: seq<UserId>): set<UserId> { set x | x in xs }

  lemma {:induction false} DistinctSize(xs: seq<UserId>)
    requires Distinct(xs)
    ensures |Elements(xs)| == |xs|
  {
    if xs != [] {
      var n := |xs| - 1;
      DistinctSize(xs[..n]);
      assert Elements(xs) == Elements(xs[..n]) + {xs[n]};
    }
  }

  lemma {:induction false} CleanedElements(creator: UserId, invitees: seq<string>)
    ensures Elements(Cleaned(creator, invitees)) == Invited(invitees) - {creator}
    ensures Distinct(Cleaned(creator, invitees))
  {
    hide Trim;
    if invitees != [] {
      var n := |invitees| - 1;
      CleanedElements(creator, invitees[..n]);
      var front := Cleaned(creator, invitees[..n]);
      InvitedSnoc(invitees);
      assert Elements(front + [Trim(invitees[n])]) == Elements(front) + {Trim(invitees[n])};
    }
  }

  lemma InvitedSnoc(invitees: seq<string>)
    requires invitees != []
    ensures var n := |invitees| - 1;
            Invited(invitees) == Invited(invitees[..n]) + (if Trim(invitees[n]) != "" then {Trim(invitees[n])} else {})
  {
  }

  /** The member count that the limit is checked against. */
  lemma CreateCounts(creator: UserId, invitees: seq<string>)
    ensures 1 + |Cleaned(creator, invitees)| == |{creator} + Invited(invitees)|
  {
    CleanedElements(creator, invitees);
    DistinctSize(Cleaned(creator, invitees));
    var others := Elements(Cleaned(creator, invitees));
    assert {creator} + Invited(invitees) == {creator} + others && creator !in others;
  }

  // ---------------------------------------------------------------- the members of a group, as a set

  ghost function MemberSet(members: seq<Member>, id: string): set<UserId> {
    set m | m in members && m.group == id :: m.user
  }

  lemma {:induction false} CountIsSize(members: seq<Member>, id: string)
    requires UniqueMembers(members)
    ensures Count(members, id) == |MemberSet(members, id)|
  {
    if members != [] {
      var n := |members| - 1;
      assert members == members[..n] + [members[n]];
      CountIsSize(members[..n], id);
      if members[n].group == id {
        assert members[n].user !in MemberSet(members[..n], id);
        assert MemberSet(members, id) == MemberSet(members[..n], id) + {members[n].user};
      } else {
        assert MemberSet(members, id) == MemberSet(members[..n], id);
      }
    }
  }

  lemma {:induction false} WhereUnique(members: seq<Member>, p: Member -> bool)
    requires UniqueMembers(members)
    ensures UniqueMembers(Where(members, p))
  {
    if members != [] {
      var n := |members| - 1;
      WhereUnique(members[..n], p);
      var front := Where(members[..n], p);
      forall i | 0 <= i < |front| ensures front[i].group != members[n].group || front[i].user != members[n].user {
        assert front[i] in front;
        var k :| 0 <= k < n && members[..n][k] == front[i];
      }
    }
  }

  lemma {:induction false} WhereUniqueIds(groups: seq<Group>, p: Group -> bool)
    requires UniqueIds(groups)
    ensures UniqueIds(Where(groups, p))
  {
    if groups != [] {
      var n := |groups| - 1;
      WhereUniqueIds(groups[..n], p);
      var front := Where(groups[..n], p);
      forall i | 0 <= i < |front| ensures front[i].id != groups[n].id {
        assert front[i] in front;
        var k :| 0 <= k < n && groups[..n][k] == front[i];
      }
    }
  }

  lemma MemberSetOf(members: seq<Member>, id: string, user: UserId)
    ensures user in MemberSet(members, id) <==> HasMember(members, id, user)
  {
  }

  /** A transaction whose rows are new and different inserts all of them. */
  lemma {:induction false} InsertsSucceed(members: seq<Member>, rows: seq<Member>)
    requires UniqueMembers(members + rows)
    ensures InsertMembers(members, rows) == Some(members + rows)
  {
    if rows == [] {
      assert members + rows == members;
    } else {
      var n := |rows| - 1;
      var whole := members + rows;
      assert members + rows[..n] == whole[..|whole| - 1];
      InsertsSucceed(members, rows[..n]);
      assert members + rows == (members + rows[..n]) + [rows[n]];
      forall m | m in members + rows[..n] ensures m.group != rows[n].group || m.user != rows[n].user {
        var k :| 0 <= k < |whole| - 1 && whole[k] == m;
        assert whole[|whole| - 1] == rows[n];
      }
    }
  }

  // ---------------------------------------------------------------- the invariant

  /** `m` belongs to a group that exists, as its creator or as a known user. */
  predicate Belongs(t: Tables, m: Member) {
    match FindGroup(t.groups, m.group)
    case None => false
    case Some(g) => (m.role == CreatorRole <==> m.user == g.creator) && (m.user == g.creator || m.user in t.users)
  }

  ghost predicate Sound(t: Tables, g: Group) {
    HasMember(t.members, g.id, g.creator) && |MemberSet(t.members, g.id)| <= MAX_MEMBERS
  }

  ghost predicate GroupInv(t: Tables) {
    && UniqueIds(t.groups)
    && UniqueMembers(t.members)
    && (forall m :: m in t.members ==> Belongs(t, m))
    && (forall g :: g in t.groups ==> Sound(t, g))
  }

  // ---------------------------------------------------------------- runs

  datatype Call =
    | UserSeen(user: UserId)
    | CreateCall(name: string, creator: UserId, invitees: seq<string>, groupId: string, now: string)
    | AddCall(groupId: string, operator: UserId, target: UserId, now: string)
    | RemoveCall(groupId: string, operator: UserId, target: UserId)
    | LeaveCall(groupId: string, operator: UserId)

  function Apply(t: Tables, c: Call): Tables {
    match c
    case UserSeen(user) => t.(users := t.users + {user})
    case CreateCall(name, creator, invitees, groupId, now) => CreateGroup(t, name, creator, invitees, groupId, now).0
    case AddCall(groupId, operator, target, now) => AddMember(t, groupId, operator, target, now).0
    case RemoveCall(groupId, operator, target) => RemoveMember(t, groupId, operator, target).0
    case LeaveCall(groupId, operator) => LeaveGroup(t, groupId, operator).0
  }

  function ApplyAll(t: Tables, calls: seq<Call>): Tables {
    if calls == [] then t else Apply(ApplyAll(t, calls[..|calls| - 1]), calls[|calls| - 1])
  }

  // ---------------------------------------------------------------- one group, seen on its own

  /** A group reduced to what the calls decide on: its creator and its set of members. */
  datatype Club = Club(creator: UserId, members: set<UserId>)

  ghost function ClubOf(t: Tables, id: string): Option<Club> {
    match FindGroup(t.groups, id)
    case None => None
    case Some(g) => Some(Club(g.creator, MemberSet(t.members, id)))
  }

  ghost function AfterCreate(club: Option<Club>, users: set<UserId>, creator: UserId, invitees: seq<string>): Option<Club> {
    if club.None? && |{creator} + Invited(invitees)| <= MAX_MEMBERS && Invited(invitees) <= users + {creator}
    then Some(Club(creator, {creator} + Invited(invitees))) else club
  }

  ghost function AfterAdd(club: Option<Club>, users: set<UserId>, operator: UserId, target: UserId): Option<Club> {
    if club.Some? && operator == club.value.creator && target in users && |club.value.members| < MAX_MEMBERS
    then Some(club.value.(members := club.value.members + {target})) else club
  }

  ghost function AfterRemove(club: Option<Club>, operator: UserId, target: UserId): Option<Club> {
    if club.Some? && operator == club.value.creator && target != club.value.creator
    then Some(club.value.(members := club.value.members - {target})) else club
  }

  ghost function AfterLeave(club: Option<Club>, operator: UserId): Option<Club> {
    if club.None? then club
    else if operator != club.value.creator then Some(club.value.(members := club.value.members - {operator}))
    else if club.value.members == {operator} then None
    else club
  }

  /** The rules for one group: which call changes it, and to what. */
  ghost function Next(club: Option<Club>, users: set<UserId>, id: string, c: Call): Option<Club> {
    match c
    case UserSeen(_) => club
    case CreateCall(_, creator, invitees, groupId, _) => if groupId == id then AfterCreate(club, users, creator, invitees) else club
    case AddCall(groupId, operator, target, _) => if groupId == id then AfterAdd(club, users, operator, target) else club
    case RemoveCall(groupId, operator, target) => if groupId == id then AfterRemove(club, operator, target) else club
    case LeaveCall(groupId, operator) => if groupId == id then AfterLeave(club, operator) else club
  }

  lemma CreateOutcome(t: Tables, name: string, creator: UserId, invitees: seq<string>, groupId: string, now: string)
    requires GroupInv(t)
    ensures var (u, r) := CreateGroup(t, name, creator, invitees, groupId, now);
            var rows := [Member(groupId, creator, CreatorRole, now)] + MemberRows(groupId, Cleaned(creator, invitees), now);
            && (r.success <==> ClubOf(t, groupId).None? && |{creator} + Invited(invitees)| <= MAX_MEMBERS
                               && Invited(invitees) <= t.users + {creator})
            && (r.success ==> u == t.(groups := t.groups + [Group(groupId, name, creator, now, now)], members := t.members + rows)
                              && UniqueMembers(t.members + rows))
            && (!r.success ==> u == t)
            && (r.errorCode == 500 ==> ClubOf(t, groupId).Some?)
  {
    var cleaned := Cleaned(creator, invitees);
    var rows := [Member(groupId, creator, CreatorRole, now)] + MemberRows(groupId, cleaned, now);
    CreateCounts(creator, invitees);
    CleanedElements(creator, invitees);
    assert forall u :: u in cleaned <==> u in Elements(cleaned);
    if FindGroup(t.groups, groupId).None? {
      NewRowsUnique(t, groupId, rows);
      InsertsSucceed(t.members, rows);
    }
  }

  lemma NewRowsUnique(t: Tables, groupId: string, rows: seq<Member>)
    requires GroupInv(t) && FindGroup(t.groups, groupId).None? && UniqueMembers(rows)
    requires forall m :: m in rows ==> m.group == groupId
    ensures UniqueMembers(t.members + rows)
  {
    forall m | m in t.members ensures m.group != groupId {
      assert Belongs(t, m);
    }
    var whole := t.members + rows;
    forall i, j | 0 <= i < j < |whole| ensures whole[i].group != whole[j].group || whole[i].user != whole[j].user {
      if i < |t.members| <= j {
        assert whole[i] in t.members && whole[j] in rows;
      } else if |t.members| <= i {
        assert whole[i] == rows[i - |t.members|] && whole[j] == rows[j - |t.members|];
      }
    }
  }

  lemma FindUnique(groups: seq<Group>, g: Group)
    requires UniqueIds(groups) && g in groups
    ensures FindGroup(groups, g.id) == Some(g)
  {
  }

  /** Groups other than those of one id are looked up as before. */
  lemma FindOther(before: seq<Group>, after: seq<Group>, id: string)
    requires UniqueIds(before) && UniqueIds(after)
    requires forall g: Group :: g.id == id ==> (g in before <==> g in after)
    ensures FindGroup(before, id) == FindGroup(after, id)
  {
  }

  lemma CreateFollows(t: Tables, name: string, creator: UserId, invitees: seq<string>, groupId: string, now: string, id: string)
    requires GroupInv(t)
    ensures var u := CreateGroup(t, name, creator, invitees, groupId, now).0;
            GroupInv(u) && ClubOf(u, id) == if groupId == id then AfterCreate(ClubOf(t, id), t.users, creator, invitees) else ClubOf(t, id)
  {
    var (u, r) := CreateGroup(t, name, creator, invitees, groupId, now);
    CreateOutcome(t, name, creator, invitees, groupId, now);
    hide CreateGroup, Invited, Cleaned, MemberRows;
    if r.success {
      var rows := [Member(groupId, creator, CreatorRole, now)] + MemberRows(groupId, Cleaned(creator, invitees), now);
      var g := Group(groupId, name, creator, now, now);
      RowUsers(groupId, creator, invitees, now);
      NewGroupClub(t, u, g, rows, {creator} + Invited(invitees), id);
    }
  }

  lemma RowUsers(groupId: string, creator: UserId, invitees: seq<string>, now: string)
    ensures var rows := [Member(groupId, creator, CreatorRole, now)] + MemberRows(groupId, Cleaned(creator, invitees), now);
            && MemberSet(rows, groupId) == {creator} + Invited(invitees)
            && forall m :: m in rows ==> m.group == groupId && (m.role == CreatorRole <==> m.user == creator)
  {
    var cleaned := Cleaned(creator, invitees);
    var rows := [Member(groupId, creator, CreatorRole, now)] + MemberRows(groupId, cleaned, now);
    CleanedElements(creator, invitees);
    assert creator !in Elements(cleaned);
    forall u | u in {creator} + Elements(cleaned) ensures u in MemberSet(rows, groupId) {
      if u == creator {
        assert rows[0] in rows;
      } else {
        var i :| 0 <= i < |cleaned| && cleaned[i] == u;
        assert rows[i + 1] in rows && rows[i + 1].user == u;
      }
    }
    forall m | m in rows ensures m.user in {creator} + Elements(cleaned) && (m.role == CreatorRole <==> m.user == creator) {
      var i :| 0 <= i < |rows| && rows[i] == m;
      if i > 0 {
        assert m.user == cleaned[i - 1] && m.user in Elements(cleaned);
      }
    }
  }

  lemma NewGroupClub(t: Tables, u: Tables, g: Group, rows: seq<Member>, users: set<UserId>, id: string)
    requires GroupInv(t) && FindGroup(t.groups, g.id).None?
    requires u == t.(groups := t.groups + [g], members := t.members + rows) && UniqueMembers(u.members)
    requires MemberSet(rows, g.id) == users && g.creator in users && |users| <= MAX_MEMBERS && users <= t.users + {g.creator}
    requires forall m :: m in rows ==> m.group == g.id && (m.role == CreatorRole <==> m.user == g.creator)
    ensures GroupInv(u) && ClubOf(u, id) == if id == g.id then Some(Club(g.creator, users)) else ClubOf(t, id)
  {
    assert UniqueIds(u.groups);
    FindUnique(u.groups, g);
    forall m | m in t.members ensures m.group != g.id && Belongs(u, m) {
      assert Belongs(t, m);
      FindOther(t.groups, u.groups, m.group);
    }
    assert MemberSet(u.members, g.id) == users;
    forall m | m in rows ensures Belongs(u, m) {
      assert m.user in MemberSet(rows, g.id);
    }
    forall h | h in t.groups ensures Sound(u, h) {
      assert Sound(t, h);
      assert MemberSet(u.members, h.id) == MemberSet(t.members, h.id);
    }
    MemberSetOf(u.members, g.id, g.creator);
    if id != g.id {
      FindOther(t.groups, u.groups, id);
      assert MemberSet(u.members, id) == MemberSet(t.members, id);
    }
  }

  lemma AddFollows(t: Tables, groupId: string, operator: UserId, target: UserId, now: string, id: string)
    requires GroupInv(t)
    ensures var u := AddMember(t, groupId, operator, target, now).0;
            GroupInv(u) && ClubOf(u, id) == if groupId == id then AfterAdd(ClubOf(t, id), t.users, operator, target) else ClubOf(t, id)
  {
    CountIsSize(t.members, groupId);
    MemberSetOf(t.members, groupId, target);
    hide GroupInv, Count, HasMember, MemberSet, FindGroup;
    if FindGroup(t.groups, groupId).Some? && operator == FindGroup(t.groups, groupId).value.creator {
      if target in t.users && Count(t.members, groupId) < MAX_MEMBERS {
        if target in MemberSet(t.members, groupId) {
          AlreadyIn(MemberSet(t.members, groupId), target);
        } else {
          AddedMember(t, groupId, target, now, id);
        }
      }
    }
  }

  lemma AddedMember(t: Tables, groupId: string, target: UserId, now: string, id: string)
    requires GroupInv(t) && FindGroup(t.groups, groupId).Some? && target in t.users
    requires !HasMember(t.members, groupId, target) && |MemberSet(t.members, groupId)| < MAX_MEMBERS
    ensures var u := t.(members := t.members + [Member(groupId, target, MemberRole, now)]);
            && GroupInv(u)
            && MemberSet(u.members, id) == MemberSet(t.members, id) + (if id == groupId then {target} else {})
  {
    var u := t.(members := t.members + [Member(groupId, target, MemberRole, now)]);
    forall k ensures MemberSet(u.members, k) == MemberSet(t.members, k) + (if k == groupId then {target} else {}) {
      AppendedMember(t.members, Member(groupId, target, MemberRole, now), k);
    }
    CreatorIsMember(t, groupId);
    MemberSetOf(t.members, groupId, target);
    hide MemberSet;
    forall m | m in u.members ensures Belongs(u, m) {
      if m in t.members { assert Belongs(t, m); }
    }
    forall g | g in u.groups ensures Sound(u, g) {
      assert Sound(t, g);
      MemberSetOf(t.members, g.id, g.creator);
      MemberSetOf(u.members, g.id, g.creator);
    }
  }

  lemma AlreadyIn(users: set<UserId>, u: UserId)
    requires u in users
    ensures users + {u} == users
  {
  }

  lemma NotIn(users: set<UserId>, u: UserId)
    requires u !in users
    ensures users - {u} == users
  {
  }

  lemma AppendedMember(members: seq<Member>, m: Member, id: string)
    ensures MemberSet(members + [m], id) == MemberSet(members, id) + (if m.group == id then {m.user} else {})
  {
  }

  lemma CreatorIsMember(t: Tables, id: string)
    requires GroupInv(t) && FindGroup(t.groups, id).Some?
    ensures FindGroup(t.groups, id).value.creator in MemberSet(t.members, id)
  {
  }

  /** Deleting the row of one member who is not the creator. */
  lemma DropMember(t: Tables, groupId: string, user: UserId, id: string)
    requires GroupInv(t) && FindGroup(t.groups, groupId).Some? && user != FindGroup(t.groups, groupId).value.creator
    ensures var u := t.(members := Where(t.members, NotRow(groupId, user)));
            && GroupInv(u)
            && MemberSet(u.members, id) == MemberSet(t.members, id) - (if id == groupId then {user} else {})
  {
    var u := t.(members := Where(t.members, NotRow(groupId, user)));
    WhereUnique(t.members, NotRow(groupId, user));
    forall k ensures MemberSet(u.members, k) == MemberSet(t.members, k) - (if k == groupId then {user} else {}) {
      KeptMembers(t.members, groupId, user, k);
    }
    forall m | m in u.members ensures Belongs(u, m) {
      assert Belongs(t, m);
    }
    forall g | g in u.groups ensures Sound(u, g) {
      assert Sound(t, g);
      FindUnique(t.groups, g);
      SubsetSize(MemberSet(u.members, g.id), MemberSet(t.members, g.id));
      MemberSetOf(t.members, g.id, g.creator);
      MemberSetOf(u.members, g.id, g.creator);
    }
  }

  lemma KeptMembers(members: seq<Member>, groupId: string, user: UserId, id: string)
    ensures MemberSet(Where(members, NotRow(groupId, user)), id) == MemberSet(members, id) - (if id == groupId then {user} else {})
  {
  }

  lemma {:induction false} SubsetSize(small: set<UserId>, large: set<UserId>)
    requires small <= large
    ensures |small| <= |large|
    decreases small
  {
    if small != {} {
      var u :| u in small;
      SubsetSize(small - {u}, large - {u});
    }
  }

  lemma RemoveFollows(t: Tables, groupId: string, operator: UserId, target: UserId, id: string)
    requires GroupInv(t)
    ensures var u := RemoveMember(t, groupId, operator, target).0;
            GroupInv(u) && ClubOf(u, id) == if groupId == id then AfterRemove(ClubOf(t, id), operator, target) else ClubOf(t, id)
  {
    var (u, r) := RemoveMember(t, groupId, operator, target);
    MemberSetOf(t.members, groupId, target);
    if r.success {
      DropMember(t, groupId, target, id);
    } else if target !in MemberSet(t.members, groupId) {
      NotIn(MemberSet(t.members, groupId), target);
    }
  }

  lemma LeaveFollows(t: Tables, groupId: string, operator: UserId, id: string)
    requires GroupInv(t)
    ensures var u := LeaveGroup(t, groupId, operator).0;
            GroupInv(u) && ClubOf(u, id) == if groupId == id then AfterLeave(ClubOf(t, id), operator) else ClubOf(t, id)
  {
    MemberSetOf(t.members, groupId, operator);
    CountIsSize(t.members, groupId);
    hide Count, HasMember, MemberSet, FindGroup, Where;
    if FindGroup(t.groups, groupId).Some? {
      CreatorIsMember(t, groupId);
      hide GroupInv;
      var users := MemberSet(t.members, groupId);
      if operator != FindGroup(t.groups, groupId).value.creator {
        if operator in users { DropMember(t, groupId, operator, id); } else { NotIn(users, operator); }
      } else {
        OnlyOne(users, operator);
        Dissolved(t, groupId, id);
      }
    }
  }

  lemma OnlyOne(users: set<UserId>, u: UserId)
    requires u in users
    ensures |users| == 1 <==> users == {u}
  {
    if |users| == 1 {
      assert |users - {u}| == 0;
    }
  }

  /** Deleting a group takes its member rows along and leaves every other group as it was. */
  lemma Dissolved(t: Tables, groupId: string, id: string)
    requires GroupInv(t)
    ensures var u := t.(groups := Where(t.groups, OtherGroup(groupId)), members := Where(t.members, NotOfGroup(groupId)));
            && GroupInv(u)
            && ClubOf(u, id) == (if id == groupId then None else ClubOf(t, id))
            && MemberSet(u.members, groupId) == {}
  {
    var u := t.(groups := Where(t.groups, OtherGroup(groupId)), members := Where(t.members, NotOfGroup(groupId)));
    WhereUnique(t.members, NotOfGroup(groupId));
    WhereUniqueIds(t.groups, OtherGroup(groupId));
    forall k | k != groupId ensures MemberSet(u.members, k) == MemberSet(t.members, k) && FindGroup(u.groups, k) == FindGroup(t.groups, k) {
      OtherMembers(t.members, groupId, k);
      assert forall g: Group :: g.id == k ==> OtherGroup(groupId)(g);
      FindOther(t.groups, u.groups, k);
    }
    forall m | m in u.members ensures Belongs(u, m) {
      assert NotOfGroup(groupId)(m) && Belongs(t, m);
    }
    forall g | g in u.groups ensures Sound(u, g) {
      assert OtherGroup(groupId)(g) && Sound(t, g);
      MemberSetOf(t.members, g.id, g.creator);
      MemberSetOf(u.members, g.id, g.creator);
    }
    assert forall m :: m in u.members ==> NotOfGroup(groupId)(m);
    assert forall g :: g in u.groups ==> OtherGroup(groupId)(g);
  }

  lemma OtherMembers(members: seq<Member>, groupId: string, id: string)
    requires id != groupId
    ensures MemberSet(Where(members, NotOfGroup(groupId)), id) == MemberSet(members, id)
  {
  }

  // ---------------------------------------------------------------- every sequence of calls

  lemma NewUser(t: Tables, user: UserId)
    requires GroupInv(t)
    ensures GroupInv(t.(users := t.users + {user}))
  {
  }

  /** Each call keeps the invariant, and changes every group as the rules for one group say. */
  lemma CallFollowsRules(t: Tables, c: Call, id: string)
    requires GroupInv(t)
    ensures GroupInv(Apply(t, c))
    ensures ClubOf(Apply(t, c), id) == Next(ClubOf(t, id), t.users, id, c)
  {
    match c
    case UserSeen(user) => NewUser(t, user);
    case CreateCall(name, creator, invitees, groupId, now) => CreateFollows(t, name, creator, invitees, groupId, now, id);
    case AddCall(groupId, operator, target, now) => AddFollows(t, groupId, operator, target, now, id);
    case RemoveCall(groupId, operator, target) => RemoveFollows(t, groupId, operator, target, id);
    case LeaveCall(groupId, operator) => LeaveFollows(t, groupId, operator, id);
  }

  lemma {:induction false} GroupInvEver(users: set<UserId>, calls: seq<Call>)
    ensures GroupInv(ApplyAll(Tables(users, [], []), calls))
  {
    hide GroupInv, Apply, ClubOf;
    if calls == [] {
      NothingYet(users);
    } else {
      var n := |calls| - 1;
      GroupInvEver(users, calls[..n]);
      CallFollowsRules(ApplyAll(Tables(users, [], []), calls[..n]), calls[n], "");
    }
  }

  lemma NothingYet(users: set<UserId>)
    ensures GroupInv(Tables(users, [], []))
  {
  }

  /** After any calls: every group holds its creator, has 1 to 50 distinct members who are known users
      (the creator aside), and no member row outlives its group. */
  lemma GroupsStaySound(users: set<UserId>, calls: seq<Call>)
    ensures var t := ApplyAll(Tables(users, [], []), calls);
            && (forall g :: g in t.groups ==>
                  && g.creator in MemberSet(t.members, g.id)
                  && Count(t.members, g.id) == |MemberSet(t.members, g.id)|
                  && 1 <= Count(t.members, g.id) <= 50
                  && MemberSet(t.members, g.id) <= t.users + {g.creator})
            && (forall m :: m in t.members ==> FindGroup(t.groups, m.group).Some?)
  {
    var t := ApplyAll(Tables(users, [], []), calls);
    GroupInvEver(users, calls);
    hide ApplyAll;
    forall g | g in t.groups
      ensures g.creator in MemberSet(t.members, g.id) && 1 <= Count(t.members, g.id) <= MAX_MEMBERS
      ensures Count(t.members, g.id) == |MemberSet(t.members, g.id)|
      ensures MemberSet(t.members, g.id) <= t.users + {g.creator}
    {
      assert Sound(t, g);
      FindUnique(t.groups, g);
      CreatorIsMember(t, g.id);
      CountIsSize(t.members, g.id);
      SubsetSize({g.creator}, MemberSet(t.members, g.id));
      forall u | u in MemberSet(t.members, g.id) ensures u in t.users + {g.creator} {
        var m :| m in t.members && m.group == g.id && m.user == u;
        assert Belongs(t, m);
      }
    }
    forall m | m in t.members ensures FindGroup(t.groups, m.group).Some? { assert Belongs(t, m); }
  }

  /** A group disappears exactly when its creator leaves it as its only member, and then no row of it is left. */
  lemma DissolvedIff(users: set<UserId>, calls: seq<Call>, c: Call, id: string)
    ensures var t := ApplyAll(Tables(users, [], []), calls);
            var u := Apply(t, c);
            && (FindGroup(t.groups, id).Some? ==>
                  (FindGroup(u.groups, id).None? <==>
                   c == LeaveCall(id, FindGroup(t.groups, id).value.creator) && Count(t.members, id) == 1))
            && (FindGroup(u.groups, id).None? ==> MemberSet(u.members, id) == {})
  {
    var t := ApplyAll(Tables(users, [], []), calls);
    GroupInvEver(users, calls);
    CallFollowsRules(t, c, id);
    hide ApplyAll, Apply;
    if FindGroup(t.groups, id).Some? {
      CreatorIsMember(t, id);
      CountIsSize(t.members, id);
      OnlyOne(MemberSet(t.members, id), FindGroup(t.groups, id).value.creator);
    }
    forall m | m in Apply(t, c).members ensures FindGroup(Apply(t, c).groups, m.group).Some? { assert Belongs(Apply(t, c), m); }
  }
}
