/** What the calls of the server's group repository compute, on the three tables they touch. */
module GroupModel {
  import opened Wire
  import opened Text
  import opened Query

  const MAX_MEMBERS := 50

  datatype Group = Group(id: string, name: string, creator: UserId, createdAt: string, updatedAt: string)

  datatype Role = CreatorRole | MemberRole

  /** A row of group_members; the primary key is (group, user). */
  datatype Member = Member(group: string, user: UserId, role: Role, joinedAt: string)

  datatype Tables = Tables(users: set<UserId>, groups: seq<Group>, members: seq<Member>)

  datatype CreateResult = CreateResult(groupId: string, memberUserIds: seq<UserId>, success: bool, errorCode: int)

  datatype OpResult = OpResult(success: bool, errorCode: int)

  function Refused(code: int): CreateResult { CreateResult("", [], false, code) }

  function OpRefused(code: int): OpResult { OpResult(false, code) }

  // ---------------------------------------------------------------- rows

  function FindGroup(groups: seq<Group>, id: string): (found: Option<Group>)
    ensures found.Some? ==> found.value in groups && found.value.id == id
    ensures found.None? ==> forall g :: g in groups ==> g.id != id
  {
    if groups == [] then None
    else if groups[0].id == id then Some(groups[0])
    else
      assert groups == [groups[0]] + groups[1..];
      FindGroup(groups[1..], id)
  }

  predicate HasMember(members: seq<Member>, id: string, user: UserId) {
    exists m :: m in members && m.group == id && m.user == user
  }

  function OfGroup(id: string): Member -> bool { (m: Member) => m.group == id }

  function NotOfGroup(id: string): Member -> bool { (m: Member) => m.group != id }

  function NotRow(id: string, user: UserId): Member -> bool { (m: Member) => !(m.group == id && m.user == user) }

  function OtherGroup(id: string): Group -> bool { (g: Group) => g.id != id }

  /** SELECT COUNT(*) FROM group_members WHERE group_id = ? */
  function Count(members: seq<Member>, id: string): nat { |Where(members, OfGroup(id))| }

  /** One INSERT; the primary key refuses a second row for the same group and user. */
  function InsertMember(members: seq<Member>, m: Member): Option<seq<Member>> {
    if HasMember(members, m.group, m.user) then None else Some(members + [m])
  }

  /** The INSERTs of one transaction, in order. */
  function InsertMembers(members: seq<Member>, rows: seq<Member>): Option<seq<Member>> {
    if rows == [] then Some(members)
    else
      match InsertMembers(members, rows[..|rows| - 1])
      case None => None
      case Some(before) => InsertMember(before, rows[|rows| - 1])
  }

  // ---------------------------------------------------------------- the calls

  /** The invitees that become members: trimmed, without empty ones, the creator and repetitions. */
  function Cleaned(creator: UserId, invitees: seq<string>): seq<UserId> {
    if invitees == [] then []
    else
      var front := Cleaned(creator, invitees[..|invitees| - 1]);
      var trimmed := Trim(invitees[|invitees| - 1]);
      if trimmed != "" && trimmed != creator && trimmed !in front then front + [trimmed] else front
  }

  function MemberRows(groupId: string, users: seq<UserId>, now: string): seq<Member> {
    seq(|users|, i requires 0 <= i < |users| => Member(groupId, users[i], MemberRole, now))
  }

  function CreateGroup(t: Tables, name: string, creator: UserId, invitees: seq<string>, groupId: string, now: string): (Tables, CreateResult) {
    var cleaned := Cleaned(creator, invitees);
    if 1 + |cleaned| > MAX_MEMBERS then (t, Refused(400))
    else if exists u :: u in cleaned && u !in t.users then (t, Refused(404))
    else if FindGroup(t.groups, groupId).Some? then (t, Refused(500))
    else
      match InsertMembers(t.members, [Member(groupId, creator, CreatorRole, now)] + MemberRows(groupId, cleaned, now))
      case None => (t, Refused(500))
      case Some(members) =>
        (t.(groups := t.groups + [Group(groupId, name, creator, now, now)], members := members),
         CreateResult(groupId, [creator] + cleaned, true, 0))
  }

  function AddMember(t: Tables, groupId: string, operator: UserId, target: UserId, now: string): (Tables, OpResult) {
    match FindGroup(t.groups, groupId)
    case None => (t, OpRefused(404))
    case Some(g) =>
      if operator != g.creator then (t, OpRefused(403))
      else if target !in t.users then (t, OpRefused(404))
      else if Count(t.members, groupId) >= MAX_MEMBERS then (t, OpRefused(400))
      else if HasMember(t.members, groupId, target) then (t, OpRefused(409))
      else (t.(members := t.members + [Member(groupId, target, MemberRole, now)]), OpResult(true, 0))
  }

  function RemoveMember(t: Tables, groupId: string, operator: UserId, target: UserId): (Tables, OpResult) {
    match FindGroup(t.groups, groupId)
    case None => (t, OpRefused(404))
    case Some(g) =>
      if operator != g.creator then (t, OpRefused(403))
      else if target == g.creator then (t, OpRefused(403))
      else if !HasMember(t.members, groupId, target) then (t, OpRefused(404))
      else (t.(members := Where(t.members, NotRow(groupId, target))), OpResult(true, 0))
  }

  /** Deleting a group cascades to its member rows. */
  function LeaveGroup(t: Tables, groupId: string, operator: UserId): (Tables, OpResult) {
    match FindGroup(t.groups, groupId)
    case None => (t, OpRefused(404))
    case Some(g) =>
      if !HasMember(t.members, groupId, operator) then (t, OpRefused(404))
      else if operator == g.creator then
        if Count(t.members, groupId) == 1 then
          (t.(groups := Where(t.groups, OtherGroup(groupId)), members := Where(t.members, NotOfGroup(groupId))), OpResult(true, 0))
        else (t, OpRefused(403))
      else (t.(members := Where(t.members, NotRow(groupId, operator))), OpResult(true, 0))
  }

  // ---------------------------------------------------------------- the queries

  function ByJoinTime(): (Member, Member) -> bool { (a: Member, b: Member) => !Less(b.joinedAt, a.joinedAt) }

  function ByLastChange(): (Group, Group) -> bool {
    (a: Group, b: Group) => Less(b.updatedAt, a.updatedAt) || (a.updatedAt == b.updatedAt && !Less(a.createdAt, b.createdAt))
  }

  function Users(rows: seq<Member>): seq<UserId> {
    seq(|rows|, i requires 0 <= i < |rows| => rows[i].user)
  }

  /** SELECT user_id FROM group_members WHERE group_id = ? ORDER BY joined_at ASC */
  function MembersOf(members: seq<Member>, id: string): seq<UserId> {
    Users(OrderBy(Where(members, OfGroup(id)), ByJoinTime()))
  }

  function LoadGroupMembers(t: Tables, groupId: string, token: Token): MembersResult {
    match FindGroup(t.groups, groupId)
    case None => MembersResult(groupId, "", [], token, false, 404, "Group not found")
    case Some(g) => MembersResult(groupId, g.name, MembersOf(t.members, groupId), token, true, 0, "")
  }

  datatype Entry = Entry(group: Group, memberUserIds: seq<UserId>)

  function Joined(members: seq<Member>, user: UserId): Group -> bool { (g: Group) => HasMember(members, g.id, user) }

  /** The groups of a user, last changed first. */
  function GroupsOf(t: Tables, user: UserId): seq<Group> {
    OrderBy(Where(t.groups, Joined(t.members, user)), ByLastChange())
  }

  /** The group list that one query per group would give. */
  function GroupList(t: Tables, user: UserId): seq<Entry> {
    var groups := GroupsOf(t, user);
    seq(|groups|, i requires 0 <= i < |groups| => Entry(groups[i], MembersOf(t.members, groups[i].id)))
  }

  predicate UniqueIds(groups: seq<Group>) {
    forall i, j :: 0 <= i < j < |groups| ==> groups[i].id != groups[j].id
  }

  predicate UniqueMembers(members: seq<Member>) {
    forall i, j :: 0 <= i < j < |members| ==> members[i].group != members[j].group || members[i].user != members[j].user
  }
}
