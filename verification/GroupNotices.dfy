/** Who is told about a change of a group, and what. */
module GroupNotices {
  import opened Packets
  import opened Wire
  import opened Text
  import opened MessageDelivery
  import opened GroupRequests
  import GroupModel
  import Groups = GroupInvariant
  import Answers = GroupAnswers
  import GroupDelivery

  /** The group that a call is about. */
  function GroupOf(c: Groups.Call): string {
    match c
    case UserSeen(_) => ""
    case CreateCall(_, _, _, groupId, _) => groupId
    case AddCall(groupId, _, _, _) => groupId
    case RemoveCall(groupId, _, _) => groupId
    case LeaveCall(groupId, _) => groupId
  }

  /** The call succeeds. */
  predicate Succeeds(t: GroupModel.Tables, c: Groups.Call) {
    match c
    case UserSeen(_) => false
    case CreateCall(name, creator, invitees, groupId, now) => GroupModel.CreateGroup(t, name, creator, invitees, groupId, now).1.success
    case AddCall(groupId, operator, target, now) => GroupModel.AddMember(t, groupId, operator, target, now).1.success
    case RemoveCall(groupId, operator, target) => GroupModel.RemoveMember(t, groupId, operator, target).1.success
    case LeaveCall(groupId, operator) => GroupModel.LeaveGroup(t, groupId, operator).1.success
  }

  /** The record and the result that belong to the call. */
  predicate Belongs(c: Groups.Call, p: PendingRequest, r: Result) {
    match c
    case UserSeen(_) => false
    case CreateCall(name, _, _, groupId, _) => p.operation == AddOp && p.groupName == name && r == Created(r.reqMsgId, groupId, true)
    case AddCall(groupId, _, target, _) => p.operation == AddOp && r == MemberOp(r.reqMsgId, groupId, target, true)
    case RemoveCall(groupId, _, target) => p.operation == RemoveOp && r == MemberOp(r.reqMsgId, groupId, target, true) && target != ""
    case LeaveCall(groupId, operator) => p.operation == LeaveOp && r == MemberOp(r.reqMsgId, groupId, operator, true) && operator != ""
  }

  /** Who is told besides the members of the moment. */
  function AlsoTold(c: Groups.Call): UserId {
    match c
    case RemoveCall(_, _, target) => target
    case LeaveCall(_, user) => user
    case _ => ""
  }

  lemma AlsoToldIsTarget(c: Groups.Call, p: PendingRequest, r: Result, packetId: MsgId, operator: UserId)
    requires Belongs(c, p, r)
    ensures NoticeFor(p, r, packetId, operator).targetUserId == AlsoTold(c)
  {
  }

  /** What a successful call makes of the members, unless it dissolves the group. */
  predicate Changed(c: Groups.Call, before: set<UserId>, after: set<UserId>) {
    match c
    case UserSeen(_) => false
    case CreateCall(_, _, _, _, _) => before == {}
    case AddCall(_, _, target, _) => after == before + {target}
    case RemoveCall(_, _, target) => target in before && after == before - {target}
    case LeaveCall(_, user) => user in before && after == before - {user}
  }

  lemma MembersChange(t: GroupModel.Tables, c: Groups.Call)
    requires Groups.GroupInv(t) && Succeeds(t, c) && Groups.ClubOf(Groups.Apply(t, c), GroupOf(c)).Some?
    ensures Changed(c, Groups.MemberSet(t.members, GroupOf(c)), Groups.MemberSet(Groups.Apply(t, c).members, GroupOf(c)))
  {
    hide Groups.Apply, Succeeds, Groups.MemberSet, Groups.GroupInv, Groups.Invited, GroupModel.FindGroup;
    var id := GroupOf(c);
    Groups.CallFollowsRules(t, c, id);
    SuccessIsAllowed(t, c);
    if c.CreateCall? { NoGroupNoMembers(t, id); }
  }

  /** The members before a successful call are members after it, or the one user who is also told. */
  lemma ConcernedUsers(c: Groups.Call, before: set<UserId>, after: set<UserId>)
    requires Changed(c, before, after) && (c.RemoveCall? ==> c.target != "") && (c.LeaveCall? ==> c.operator != "")
    ensures after + (if AlsoTold(c) != "" then {AlsoTold(c)} else {}) == before + after
  {
  }

  /** A successful change is told to everybody who was a member before it or is one after it; if the group is gone,
      to nobody. */
  lemma EverybodyConcernedIsTold(t: GroupModel.Tables, c: Groups.Call, p: PendingRequest, r: Result, packetId: MsgId, operator: UserId, token: Token)
    requires Groups.GroupInv(t) && Succeeds(t, c) && Belongs(c, p, r)
    ensures var u, id := Groups.Apply(t, c), GroupOf(c);
            var list := GroupModel.LoadGroupMembers(u, id, token);
            var recipients := NotifyRecipients(NoticeFor(p, r, packetId, operator), list);
            && (list.success <==> Groups.ClubOf(u, id).Some?)
            && (list.success ==> Groups.Elements(recipients) == Groups.MemberSet(t.members, id) + Groups.MemberSet(u.members, id))
  {
    var u, id := Groups.Apply(t, c), GroupOf(c);
    var list := GroupModel.LoadGroupMembers(u, id, token);
    AlsoToldIsTarget(c, p, r, packetId, operator);
    hide Groups.Apply, Succeeds, GroupModel.MembersOf, Groups.MemberSet, Groups.GroupInv, NoticeFor, Groups.Elements, Changed;
    if list.success {
      MembersChange(t, c);
      ConcernedUsers(c, Groups.MemberSet(t.members, id), Groups.MemberSet(u.members, id));
      GroupDelivery.LoadedAreMembers(u.members, id);
      TargetAdded(list, AlsoTold(c), NotifyRecipients(NoticeFor(p, r, packetId, operator), list));
    }
  }

  lemma TargetAdded(list: MembersResult, target: UserId, recipients: seq<UserId>)
    requires recipients == list.members + (if target != "" && target !in list.members then [target] else [])
    ensures Groups.Elements(recipients) == Groups.Elements(list.members) + if target != "" then {target} else {}
  {
  }

  lemma NoGroupNoMembers(t: GroupModel.Tables, id: string)
    requires Groups.GroupInv(t) && Groups.ClubOf(t, id).None?
    ensures Groups.MemberSet(t.members, id) == {}
  {
    forall m | m in t.members ensures m.group != id { assert Groups.Belongs(t, m); }
  }

  lemma SuccessIsAllowed(t: GroupModel.Tables, c: Groups.Call)
    requires Groups.GroupInv(t) && Succeeds(t, c)
    ensures var club := Groups.ClubOf(t, GroupOf(c));
            match c
            case UserSeen(_) => false
            case CreateCall(_, _, _, _, _) => club.None?
            case AddCall(_, operator, target, _) => Answers.WhyNotAdd(club, t.users, operator, target) == 0
            case RemoveCall(_, operator, target) => Answers.WhyNotRemove(club, operator, target) == 0
            case LeaveCall(_, operator) => Answers.WhyNotLeave(club, operator) == 0
  {
    hide Groups.GroupInv, Groups.ClubOf, GroupModel.CreateGroup, GroupModel.AddMember, GroupModel.RemoveMember, GroupModel.LeaveGroup;
    match c
    case UserSeen(_) =>
    case CreateCall(name, creator, invitees, groupId, now) => Groups.CreateOutcome(t, name, creator, invitees, groupId, now);
    case AddCall(groupId, operator, target, now) => Answers.AddAnswer(t, groupId, operator, target, now);
    case RemoveCall(groupId, operator, target) => Answers.RemoveAnswer(t, groupId, operator, target);
    case LeaveCall(groupId, operator) => Answers.LeaveAnswer(t, groupId, operator);
  }

  /** What the notification says: the group, the kind of change, and for a member who it is and who did it. */
  lemma NoticeSays(c: Groups.Call, p: PendingRequest, r: Result, packetId: MsgId, operator: UserId)
    requires Belongs(c, p, r)
    ensures var packet := NoticeFor(p, r, packetId, operator).packet;
            && packet.cmd == GroupMemberChanged && packet.msgId == packetId
            && TextField(packet.payload, "groupId", "") == GroupOf(c)
            && TextField(packet.payload, "changeType", "") ==
               (match c
                case AddCall(_, _, _, _) => "add_member"
                case RemoveCall(_, _, _) => "remove_member"
                case LeaveCall(_, _) => "leave_group"
                case _ => "created")
            && TextField(packet.payload, "targetUserId", "") ==
               (match c case AddCall(_, _, target, _) => target case RemoveCall(_, _, target) => target case LeaveCall(_, user) => user case _ => "")
            && TextField(packet.payload, "operatorUserId", "") == (if c.CreateCall? then "" else operator)
            && (c.CreateCall? ==> TextField(packet.payload, "groupName", "") == c.name && NoticeFor(p, r, packetId, operator).groupName == c.name)
  {
  }
}
