/** The group management service, updated in place: requests waiting for their result, and notifications. */
module GroupManagement {
  import opened Packets
  import opened Wire
  import opened Text
  import MD = MessageDelivery
  import opened MessageDelivery
  import opened GroupRequests
  import OfflineModel
  import opened OfflineServices
  import opened DeliveryServices

  /** The records are those of the waiting requests. */
  ghost predicate RecordsMatch(records: map<MsgId, PendingRequest>, d: Desk)
    requires DeskInv(d)
  {
    records.Keys == d.pending.Keys && forall m :: m in records ==> records[m] == d.asked[d.pending[m]].pending
  }

  /** Each request asked went to the repository under its msgId. */
  ghost predicate AllEmitted(emitted: seq<RepositoryRequest>, d: Desk) {
    && |emitted| == |d.asked|
    && forall i :: 0 <= i < |emitted| ==> emitted[i].reqMsgId == d.asked[i].reqMsgId && OperationOf(emitted[i]) == d.asked[i].pending.operation
  }

  lemma RegisterKeeps(records: map<MsgId, PendingRequest>, emitted: seq<RepositoryRequest>, d: Desk, pending: PendingRequest, request: RepositoryRequest)
    requires DeskInv(d) && RecordsMatch(records, d) && AllEmitted(emitted, d) && OperationOf(request) == pending.operation
    ensures var e := Act(d, Ask(Request(request.reqMsgId, pending)));
            DeskInv(e) && RecordsMatch(records[request.reqMsgId := pending], e) && AllEmitted(emitted + [request], e)
  {
    AskKeeps(d, Request(request.reqMsgId, pending));
    hide Waiting, OwnAnswers;
  }

  lemma TakeKeeps(records: map<MsgId, PendingRequest>, emitted: seq<RepositoryRequest>, d: Desk, reqMsgId: MsgId)
    requires DeskInv(d) && RecordsMatch(records, d) && AllEmitted(emitted, d)
    requires |d.answers| < |d.asked| && reqMsgId == d.asked[|d.answers|].reqMsgId
    ensures var e := Act(d, ResultArrives);
            && DeskInv(e) && RecordsMatch(records - {reqMsgId}, e) && AllEmitted(emitted, e)
            && RecordUsed(e, |d.answers|) == if reqMsgId in records then Some(records[reqMsgId]) else None
  {
    ResultKeeps(d);
    hide Waiting, OwnAnswers;
  }

  class GroupManagementService {
    const offlineManager: OfflineManager
    var pendingRequests: map<MsgId, PendingRequest>
    var pendingNotifications: Notifications
    var emitted: seq<RepositoryRequest>
    ghost var desk: Desk

    ghost predicate Valid() reads this {
      DeskInv(desk) && RecordsMatch(pendingRequests, desk) && AllEmitted(emitted, desk)
    }

    constructor (offlineManager: OfflineManager)
      ensures Valid() && this.offlineManager == offlineManager && desk == NEW_DESK && pendingNotifications == map[] && emitted == []
    {
      this.offlineManager := offlineManager;
      pendingRequests, pendingNotifications, emitted, desk := map[], map[], [], NEW_DESK;
      NewDeskFine();
    }

    method CreateGroup(reqMsgId: MsgId, groupName: string, creatorUserId: UserId, memberUserIds: seq<string>, session: ConnId)
      requires Valid()
      modifies this`pendingRequests, this`emitted, this`desk
      ensures Valid() && desk == Act(old(desk), Ask(Request(reqMsgId, PendingRequest(session, AddOp, groupName))))
      ensures emitted == old(emitted) + [CreateGroupRequest(reqMsgId, groupName, creatorUserId, memberUserIds)]
    {
      var request := CreateGroupRequest(reqMsgId, groupName, creatorUserId, memberUserIds);
      Register(PendingRequest(session, AddOp, groupName), request);
    }

    method AddMember(reqMsgId: MsgId, groupId: string, targetUserId: UserId, operatorUserId: UserId, session: ConnId)
      requires Valid()
      modifies this`pendingRequests, this`emitted, this`desk
      ensures Valid() && desk == Act(old(desk), Ask(Request(reqMsgId, PendingRequest(session, AddOp, ""))))
      ensures emitted == old(emitted) + [MemberOpRequest(reqMsgId, groupId, targetUserId, operatorUserId, AddOp)]
    {
      var request := MemberOpRequest(reqMsgId, groupId, targetUserId, operatorUserId, AddOp);
      Register(PendingRequest(session, AddOp, ""), request);
    }

    method RemoveMember(reqMsgId: MsgId, groupId: string, targetUserId: UserId, operatorUserId: UserId, session: ConnId)
      requires Valid()
      modifies this`pendingRequests, this`emitted, this`desk
      ensures Valid() && desk == Act(old(desk), Ask(Request(reqMsgId, PendingRequest(session, RemoveOp, ""))))
      ensures emitted == old(emitted) + [MemberOpRequest(reqMsgId, groupId, targetUserId, operatorUserId, RemoveOp)]
    {
      var request := MemberOpRequest(reqMsgId, groupId, targetUserId, operatorUserId, RemoveOp);
      Register(PendingRequest(session, RemoveOp, ""), request);
    }

    method LeaveGroup(reqMsgId: MsgId, groupId: string, userId: UserId, session: ConnId)
      requires Valid()
      modifies this`pendingRequests, this`emitted, this`desk
      ensures Valid() && desk == Act(old(desk), Ask(Request(reqMsgId, PendingRequest(session, LeaveOp, ""))))
      ensures emitted == old(emitted) + [MemberOpRequest(reqMsgId, groupId, userId, userId, LeaveOp)]
    {
      var request := MemberOpRequest(reqMsgId, groupId, userId, userId, LeaveOp);
      Register(PendingRequest(session, LeaveOp, ""), request);
    }

    method Register(pending: PendingRequest, request: RepositoryRequest)
      requires Valid() && OperationOf(request) == pending.operation
      modifies this`pendingRequests, this`emitted, this`desk
      ensures Valid() && desk == Act(old(desk), Ask(Request(request.reqMsgId, pending))) && emitted == old(emitted) + [request]
    {
      RegisterKeeps(pendingRequests, emitted, desk, pending, request);
      hide DeskInv, RecordsMatch, AllEmitted, Act;
      pendingRequests := pendingRequests[request.reqMsgId := pending];
      emitted := emitted + [request];
      desk := Act(desk, Ask(Request(request.reqMsgId, pending)));
    }

    /** onGroupCreated and onMemberOpCompleted. Returns the record that the answer is sent with. */
    method OnResult(result: Result, notifyReqId: Token, packetId: MsgId, operatorUserId: UserId) returns (answered: Option<PendingRequest>)
      requires Valid() && |desk.answers| < |desk.asked| && result.reqMsgId == desk.asked[|desk.answers|].reqMsgId
      modifies this, offlineManager.queue
      ensures Valid() && desk == Act(old(desk), ResultArrives) && emitted == old(emitted)
      ensures answered == RecordUsed(desk, |old(desk).answers|)
      ensures answered.Some? && result.success ==>
                && pendingNotifications == old(pendingNotifications)[notifyReqId := NoticeFor(answered.value, result, packetId, operatorUserId)]
                && offlineManager.View() == OfflineModel.Post(old(offlineManager.View()), LoadGroupMembers(result.groupId, notifyReqId))
      ensures !(answered.Some? && result.success) ==>
                pendingNotifications == old(pendingNotifications) && offlineManager.View() == old(offlineManager.View())
    {
      hide DeskInv, RecordsMatch, AllEmitted, Act;
      answered := Take(result.reqMsgId);
      hide NoticeFor, RecordUsed, OfflineModel.Post;
      if answered.Some? && result.success {
        AskForNotification(result.groupId, notifyReqId, NoticeFor(answered.value, result, packetId, operatorUserId));
      }
    }

    method AskForNotification(groupId: string, notifyReqId: Token, notice: PendingNotification)
      modifies this`pendingNotifications, offlineManager.queue
      ensures pendingNotifications == old(pendingNotifications)[notifyReqId := notice]
      ensures offlineManager.View() == OfflineModel.Post(old(offlineManager.View()), LoadGroupMembers(groupId, notifyReqId))
    {
      pendingNotifications := pendingNotifications[notifyReqId := notice];
      offlineManager.queue.Emit(LoadGroupMembers(groupId, notifyReqId));
    }

    /** Finds and erases the record for a result. */
    method Take(reqMsgId: MsgId) returns (answered: Option<PendingRequest>)
      requires Valid() && |desk.answers| < |desk.asked| && reqMsgId == desk.asked[|desk.answers|].reqMsgId
      modifies this`pendingRequests, this`desk
      ensures Valid() && desk == Act(old(desk), ResultArrives)
      ensures answered == RecordUsed(desk, |old(desk).answers|)
    {
      TakeKeeps(pendingRequests, emitted, desk, reqMsgId);
      hide DeskInv, RecordsMatch, AllEmitted, Act, RecordUsed;
      desk := Act(desk, ResultArrives);
      if reqMsgId !in pendingRequests {
        assert pendingRequests - {reqMsgId} == pendingRequests;
        return None;
      }
      answered := Some(pendingRequests[reqMsgId]);
      pendingRequests := pendingRequests - {reqMsgId};
    }

    method OnGroupMembersForNotify(result: MembersResult)
      requires offlineManager.router.sessionManager.Valid()
      modifies this`pendingNotifications, offlineManager.router, offlineManager.queue
      ensures var (rest, effects) := MD.OnGroupMembersForNotify(old(pendingNotifications), result);
              pendingNotifications == rest && offlineManager.View() == Performed(old(offlineManager.View()), effects)
    {
      if result.token == "" || result.token !in pendingNotifications {
        return;
      }
      hide Trim;
      var pending := pendingNotifications[result.token];
      pendingNotifications := pendingNotifications - {result.token};
      if !result.success {
        return;
      }
      var notifyPacket := pending.packet;
      var effectiveGroupName := if Trim(pending.groupName) == "" then Trim(result.groupName) else Trim(pending.groupName);
      if effectiveGroupName != "" {
        notifyPacket := notifyPacket.(payload := notifyPacket.payload["groupName" := JString(effectiveGroupName)]);
      }
      assert notifyPacket == WithGroupName(pending.packet, EffectiveName(pending, result));
      Broadcast(pending, result, notifyPacket);
    }

    method Broadcast(pending: PendingNotification, result: MembersResult, notifyPacket: Packet)
      requires offlineManager.router.sessionManager.Valid()
      modifies offlineManager.router, offlineManager.queue
      ensures offlineManager.View() == Performed(old(offlineManager.View()), SubmitAll(NotifyRecipients(pending, result), notifyPacket))
    {
      ghost var m := offlineManager.View();
      for i := 0 to |result.members|
        invariant offlineManager.View() == Performed(m, SubmitAll(result.members[..i], notifyPacket))
      {
        SubmitSnoc(m, result.members[..i], result.members[i], notifyPacket);
        assert result.members[..i + 1] == result.members[..i] + [result.members[i]];
        offlineManager.EnqueueIfOffline(result.members[i], notifyPacket);
      }
      assert result.members[..|result.members|] == result.members;
      if pending.targetUserId != "" && pending.targetUserId !in result.members {
        SubmitSnoc(m, result.members, pending.targetUserId, notifyPacket);
        offlineManager.EnqueueIfOffline(pending.targetUserId, notifyPacket);
      } else {
        assert result.members + [] == result.members;
      }
    }
  }
}
