/** The message delivery service, updated in place. */
module DeliveryServices {
  import opened Packets
  import opened Wire
  import opened Text
  import opened IdempotencyWindow
  import MD = MessageDelivery
  import opened MessageDelivery
  import OfflineModel
  import Offline = OfflineProtocol
  import opened OfflineServices

  // ---------------------------------------------------------------- effects, performed

  /** What a handler's effects do to the part of the main thread that offline delivery uses. */
  function Performed(m: OfflineModel.Main, effects: seq<Effect>): OfflineModel.Main {
    if effects == [] then m
    else
      var before, e := Performed(m, effects[..|effects| - 1]), effects[|effects| - 1];
      if e.Submit? then OfflineModel.EnqueueIfOffline(before, e.recipient, e.packet) else OfflineModel.Post(before, e.request)
  }

  /** The server's packets have an id, and then performing the effects is a run of the offline protocol. */
  lemma {:induction false} PerformedIsRun(s: Offline.State, effects: seq<Effect>)
    requires forall i :: 0 <= i < |effects| && effects[i].Submit? ==> effects[i].packet.msgId != ""
    ensures Performed(s.main, effects) == Offline.Run(s, effects).main
  {
    hide OfflineModel.EnqueueIfOffline, OfflineModel.OnOfflineLoaded, OfflineModel.Detach, OfflineModel.ReceivedAck, Encode;
    if effects != [] {
      PerformedIsRun(s, effects[..|effects| - 1]);
    }
  }

  lemma NothingPerformed(m: OfflineModel.Main)
    ensures Performed(m, []) == m
  {
  }

  lemma PerformedSnoc(m: OfflineModel.Main, effects: seq<Effect>, e: Effect)
    ensures Performed(m, effects + [e]) ==
            if e.Submit? then OfflineModel.EnqueueIfOffline(Performed(m, effects), e.recipient, e.packet)
            else OfflineModel.Post(Performed(m, effects), e.request)
  {
  }

  lemma PerformedOne(m: OfflineModel.Main, e: Effect)
    ensures Performed(m, [e]) ==
            if e.Submit? then OfflineModel.EnqueueIfOffline(m, e.recipient, e.packet) else OfflineModel.Post(m, e.request)
  {
  }

  /** The fan-out loop with its exclusion performs one submission per recipient. */
  lemma {:induction false} ManyIsSubmitAll(m: OfflineModel.Main, first: Effect, members: seq<UserId>, packet: Packet, exclude: UserId)
    ensures EnqueueMany(Performed(m, [first]), members, packet, exclude) ==
            Performed(m, [first] + SubmitAll(Recipients(members, exclude), packet))
  {
    if members == [] {
      assert [first] + SubmitAll([], packet) == [first];
    } else {
      var n := |members| - 1;
      ManyIsSubmitAll(m, first, members[..n], packet, exclude);
      var front := Recipients(members[..n], exclude);
      if !(exclude != "" && members[n] == exclude) {
        PerformedSnoc(m, [first] + SubmitAll(front, packet), Offline.Submit(members[n], packet));
        assert [first] + SubmitAll(front + [members[n]], packet) == [first] + SubmitAll(front, packet) + [Offline.Submit(members[n], packet)];
      }
    }
  }

  // ---------------------------------------------------------------- message delivery

  class MessageDeliveryService {
    const offlineManager: OfflineManager
    var idempotencyCache: map<Key, Entry>
    var idempotencyOrder: seq<Key>
    var inFlightGroupMsgIds: set<Key>
    var pendingGroupMessages: map<Token, PendingGroupMessage>
    var acks: seq<Ack>

    ghost function View(): Service reads this {
      Service(Window(idempotencyCache, idempotencyOrder), inFlightGroupMsgIds, pendingGroupMessages, acks)
    }

    constructor (offlineManager: OfflineManager)
      ensures this.offlineManager == offlineManager && View() == Service(Window(map[], []), {}, map[], [])
    {
      this.offlineManager := offlineManager;
      idempotencyCache, idempotencyOrder, inFlightGroupMsgIds, pendingGroupMessages, acks := map[], [], {}, map[], [];
    }

    /** Forgets the oldest entries while they are expired or the cache is over its capacity. */
    method PruneIdempotencyCache(nowMs: int)
      modifies this`idempotencyCache, this`idempotencyOrder
      ensures View() == old(View()).(window := Prune(old(View()).window, nowMs))
    {
      while idempotencyOrder != []
        invariant Prune(Window(idempotencyCache, idempotencyOrder), nowMs) == Prune(old(View()).window, nowMs)
        decreases |idempotencyOrder|
      {
        var oldestKey := idempotencyOrder[0];
        if oldestKey !in idempotencyCache {
          idempotencyOrder := idempotencyOrder[1..];
          continue;
        }
        var expired := TTL_MS > 0 && nowMs - idempotencyCache[oldestKey].createdAtMs > TTL_MS;
        var overCapacity := MAX_ENTRIES > 0 && |idempotencyCache| > MAX_ENTRIES;
        if !expired && !overCapacity {
          break;
        }
        idempotencyCache := idempotencyCache - {oldestKey};
        idempotencyOrder := idempotencyOrder[1..];
      }
    }

    method RememberAnswer(key: Key, entry: Entry, nowMs: int)
      modifies this`idempotencyCache, this`idempotencyOrder
      ensures View() == old(View()).(window := Prune(Remember(old(View()).window, key, entry), nowMs))
    {
      idempotencyCache := idempotencyCache[key := entry];
      idempotencyOrder := idempotencyOrder + [key];
      PruneIdempotencyCache(nowMs);
    }

    method AckReady(ack: Ack)
      modifies this`acks
      ensures View() == old(View()).(acks := old(acks) + [ack])
    {
      acks := acks + [ack];
    }

    /** `serverId`, `reqToken` and the clock readings are what the calls in the handler return. */
    method ProcessSendMessage(params: SendParams, clock: Clock, serverId: MsgId, reqToken: Token)
      requires offlineManager.router.sessionManager.Valid()
      modifies this, offlineManager.router, offlineManager.queue
      ensures var o := MD.ProcessSendMessage(old(View()), params, clock, serverId, reqToken);
              View() == o.service && offlineManager.View() == Performed(old(offlineManager.View()), o.effects)
    {
      PruneIdempotencyCache(clock.t0);
      var requestKey := RequestKeyFor(params.senderUserId, params.msgId);
      NothingPerformed(offlineManager.View());
      hide Prune, TooLarge, Performed, SubmitAll, ReceivePacket, Remember, OfflineModel.Post;
      if requestKey in idempotencyCache {
        var entry := idempotencyCache[requestKey];
        AckReady(Ack(params.senderSession, params.msgId, entry.code, entry.message, entry.serverId, params.senderUserId, None));
        return;
      }
      if TooLarge(params.content) {
        AckReady(Ack(params.senderSession, params.msgId, 413, "Message too large", "", params.senderUserId, None));
        return;
      }
      if params.sessionType == "private" {
        if params.sessionId != params.expectedSessionId {
          AckReady(Ack(params.senderSession, params.msgId, 400, "sessionId hash mismatch", "", params.senderUserId, None));
          return;
        }
        AcceptPrivate(params, clock, serverId);
      } else {
        if requestKey in inFlightGroupMsgIds {
          return;
        }
        StartGroupSend(params, requestKey, clock, serverId, reqToken);
      }
    }

    method StartGroupSend(params: SendParams, requestKey: Key, clock: Clock, serverId: MsgId, reqToken: Token)
      modifies this`inFlightGroupMsgIds, this`pendingGroupMessages, offlineManager.queue
      ensures var pending := PendingGroupMessage(ReceivePacket(params, "group", serverId, clock.timestamp), requestKey,
                                                 params.senderUserId, params.sessionId, serverId, params.msgId, params.senderSession);
              && View() == old(View()).(inFlight := old(inFlightGroupMsgIds) + {requestKey},
                                        pendingGroup := old(pendingGroupMessages)[reqToken := pending])
              && offlineManager.View() == Performed(old(offlineManager.View()), [Offline.Signal(LoadGroupMembers(params.sessionId, reqToken))])
    {
      var receiveMsg := ReceivePacket(params, "group", serverId, clock.timestamp);
      inFlightGroupMsgIds := inFlightGroupMsgIds + {requestKey};
      pendingGroupMessages := pendingGroupMessages[reqToken :=
        PendingGroupMessage(receiveMsg, requestKey, params.senderUserId, params.sessionId, serverId, params.msgId, params.senderSession)];
      PerformedOne(offlineManager.View(), Offline.Signal(LoadGroupMembers(params.sessionId, reqToken)));
      Signal(LoadGroupMembers(params.sessionId, reqToken));
    }

    method Signal(request: DbRequest)
      modifies offlineManager.queue
      ensures offlineManager.View() == OfflineModel.Post(old(offlineManager.View()), request)
    {
      offlineManager.queue.Emit(request);
    }

    method AcceptPrivate(params: SendParams, clock: Clock, serverId: MsgId)
      requires offlineManager.router.sessionManager.Valid()
      modifies this, offlineManager.router, offlineManager.queue
      ensures var key, entry := RequestKeyFor(params.senderUserId, params.msgId), Entry(200, "", serverId, clock.t1);
              var store := StoreRequest(params.msgId, params.sessionId, params.senderUserId, params.content, clock.timestamp, serverId);
              var packet := ReceivePacket(params, "private", serverId, clock.timestamp);
              && View() == Answer(old(View()).(window := Prune(Remember(old(View()).window, key, entry), clock.t2)), params, 200, "", serverId)
              && offlineManager.View() == Performed(old(offlineManager.View()),
                   [Offline.Signal(StoreMessage(store))] + SubmitAll([params.recipientUserId], packet))
    {
      hide Prune;
      var requestKey := RequestKeyFor(params.senderUserId, params.msgId);
      RememberAnswer(requestKey, Entry(200, "", serverId, clock.t1), clock.t2);
      AckReady(Ack(params.senderSession, params.msgId, 200, "", serverId, params.senderUserId, None));
      var store := StoreRequest(params.msgId, params.sessionId, params.senderUserId, params.content, clock.timestamp, serverId);
      var receiveMsg := ReceivePacket(params, "private", serverId, clock.timestamp);
      ghost var first: Effect := Offline.Signal(StoreMessage(store));
      PerformedOne(offlineManager.View(), first);
      PerformedSnoc(offlineManager.View(), [first], Offline.Submit(params.recipientUserId, receiveMsg));
      assert SubmitAll([params.recipientUserId], receiveMsg) == [Offline.Submit(params.recipientUserId, receiveMsg)];
      Signal(StoreMessage(store));
      offlineManager.EnqueueIfOffline(params.recipientUserId, receiveMsg);
    }

    method OnGroupMembersForMessage(result: MembersResult, clock: Clock)
      requires offlineManager.router.sessionManager.Valid()
      modifies this, offlineManager.router, offlineManager.queue
      ensures var o := MD.OnGroupMembersForMessage(old(View()), result, clock);
              View() == o.service && offlineManager.View() == Performed(old(offlineManager.View()), o.effects)
    {
      NothingPerformed(offlineManager.View());
      if result.token !in pendingGroupMessages {
        return;
      }
      hide Performed, MD.Settled;
      var pending := pendingGroupMessages[result.token];
      pendingGroupMessages := pendingGroupMessages - {result.token};
      inFlightGroupMsgIds := inFlightGroupMsgIds - {pending.requestKey};
      Settle(pending, result, clock);
    }

    method Settle(pending: PendingGroupMessage, result: MembersResult, clock: Clock)
      requires offlineManager.router.sessionManager.Valid()
      modifies this`idempotencyCache, this`idempotencyOrder, this`acks, offlineManager.router, offlineManager.queue
      ensures var o := MD.Settled(old(View()), pending, result, clock);
              View() == o.service && offlineManager.View() == Performed(old(offlineManager.View()), o.effects)
    {
      NothingPerformed(offlineManager.View());
      hide Prune, Trim, Performed, SubmitAll, Remember, WithGroupName, TextField, Recipients, OfflineModel.Post;
      if !result.success {
        var code := if result.errorCode > 0 then result.errorCode else 500;
        AckReady(Ack(pending.senderSession, pending.clientMsgId, code, result.errorMessage, "", pending.senderUserId, Some(result.token)));
        return;
      }
      if pending.senderUserId !in result.members {
        RememberAnswer(pending.requestKey, Entry(403, "Sender is not a member of group", "", clock.t1), clock.t2);
        AckReady(Ack(pending.senderSession, pending.clientMsgId, 403, "Sender is not a member of group", "", pending.senderUserId, Some(result.token)));
        return;
      }
      RememberAnswer(pending.requestKey, Entry(200, "", pending.serverId, clock.t1), clock.t2);
      AckReady(Ack(pending.senderSession, pending.clientMsgId, 200, "", pending.serverId, pending.senderUserId, Some(result.token)));
      FanOut(pending, result);
    }

    /** Stores the message and hands it to every member but the sender. */
    method FanOut(pending: PendingGroupMessage, result: MembersResult)
      requires offlineManager.router.sessionManager.Valid()
      modifies offlineManager.router, offlineManager.queue
      ensures var packet := WithGroupName(pending.receiveMsg, Trim(result.groupName));
              var store := StoreRequest(pending.clientMsgId, pending.groupId, pending.senderUserId,
                                        TextField(packet.payload, "content", ""), packet.timestampUtc, pending.serverId);
              offlineManager.View() == Performed(old(offlineManager.View()),
                [Offline.Signal(StoreMessage(store))] + SubmitAll(Recipients(result.members, pending.senderUserId), packet))
    {
      hide Trim;
      var receiveMsg := pending.receiveMsg;
      if Trim(result.groupName) != "" {
        receiveMsg := receiveMsg.(payload := receiveMsg.payload["groupName" := JString(Trim(result.groupName))]);
      }
      var content := TextField(receiveMsg.payload, "content", "");
      var store := StoreRequest(pending.clientMsgId, pending.groupId, pending.senderUserId, content, receiveMsg.timestampUtc, pending.serverId);
      ghost var first: Effect := Offline.Signal(StoreMessage(store));
      PerformedOne(offlineManager.View(), first);
      ManyIsSubmitAll(offlineManager.View(), first, result.members, receiveMsg, pending.senderUserId);
      Signal(StoreMessage(store));
      offlineManager.EnqueueIfOfflineMany(result.members, receiveMsg, pending.senderUserId);
    }
  }

  lemma SubmitSnoc(m: OfflineModel.Main, users: seq<UserId>, user: UserId, packet: Packet)
    ensures Performed(m, SubmitAll(users + [user], packet)) ==
            OfflineModel.EnqueueIfOffline(Performed(m, SubmitAll(users, packet)), user, packet)
  {
    PerformedSnoc(m, SubmitAll(users, packet), Offline.Submit(user, packet));
    assert SubmitAll(users + [user], packet) == SubmitAll(users, packet) + [Offline.Submit(user, packet)];
  }
}
