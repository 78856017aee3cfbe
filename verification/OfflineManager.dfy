/** The offline manager on the main thread and the offline queue on the database thread, updated in place. */
module OfflineServices {
  import opened Packets
  import opened Wire
  import opened OfflineModel
  import opened ServerSessions

  /** Signals queued for the database thread. */
  class RequestQueue {
    var posted: seq<DbRequest>

    constructor ()
      ensures posted == []
    {
      posted := [];
    }

    method Emit(request: DbRequest)
      modifies this
      ensures posted == old(posted) + [request]
    {
      posted := posted + [request];
    }
  }

  class OfflineManager {
    const router: MessageRouter
    const queue: RequestQueue
    var pendingAckIds: Pending

    /** The main thread as offline delivery sees it. */
    ghost function View(): Main
      reads this, queue, router, router.sessionManager, router.sessionManager.connections.Values
    {
      router.View().(pendingAckIds := pendingAckIds, posted := queue.posted)
    }

    constructor (router: MessageRouter, queue: RequestQueue)
      ensures this.router == router && this.queue == queue && pendingAckIds == map[]
    {
      this.router, this.queue, this.pendingAckIds := router, queue, map[];
    }

    method Route(userId: UserId, packet: Packet) returns (ok: bool)
      requires router.sessionManager.Valid()
      modifies router
      ensures ok == Online(old(View()), userId) && View() == OfflineModel.Route(old(View()), userId, packet)
    {
      SameRoute(old(View()), router.View(), userId, packet);
      ok := router.RouteToUser(userId, packet);
    }

    method EnqueueIfOffline(recipientUserId: UserId, packet: Packet)
      requires router.sessionManager.Valid()
      modifies router, queue
      ensures View() == OfflineModel.EnqueueIfOffline(old(View()), recipientUserId, packet)
    {
      var routed := Route(recipientUserId, packet);
      if routed {
        return;
      }
      queue.Emit(QueueOffline(Parcel(recipientUserId, Encode(packet))));
    }

    method EnqueueIfOfflineMany(recipientUserIds: seq<UserId>, packet: Packet, excludeUserId: UserId)
      requires router.sessionManager.Valid()
      modifies router, queue
      ensures View() == EnqueueMany(old(View()), recipientUserIds, packet, excludeUserId)
    {
      for i := 0 to |recipientUserIds|
        invariant View() == EnqueueMany(old(View()), recipientUserIds[..i], packet, excludeUserId)
      {
        assert recipientUserIds[..i + 1][..i] == recipientUserIds[..i];
        if excludeUserId != "" && recipientUserIds[i] == excludeUserId {
          continue;
        }
        EnqueueIfOffline(recipientUserIds[i], packet);
      }
      assert recipientUserIds[..|recipientUserIds|] == recipientUserIds;
    }

    method DeliverOnLogin(userId: UserId)
      modifies queue
      ensures View() == Post(old(View()), LoadOffline(userId))
    {
      queue.Emit(LoadOffline(userId));
    }

    /** Delivers the packets of a load result until the user is found offline. */
    method OnOfflineLoaded(userId: UserId, packets: seq<QueuedPacket>)
      requires router.sessionManager.Valid()
      modifies this, router, queue
      ensures View() == OfflineModel.OnOfflineLoaded(old(View()), userId, packets)
    {
      if packets == [] {
        return;
      }
      ghost var m := View();
      var removableIds: seq<nat> := [];
      var stopped := false;
      var i := 0;
      NothingDelivered(m, userId);
      while i < |packets| && !stopped
        invariant 0 <= i <= |packets|
        invariant Loop(m, userId, packets[..i]) == LoopState(View(), removableIds, stopped)
        decreases |packets| - i
      {
        RoundExtends(m, userId, packets[..i], packets[i]);
        assert packets[..i + 1] == packets[..i] + [packets[i]];
        removableIds, stopped := DeliverQueued(userId, packets[i], removableIds);
        i := i + 1;
      }
      StoppedStays(m, userId, packets, i);
      if removableIds != [] {
        queue.Emit(MarkDelivered(removableIds));
      }
    }

    /** One round of the loop. */
    method DeliverQueued(userId: UserId, q: QueuedPacket, removable: seq<nat>) returns (removableIds: seq<nat>, stopped: bool)
      requires router.sessionManager.Valid()
      modifies this, router
      ensures LoopState(View(), removableIds, stopped) == Round(old(View()), userId, q, removable)
    {
      var decodeResult := Decode(q.doc);
      RoundByKind(View(), userId, q, removable);
      hide Round, AckRound, NoticeRound, Decode;
      if decodeResult.Failed? || decodeResult.packet.msgId == "" {
        return removable + [q.id], false;
      }
      var packet := decodeResult.packet;
      var requiresAck := packet.cmd == ReceiveMessage;
      if requiresAck {
        removableIds, stopped := DeliverForAck(userId, packet, q.id, removable);
      } else {
        removableIds, stopped := DeliverNotice(userId, packet, q.id, removable);
      }
    }

    method DeliverForAck(userId: UserId, packet: Packet, id: nat, removable: seq<nat>) returns (removableIds: seq<nat>, stopped: bool)
      requires router.sessionManager.Valid()
      modifies this, router
      ensures LoopState(View(), removableIds, stopped) == AckRound(old(View()), userId, packet, id, removable)
    {
      removableIds, stopped := removable, false;
      if userId !in pendingAckIds { // operator[] inserts an empty entry
        pendingAckIds := pendingAckIds[userId := map[]];
      }
      assert pendingAckIds == old(pendingAckIds)[userId := Held(old(pendingAckIds), userId)];
      if packet.msgId in pendingAckIds[userId] {
        removableIds := removableIds + [id];
        return;
      }
      var ok := Route(userId, packet);
      if ok {
        var byMsgId: map<MsgId, nat> := pendingAckIds[userId][packet.msgId := id];
        pendingAckIds := pendingAckIds[userId := byMsgId];
      } else {
        stopped := true;
      }
    }

    method DeliverNotice(userId: UserId, packet: Packet, id: nat, removable: seq<nat>) returns (removableIds: seq<nat>, stopped: bool)
      requires router.sessionManager.Valid()
      modifies router
      ensures LoopState(View(), removableIds, stopped) == NoticeRound(old(View()), userId, packet, id, removable)
    {
      removableIds, stopped := removable, false;
      var ok := Route(userId, packet);
      if ok {
        removableIds := removableIds + [id];
      } else {
        stopped := true;
      }
    }

    method HandleMessageReceivedAck(recipientUserId: UserId, serverMsgId: MsgId)
      modifies this, queue
      ensures View() == ReceivedAck(old(View()), recipientUserId, serverMsgId)
    {
      if recipientUserId == "" || serverMsgId == "" {
        return;
      }
      if recipientUserId !in pendingAckIds {
        return;
      }
      if serverMsgId !in pendingAckIds[recipientUserId] {
        return;
      }
      var offlineId := pendingAckIds[recipientUserId][serverMsgId];
      pendingAckIds := pendingAckIds[recipientUserId := pendingAckIds[recipientUserId] - {serverMsgId}];
      if pendingAckIds[recipientUserId] == map[] {
        pendingAckIds := pendingAckIds - {recipientUserId};
      }
      queue.Emit(MarkDelivered([offlineId]));
    }

    method OnUserDisconnected(userId: UserId)
      modifies this
      ensures pendingAckIds == if userId == "" then old(pendingAckIds) else old(pendingAckIds) - {userId}
    {
      if userId == "" {
        return;
      }
      pendingAckIds := pendingAckIds - {userId};
    }

    /** The session manager's detach together with the signal userDisconnected that ends here. */
    method Disconnect(connectionId: ConnId)
      requires router.sessionManager.Valid()
      modifies this, router.sessionManager
      ensures router.sessionManager.Valid() && View() == Detach(old(View()), connectionId)
    {
      var userId := router.sessionManager.Detach(connectionId);
      OnUserDisconnected(userId);
    }

    /** A login: the session is marked, then the queued packets are asked for. */
    method LoginUser(connectionId: ConnId, userId: UserId)
      requires router.sessionManager.Valid() && connectionId in router.sessionManager.connections
      modifies router.sessionManager, router.sessionManager.connections.Values, queue
      ensures router.sessionManager.Valid() && View() == Login(old(View()), connectionId, userId)
    {
      var ok := router.sessionManager.Authenticate(connectionId, userId);
      DeliverOnLogin(userId);
    }
  }

  // ---------------------------------------------------------------- the loops, as functions

  function EnqueueMany(m: Main, users: seq<UserId>, packet: Packet, exclude: UserId): Main {
    if users == [] then m
    else
      var before, user := EnqueueMany(m, users[..|users| - 1], packet, exclude), users[|users| - 1];
      if exclude != "" && user == exclude then before else EnqueueIfOffline(before, user, packet)
  }

  lemma SameRoute(m: Main, r: Main, user: UserId, packet: Packet)
    requires r == m.(pendingAckIds := map[], posted := [])
    ensures Route(m, user, packet) == Route(r, user, packet).(pendingAckIds := m.pendingAckIds, posted := m.posted)
    ensures FindByUserId(m, user) == FindByUserId(r, user)
  {
  }

  datatype LoopState = LoopState(main: Main, removable: seq<nat>, stopped: bool)

  /** One round, with the routing decided anew each time. */
  function Round(m: Main, user: UserId, q: QueuedPacket, removable: seq<nat>): LoopState {
    var p := DeliverOne(Progress(m.pendingAckIds, removable, [], false), user, Online(m, user), q);
    LoopState(m.(pendingAckIds := p.pending, sent := m.sent + HandoffsFor(m, user, p.sent)), p.removable, p.stopped)
  }

  /** What the loop has done after `packets`. */
  ghost function Loop(m: Main, user: UserId, packets: seq<QueuedPacket>): LoopState {
    var p := DeliverAll(m.pendingAckIds, user, Online(m, user), packets);
    LoopState(m.(pendingAckIds := p.pending, sent := m.sent + HandoffsFor(m, user, p.sent)), p.removable, p.stopped)
  }

  function AckRound(m: Main, user: UserId, packet: Packet, id: nat, removable: seq<nat>): LoopState {
    var byMsgId := Held(m.pendingAckIds, user);
    var touched := m.(pendingAckIds := m.pendingAckIds[user := byMsgId]);
    if packet.msgId in byMsgId then LoopState(touched, removable + [id], false)
    else if Online(m, user) then
      LoopState(Route(m, user, packet).(pendingAckIds := m.pendingAckIds[user := byMsgId[packet.msgId := id]]), removable, false)
    else LoopState(touched, removable, true)
  }

  function NoticeRound(m: Main, user: UserId, packet: Packet, id: nat, removable: seq<nat>): LoopState {
    if Online(m, user) then LoopState(Route(m, user, packet), removable + [id], false) else LoopState(m, removable, true)
  }

  lemma RoundByKind(m: Main, user: UserId, q: QueuedPacket, removable: seq<nat>)
    ensures Round(m, user, q, removable) ==
            match Decode(q.doc)
            case Failed(_) => LoopState(m, removable + [q.id], false)
            case Decoded(packet) =>
              if packet.msgId == "" then LoopState(m, removable + [q.id], false)
              else if packet.cmd == ReceiveMessage then AckRound(m, user, packet, q.id, removable)
              else NoticeRound(m, user, packet, q.id, removable)
  {
    var d := Decode(q.doc);
    SentNone(m, user);
    if d.Decoded? { SentOne(m, user, d.packet); }
    hide Decode, HandoffsFor, FindByUserId, Route;
  }

  lemma SentNone(m: Main, user: UserId)
    ensures m.sent + HandoffsFor(m, user, []) == m.sent
  {
  }

  lemma SentOne(m: Main, user: UserId, packet: Packet)
    ensures Online(m, user) ==> Route(m, user, packet) == m.(sent := m.sent + HandoffsFor(m, user, [packet]))
    ensures !Online(m, user) ==> Route(m, user, packet) == m
  {
  }

  lemma NothingDelivered(m: Main, user: UserId)
    ensures Loop(m, user, []) == LoopState(m, [], false)
  {
  }

  lemma DeliverOneFrom(p: Progress, user: UserId, online: bool, q: QueuedPacket)
    requires !p.stopped
    ensures var r := DeliverOne(Progress(p.pending, p.removable, [], false), user, online, q);
            DeliverOne(p, user, online, q) == r.(sent := p.sent + r.sent)
  {
  }

  /** Deciding the routing anew in each round is the same as deciding it once: routing changes no session. */
  lemma RoundExtends(m: Main, user: UserId, front: seq<QueuedPacket>, q: QueuedPacket)
    requires !Loop(m, user, front).stopped
    ensures var before := Loop(m, user, front);
            Round(before.main, user, q, before.removable) == Loop(m, user, front + [q])
  {
    hide DeliverOne;
    var p := DeliverAll(m.pendingAckIds, user, Online(m, user), front);
    assert (front + [q])[..|front|] == front;
    DeliverOneFrom(p, user, Online(m, user), q);
    var r := DeliverOne(Progress(p.pending, p.removable, [], false), user, Online(m, user), q);
    assert m.sent + HandoffsFor(m, user, p.sent + r.sent) == m.sent + HandoffsFor(m, user, p.sent) + HandoffsFor(m, user, r.sent);
    assert FindByUserId(Loop(m, user, front).main, user) == FindByUserId(m, user);
  }

  lemma {:induction false} StoppedStays(m: Main, user: UserId, packets: seq<QueuedPacket>, i: nat)
    requires i <= |packets| && (i == |packets| || Loop(m, user, packets[..i]).stopped)
    ensures Loop(m, user, packets) == Loop(m, user, packets[..i])
    decreases |packets| - i
  {
    if i == |packets| {
      assert packets[..i] == packets;
    } else {
      assert packets[..i + 1][..i] == packets[..i];
      StoppedStays(m, user, packets, i + 1);
    }
  }

  // ---------------------------------------------------------------- the queue on the database thread

  class OfflineQueueRepository {
    var rows: seq<Row>
    var nextId: nat

    ghost function View(): Table reads this { Table(rows, nextId) }

    constructor ()
      ensures View() == Table([], 1)
    {
      rows, nextId := [], 1;
    }

    method QueueOffline(recipientUserId: UserId, packetJson: Document)
      modifies this
      ensures View() == Insert(old(View()), Parcel(recipientUserId, packetJson))
    {
      rows := rows + [Row(nextId, Parcel(recipientUserId, packetJson))];
      nextId := nextId + 1;
    }

    method LoadOffline(userId: UserId) returns (packets: seq<QueuedPacket>)
      ensures packets == Select(rows, userId)
    {
      packets := [];
      for i := 0 to |rows|
        invariant packets == Select(rows[..i], userId)
      {
        assert rows[..i + 1][..i] == rows[..i];
        if rows[i].parcel.recipient == userId {
          packets := packets + [QueuedPacket(rows[i].id, rows[i].parcel.doc)];
        }
      }
      assert rows[..|rows|] == rows;
    }

    method MarkOfflineDelivered(ids: seq<nat>)
      modifies this
      ensures View() == Delete(old(View()), ids)
    {
      if ids == [] {
        NothingToDelete(rows);
        return;
      }
      rows := Keep(rows, ids, false);
    }
  }

  lemma {:induction false} NothingToDelete(rows: seq<Row>)
    ensures Keep(rows, [], false) == rows
  {
    if rows != [] {
      NothingToDelete(rows[..|rows| - 1]);
    }
  }
}
