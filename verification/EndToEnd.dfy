/** A client and the server over a network that may lose, repeat and reorder: what "delivered" means to the sender. */
module EndToEnd {
  import opened Packets
  import opened Wire
  import opened Text
  import opened IdempotencyWindow
  import opened Idempotency
  import Messages = MessageDelivery
  import Server = ServerProtocol
  import GroupSends
  import RequestOrigins
  import Offline = OfflineProtocol
  import Outbox
  import DeliveredStatus
  import Addressing

  datatype System = System(server: Server.Server, client: Outbox.State)

  /** The request carries what the client handed to the network; the text is trimmed on the way. */
  predicate Matches(x: Outbox.SendText, p: Messages.SendParams) {
    && x.msgId == p.msgId && x.sessionId == p.sessionId && Trim(x.content) == p.content
    && x.sessionType == p.sessionType && x.recipientUserId == p.recipientUserId
  }

  ghost predicate SentByClient(client: Outbox.State, p: Messages.SendParams) {
    exists i :: 0 <= i < |client.sends| && Matches(client.sends[i], p)
  }

  /** The server may receive anything from others at any time, and what the client ever sent at any later time, any
      number of times, or never. An ack the server ever emitted for the user's requests may arrive at any time, any number of times, or never. */
  datatype Event =
    | AtServer(e: Server.ServerEvent)
    | AtClient(c: Outbox.Event)
    | AckDelivered(i: nat)

  ghost predicate Possible(s: System, user: UserId, e: Event) {
    match e
    case AtServer(x) =>
      Server.Possible(s.server, x) && (x.Send? && x.p.senderUserId == user ==> SentByClient(s.client, x.p))
    case AtClient(c) => Outbox.Possible(s.client, c) && !c.AckReceived? && !c.AckFailed?
    case AckDelivered(i) => i < |s.server.svc.acks| && s.server.svc.acks[i].sender == user && s.server.svc.acks[i].code != 0
  }

  function Act(s: System, user: UserId, e: Event): System
    requires Possible(s, user, e)
  {
    match e
    case AtServer(x) => s.(server := Server.Act(s.server, x))
    case AtClient(c) => s.(client := Outbox.Act(s.client, c))
    case AckDelivered(i) =>
      var a := s.server.svc.acks[i];
      s.(client := if a.code == 200 then Outbox.OnAckReceived(s.client, a.msgId, a.serverId)
                   else Outbox.OnAckFailed(s.client, a.msgId, a.code))
  }

  ghost function Runs(s: System, user: UserId, events: seq<Event>): System {
    if events == [] then s
    else
      var before := Runs(s, user, events[..|events| - 1]);
      var e := events[|events| - 1];
      if Possible(before, user, e) then Act(before, user, e) else before
  }

  /** The server accepted the message under this server id, for a request that it received: posted it for storage and
      handed over or queued a packet for each recipient. */
  ghost predicate WasAccepted(s: Server.Server, user: UserId, msgId: MsgId, serverId: MsgId) {
    exists j :: 0 <= j < |s.log| && s.log[j].key == RequestKeyFor(user, msgId)
                && s.log[j].entry.serverId == serverId && Happened(s.off, s.log[j])
                && RequestOrigins.HasOrigin(s.off, s.requests, s.log[j])
  }

  ghost predicate DeliveredWasAccepted(s: System, user: UserId) {
    forall m :: m in s.client.messages && m.status == Outbox.Delivered && !m.incoming ==> WasAccepted(s.server, user, m.msgId, m.serverId)
  }

  // ---------------------------------------------------------------- the server only adds to its history

  ghost predicate HistoryGrows(a: Server.Server, b: Server.Server) {
    && a.log <= b.log && a.off.main.posted <= b.off.main.posted && a.off.hist.submitted <= b.off.hist.submitted
    && a.requests <= b.requests && RequestOrigins.Later(a.off, b.off)
  }

  lemma StillAccepted(a: Server.Server, b: Server.Server, user: UserId, msgId: MsgId, serverId: MsgId)
    requires HistoryGrows(a, b) && WasAccepted(a, user, msgId, serverId)
    ensures WasAccepted(b, user, msgId, serverId)
  {
    hide RequestOrigins.HasOrigin;
    var j :| 0 <= j < |a.log| && a.log[j].key == RequestKeyFor(user, msgId) && a.log[j].entry.serverId == serverId
             && Happened(a.off, a.log[j]) && RequestOrigins.HasOrigin(a.off, a.requests, a.log[j]);
    RequestOrigins.OriginStays(a.off, b.off, a.requests, b.requests, a.log[j]);
    assert b.log[j] == a.log[j];
  }

  lemma ServerHistoryGrows(s: Server.Server, e: Server.ServerEvent)
    requires Server.Possible(s, e)
    ensures HistoryGrows(s, Server.Act(s, e))
  {
    hide Offline.Run, Messages.TooLarge, Prune, Messages.Recipients, Encode, Decode;
    match e
    case Outside(_) =>
    case Send(p, clock, serverId, token) =>
      Server.EffectsAdd(s.off, Messages.ProcessSendMessage(s.svc, p, clock, serverId, token).effects);
    case MembershipChanged(_, _, _) =>
    case HandleReply(clock) =>
      if s.off.replies[s.off.handled].GroupMembersLoaded? {
        var r := s.off.replies[s.off.handled].result;
        var mid := Offline.Step(s.off, Offline.ReplyHandled);
        Server.EffectsAdd(mid, Messages.OnGroupMembersForNotify(s.notifications, r).1);
        Server.EffectsAdd(mid, Messages.OnGroupMembersForMessage(s.svc, r, clock).effects);
      }
  }

  // ---------------------------------------------------------------- the client marks delivered only on a 200 ack

  lemma AckDelivers(o: Outbox.State, msgId: MsgId, serverId: MsgId, m: Outbox.ChatMessage)
    requires serverId != "" && m in Outbox.OnAckReceived(o, msgId, serverId).messages
    ensures m in o.messages || (m.msgId == msgId && m.serverId == serverId)
  {
  }

  // ---------------------------------------------------------------- the user's requests are the client's

  ghost predicate RequestsSent(s: System, user: UserId) {
    forall q :: q in s.server.requests && q.senderUserId == user ==> SentByClient(s.client, q)
  }

  lemma StillSent(a: Outbox.State, b: Outbox.State, q: Messages.SendParams)
    requires SentByClient(a, q) && a.sends <= b.sends
    ensures SentByClient(b, q)
  {
    var i :| 0 <= i < |a.sends| && Matches(a.sends[i], q);
    assert b.sends[i] == a.sends[i];
  }

  lemma RequestsComeIn(s: Server.Server, e: Server.ServerEvent)
    requires Server.Possible(s, e)
    ensures Server.Act(s, e).requests == s.requests + if e.Send? then {e.p} else {}
  {
    hide Messages.ProcessSendMessage, Messages.OnGroupMembersForMessage, Offline.Run, Offline.Step;
  }

  ghost predicate ClientOk(o: Outbox.State) {
    Outbox.DistinctIds(o.messages) && DeliveredStatus.SendsCarry(o)
  }

  lemma ClientOkAct(o: Outbox.State, c: Outbox.Event)
    requires ClientOk(o) && Outbox.Possible(o, c)
    ensures ClientOk(Outbox.Act(o, c)) && o.sends <= Outbox.Act(o, c).sends
  {
    hide Outbox.Act, Outbox.DistinctIds, DeliveredStatus.SendsCarry;
    Outbox.IdsKept(o, c);
    DeliveredStatus.SendsCarryAct(o, c);
    Addressing.NewSendsOrdered(o, c);
  }

  function ClientEvent(s: System, e: Event): Outbox.Event
    requires e.AtClient? || (e.AckDelivered? && e.i < |s.server.svc.acks|)
  {
    if e.AtClient? then e.c
    else
      var a := s.server.svc.acks[e.i];
      if a.code == 200 then Outbox.AckReceived(a.msgId, a.serverId) else Outbox.AckFailed(a.msgId, a.code)
  }

  lemma RequestsSentAct(s: System, user: UserId, e: Event)
    requires ClientOk(s.client) && RequestsSent(s, user) && Possible(s, user, e)
    ensures ClientOk(Act(s, user, e).client) && RequestsSent(Act(s, user, e), user)
  {
    hide Server.Act, ClientOk, SentByClient, Outbox.OnAckReceived, Outbox.OnAckFailed;
    var t := Act(s, user, e);
    if e.AtServer? {
      RequestsComeIn(s.server, e.e);
    } else {
      assert t.client == Outbox.Act(s.client, ClientEvent(s, e)) && t.server == s.server;
      hide Outbox.Act;
      ClientOkAct(s.client, ClientEvent(s, e));
      forall q | q in t.server.requests && q.senderUserId == user ensures SentByClient(t.client, q) {
        StillSent(s.client, t.client, q);
      }
    }
  }

  // ---------------------------------------------------------------- every run of both

  ghost predicate SystemInv(s: System, user: UserId) {
    && GroupSends.GroupInv(s.server) && RunInv(s.server) && DeliveredWasAccepted(s, user)
    && ClientOk(s.client) && RequestsSent(s, user)
  }

  lemma AcceptedAck(s: Server.Server, i: nat)
    requires RunInv(s) && i < |s.svc.acks| && s.svc.acks[i].code == 200
    ensures s.svc.acks[i].serverId != ""
    ensures WasAccepted(s, s.svc.acks[i].sender, s.svc.acks[i].msgId, s.svc.acks[i].serverId)
  {
  }

  lemma SystemInvAct(s: System, user: UserId, e: Event)
    requires SystemInv(s, user) && Possible(s, user, e)
    ensures SystemInv(Act(s, user, e), user)
  {
    hide GroupSends.GroupInv, RunInv, WasAccepted, Server.Act, Outbox.Act, Outbox.OnAckReceived, Outbox.OnAckFailed, ClientOk, RequestsSent, SentByClient;
    RequestsSentAct(s, user, e);
    var t := Act(s, user, e);
    match e
    case AtServer(x) =>
      GroupSends.GroupInvAct(s.server, x);
      RunInvAct(s.server, x);
      ServerHistoryGrows(s.server, x);
      forall m | m in t.client.messages && m.status == Outbox.Delivered && !m.incoming
        ensures WasAccepted(t.server, user, m.msgId, m.serverId)
      {
        StillAccepted(s.server, t.server, user, m.msgId, m.serverId);
      }
    case AtClient(c) =>
      forall m | m in t.client.messages && m.status == Outbox.Delivered && !m.incoming
        ensures WasAccepted(t.server, user, m.msgId, m.serverId)
      {
        DeliveredStatus.OtherEventsDeliverNothing(s.client, c, m);
      }
    case AckDelivered(i) =>
      AckArrives(s, user, i);
  }

  lemma AckArrives(s: System, user: UserId, i: nat)
    requires SystemInv(s, user) && Possible(s, user, AckDelivered(i))
    ensures DeliveredWasAccepted(Act(s, user, AckDelivered(i)), user)
  {
    hide GroupSends.GroupInv, RunInv, WasAccepted, Outbox.OnAckReceived, ClientOk, RequestsSent;
    var a := s.server.svc.acks[i];
    var t := Act(s, user, AckDelivered(i));
    forall m | m in t.client.messages && m.status == Outbox.Delivered && !m.incoming
      ensures WasAccepted(t.server, user, m.msgId, m.serverId)
    {
      if a.code == 200 {
        AcceptedAck(s.server, i);
        AckDelivers(s.client, a.msgId, a.serverId, m);
      } else {
        DeliveredStatus.UpdateDeliversNothing(s.client.messages, a.msgId, Outbox.Failed, m);
      }
    }
  }

  /** No own message is shown as delivered yet, and nothing is on its way. */
  ghost predicate FreshClient(client: Outbox.State) {
    && Outbox.DistinctIds(client.messages) && client.sends == []
    && forall m :: m in client.messages && m.status == Outbox.Delivered ==> m.incoming
  }

  /** Whatever the network does and however often messages are resent: a message of the user that is shown as delivered
      was accepted by the server under the server id that the client stored, for a request that it received. */
  lemma {:induction false} DeliveredMeansAccepted(client: Outbox.State, user: UserId, events: seq<Event>)
    requires FreshClient(client)
    ensures SystemInv(Runs(System(Server.Start(), client), user, events), user)
    ensures DeliveredWasAccepted(Runs(System(Server.Start(), client), user, events), user)
  {
    hide DeliveredWasAccepted, GroupSends.GroupInv, RunInv, ClientOk, RequestsSent;
    var start := System(Server.Start(), client);
    if events == [] {
      StartOk(client, user);
    } else {
      var front := events[..|events| - 1];
      DeliveredMeansAccepted(client, user, front);
      if Possible(Runs(start, user, front), user, events[|events| - 1]) {
        SystemInvAct(Runs(start, user, front), user, events[|events| - 1]);
      }
    }
  }

  lemma StartOk(client: Outbox.State, user: UserId)
    requires FreshClient(client)
    ensures SystemInv(System(Server.Start(), client), user)
  {
  }

  /** The acceptance that stored this very message, for a request `x` that the client sent: the message's session, its
      sender and its text; a private one for the recipient that the client addressed. */
  ghost predicate StoredFor(s: Server.Server, user: UserId, m: Outbox.ChatMessage, x: Outbox.SendText) {
    exists j :: 0 <= j < |s.log| && s.log[j].key == RequestKeyFor(user, m.msgId) && Happened(s.off, s.log[j])
                && var a := s.log[j].accepted.value;
                && a.store == StoreRequest(m.msgId, m.sessionId, user, Trim(m.content), a.store.timestamp, m.serverId)
                && x.msgId == m.msgId && x.sessionId == m.sessionId
                && (x.sessionType == "private" ==> a.recipients == [x.recipientUserId])
  }

  ghost predicate StoredAs(s: System, user: UserId, m: Outbox.ChatMessage) {
    exists i :: 0 <= i < |s.client.sends| && StoredFor(s.server, user, m, s.client.sends[i])
  }

  lemma SameMessage(client: Outbox.State, m: Outbox.ChatMessage, x: Outbox.SendText)
    requires ClientOk(client) && m in client.messages && x in client.sends && x.msgId == m.msgId
    ensures x.sessionId == m.sessionId && x.content == m.content
  {
    assert Outbox.IsStored(client.messages, m.msgId);
    assert DeliveredStatus.Carries(client.messages, x);
    var y :| y in client.messages && y.msgId == x.msgId && y.sessionId == x.sessionId && y.senderId == x.senderId && y.content == x.content;
    DeliveredStatus.SameId(client.messages, y, m);
  }

  lemma AcceptedIsStored(s: System, user: UserId, m: Outbox.ChatMessage)
    requires ClientOk(s.client) && RequestsSent(s, user) && m in s.client.messages
    requires WasAccepted(s.server, user, m.msgId, m.serverId)
    requires ':' !in user && forall q :: q in s.server.requests ==> ':' !in q.senderUserId
    ensures StoredAs(s, user, m)
  {
    hide ClientOk, RequestKeyFor, Trim, RequestOrigins.ByHandledReply, RequestOrigins.Conveys, RequestOrigins.Sendable;
    var log := s.server.log;
    var j :| 0 <= j < |log| && log[j].key == RequestKeyFor(user, m.msgId) && log[j].entry.serverId == m.serverId
             && Happened(s.server.off, log[j]) && RequestOrigins.HasOrigin(s.server.off, s.server.requests, log[j]);
    var q :| q in s.server.requests && RequestOrigins.Accepts(s.server.off, q, log[j]);
    KeyIdentifiesRequest(user, m.msgId, q.senderUserId, q.msgId);
    assert SentByClient(s.client, q);
    var i :| 0 <= i < |s.client.sends| && Matches(s.client.sends[i], q);
    SameMessage(s.client, m, s.client.sends[i]);
    assert StoredFor(s.server, user, m, s.client.sends[i]);
  }

  // ---------------------------------------------------------------- each request was ordered by the user

  ghost predicate Ordered(events: seq<Event>, x: Outbox.SendText) {
    exists n :: 0 <= n < |events| && events[n].AtClient? && Addressing.Orders(events[n].c, x)
  }

  lemma StaysOrdered(events: seq<Event>, e: Event, x: Outbox.SendText)
    requires Ordered(events, x)
    ensures Ordered(events + [e], x)
  {
    hide Addressing.Orders;
    var n :| 0 <= n < |events| && events[n].AtClient? && Addressing.Orders(events[n].c, x);
    assert (events + [e])[n] == events[n];
  }

  lemma StepOrders(s: System, user: UserId, front: seq<Event>, e: Event, x: Outbox.SendText)
    requires Possible(s, user, e) && x in Act(s, user, e).client.sends && x !in s.client.sends
    ensures Ordered(front + [e], x)
  {
    hide Addressing.Orders, Server.Act;
    if e.AtClient? {
      hide Outbox.Act;
      Addressing.NewSendsOrdered(s.client, e.c);
      var i :| 0 <= i < |Act(s, user, e).client.sends| && Act(s, user, e).client.sends[i] == x;
      assert (front + [e])[|front|] == e;
    }
  }

  lemma {:induction false} SendsOrdered(client: Outbox.State, user: UserId, events: seq<Event>, x: Outbox.SendText)
    requires client.sends == [] && x in Runs(System(Server.Start(), client), user, events).client.sends
    ensures Ordered(events, x)
  {
    hide Act, Possible, Ordered;
    var front, e := events[..|events| - 1], events[|events| - 1];
    var s := Runs(System(Server.Start(), client), user, front);
    assert events == front + [e];
    if x in s.client.sends {
      SendsOrdered(client, user, front, x);
      StaysOrdered(front, e, x);
    } else {
      StepOrders(s, user, front, e, x);
    }
  }

  /** When no user id contains a colon: the message was stored with its session, its sender and its text, for a request
      that the user ordered, addressed as the tables said then; a private one was accepted for the session's peer. */
  lemma DeliveredIsStored(client: Outbox.State, user: UserId, events: seq<Event>, m: Outbox.ChatMessage)
    requires FreshClient(client)
    requires var s := Runs(System(Server.Start(), client), user, events);
             && ':' !in user && (forall q :: q in s.server.requests ==> ':' !in q.senderUserId)
             && m in s.client.messages && m.status == Outbox.Delivered && !m.incoming
    ensures var s := Runs(System(Server.Start(), client), user, events);
            exists x :: x in s.client.sends && StoredFor(s.server, user, m, x) && Ordered(events, x)
  {
    hide Runs, GroupSends.GroupInv, RunInv, ClientOk, RequestsSent, WasAccepted, StoredFor, Ordered;
    DeliveredMeansAccepted(client, user, events);
    var s := Runs(System(Server.Start(), client), user, events);
    AcceptedIsStored(s, user, m);
    var i :| 0 <= i < |s.client.sends| && StoredFor(s.server, user, m, s.client.sends[i]);
    SendsOrdered(client, user, events, s.client.sends[i]);
  }
}
