/** Whom the client's requests are addressed to, and what becomes of a message when there is nobody. */
module Addressing {
  import opened Wire
  import opened Text
  import opened Query
  import opened Outbox

  /** There is somebody to send to: a stored group, or the peer of a private session, who is somebody else. */
  predicate Routable(info: SessionInfo, self: UserId) {
    info.groupStored || (info.known && !info.groupSession && info.peerUserId != "" && info.peerUserId != self)
  }

  /** To a stored group without a recipient, or else to the peer of the private session, who is somebody else. */
  predicate Addressed(x: SendText, info: SessionInfo, self: UserId) {
    if info.groupStored then x.sessionType == "group" && x.recipientUserId == ""
    else
      && x.sessionType == "private" && info.known && !info.groupSession
      && x.recipientUserId == info.peerUserId != "" && x.recipientUserId != self
  }

  /** The event orders the request: for its session, with what the tables said then. */
  predicate Orders(e: Event, x: SendText) {
    match e
    case Send(sessionId, content, from, msgId, info) =>
      x.msgId == msgId && x.sessionId == sessionId && x.senderId == from && x.content == Trim(content) && Addressed(x, info, from)
    case Resend(sessionId, msgId, info, self) => x.msgId == msgId && x.sessionId == sessionId && Addressed(x, info, self)
    case Recover(sessionId, info, self) => x.sessionId == sessionId && Addressed(x, info, self)
    case _ => false
  }

  // ---------------------------------------------------------------- one event

  /** A message that can be sent is sent once; one that cannot fails, and nothing is sent. */
  lemma DispatchOutcome(o: State, m: ChatMessage, info: SessionInfo, self: UserId)
    ensures var t := Dispatch(o, m, info, self);
            if Routable(info, self) then
              |t.sends| == |o.sends| + 1 && t == o.(sends := o.sends + [t.sends[|o.sends|]])
              && var x := t.sends[|o.sends|];
              x.msgId == m.msgId && x.senderId == m.senderId && x.sessionId == m.sessionId && x.content == m.content && Addressed(x, info, self)
            else
              && t.sends == o.sends && m.msgId !in t.timers && m.msgId !in t.pendingAcks
              && (forall i :: 0 <= i < |o.messages| && o.messages[i].msgId == m.msgId ==> t.messages[i].status == Failed)
  {
  }

  /** A new message is stored with its trimmed text and sent; without somebody to send to it is stored as failed; an
      empty text, no session, or a group that is not stored leave everything as it was. */
  lemma SendOutcome(o: State, sessionId: string, content: string, from: UserId, msgId: MsgId, info: SessionInfo)
    requires Possible(o, Send(sessionId, content, from, msgId, info))
    ensures var t := Act(o, Send(sessionId, content, from, msgId, info));
            var n := |o.messages|;
            if Trim(content) == "" || sessionId == "" || (info.known && info.groupSession && !info.groupStored) then t == o
            else
              && |t.messages| == n + 1 && t.messages[..n] == o.messages
              && t.messages[n] == ChatMessage(msgId, sessionId, from, Trim(content), if Routable(info, from) then Sending else Failed, "", false)
              && t.pendingAcks == (if Routable(info, from) then o.pendingAcks + {msgId} else o.pendingAcks)
              && (if Routable(info, from) then |t.sends| == |o.sends| + 1 && o.sends == t.sends[..|o.sends|] else t.sends == o.sends)
  {
    hide Trim;
    var trimmed := Trim(content);
    var m := ChatMessage(msgId, sessionId, from, trimmed, Sending, "", false);
    var stored := StartAckTimer(o.(messages := o.messages + [m], pendingAcks := o.pendingAcks + {msgId}), msgId);
    DispatchOutcome(stored, m, info, from);
    if !Routable(info, from) && !(trimmed == "" || sessionId == "" || (info.known && info.groupSession && !info.groupStored)) {
      OthersStay(stored.messages, msgId, o.messages);
    }
  }

  lemma OthersStay(messages: seq<ChatMessage>, msgId: MsgId, others: seq<ChatMessage>)
    requires others <= messages && !IsStored(others, msgId)
    ensures UpdateStatus(messages, msgId, Failed, "")[..|others|] == others
  {
    forall i | 0 <= i < |others| ensures UpdateStatus(messages, msgId, Failed, "")[i] == others[i] {
      assert others[i] in others;
    }
  }

  lemma {:induction false} RecoverOrders(o: State, pending: seq<ChatMessage>, sessionId: string, info: SessionInfo, self: UserId)
    ensures var t := RecoverAll(o, pending, sessionId, info, self);
            && o.sends <= t.sends
            && (forall i :: |o.sends| <= i < |t.sends| ==> Orders(Recover(sessionId, info, self), t.sends[i]))
            && (forall m :: m in pending && m.sessionId == sessionId && Routable(info, self) ==>
                  exists i :: |o.sends| <= i < |t.sends| && t.sends[i].msgId == m.msgId && t.sends[i].content == m.content)
  {
    hide Dispatch, Addressed;
    if pending != [] {
      var n := |pending| - 1;
      var before, t := RecoverAll(o, pending[..n], sessionId, info, self), RecoverAll(o, pending, sessionId, info, self);
      assert pending == pending[..n] + [pending[n]];
      RecoverOrders(o, pending[..n], sessionId, info, self);
      DispatchOutcome(StartAckTimer(before, pending[n].msgId), pending[n], info, self);
      forall m | m in pending && m.sessionId == sessionId && Routable(info, self)
        ensures exists i :: |o.sends| <= i < |t.sends| && t.sends[i].msgId == m.msgId && t.sends[i].content == m.content
      {
        if m in pending[..n] {
          var i :| |o.sends| <= i < |before.sends| && before.sends[i].msgId == m.msgId && before.sends[i].content == m.content;
          assert t.sends[i] == before.sends[i];
        } else {
          assert t.sends[|before.sends|].msgId == m.msgId;
        }
      }
    }
  }

  /** What an event hands to the network, it orders. */
  lemma NewSendsOrdered(o: State, e: Event)
    requires Possible(o, e)
    ensures o.sends <= Act(o, e).sends
    ensures forall i :: |o.sends| <= i < |Act(o, e).sends| ==> Orders(e, Act(o, e).sends[i])
  {
    hide Trim, FetchForSession, FindMessage, Dispatch, Addressed, UpdateStatus, Routable;
    match e
    case Send(sessionId, content, from, msgId, info) =>
      var m := ChatMessage(msgId, sessionId, from, Trim(content), Sending, "", false);
      DispatchOutcome(StartAckTimer(o.(messages := o.messages + [m], pendingAcks := o.pendingAcks + {msgId}), msgId), m, info, from);
    case Resend(sessionId, msgId, info, self) =>
      match FindMessage(FetchForSession(o.messages, sessionId, RESEND_SEARCH_LIMIT), msgId) {
        case None =>
        case Some(m) =>
          var p := o.(messages := UpdateStatus(o.messages, msgId, Sending, ""), pendingAcks := o.pendingAcks + {msgId});
          DispatchOutcome(StartAckTimer(p, msgId), m, info, self);
      }
    case Recover(sessionId, info, self) => RecoverOrders(o, FetchPending(o.messages, o.pendingAcks), sessionId, info, self);
    case _ =>
  }

  /** Sending again: a stored message of the session, with a text and among its oldest 1000, goes out again under its
      msgId exactly when there is somebody to send to. */
  lemma ResendOutcome(o: State, sessionId: string, msgId: MsgId, info: SessionInfo, self: UserId)
    ensures var t := Act(o, Resend(sessionId, msgId, info, self));
            var found := FindMessage(FetchForSession(o.messages, sessionId, 1000), msgId);
            if msgId == "" || sessionId == "" || found.None? || found.value.content == "" then t == o
            else if Routable(info, self) then
              && |t.sends| == |o.sends| + 1 && t.sends[|o.sends|].content == found.value.content && msgId in t.pendingAcks
              && (forall m :: m in t.messages && m.msgId == msgId ==> m.status == Sending)
            else
              && t.sends == o.sends && msgId !in t.pendingAcks
              && (forall m :: m in t.messages && m.msgId == msgId ==> m.status == Failed)
  {
    hide FetchForSession, FindMessage, Dispatch, Addressed;
    var found := FindMessage(FetchForSession(o.messages, sessionId, 1000), msgId);
    var p := o.(messages := UpdateStatus(o.messages, msgId, Sending, ""), pendingAcks := o.pendingAcks + {msgId});
    if found.Some? { DispatchOutcome(StartAckTimer(p, msgId), found.value, info, self); DispatchKeepsPlaces(StartAckTimer(p, msgId), found.value, info, self); }
  }

  lemma DispatchKeepsPlaces(o: State, m: ChatMessage, info: SessionInfo, self: UserId)
    ensures var t := Dispatch(o, m, info, self);
            |t.messages| == |o.messages| && forall i :: 0 <= i < |o.messages| ==> t.messages[i].msgId == o.messages[i].msgId
  {
  }

  // ---------------------------------------------------------------- what the searches find

  function OfSession(sessionId: string): ChatMessage -> bool {
    (m: ChatMessage) => m.sessionId == sessionId
  }

  function WithPendingAck(pendingAcks: set<MsgId>): ChatMessage -> bool {
    (m: ChatMessage) => m.msgId in pendingAcks
  }

  /** The search for a message to send again sees the first `limit` messages of the session, sent or received. */
  lemma {:induction false} FetchIsOldest(messages: seq<ChatMessage>, sessionId: string, limit: nat)
    ensures var own := Where(messages, OfSession(sessionId));
            FetchForSession(messages, sessionId, limit) == if |own| <= limit then own else own[..limit]
  {
    if messages != [] {
      FetchIsOldest(messages[..|messages| - 1], sessionId, limit);
    }
  }

  /** Recovery sees every message with a pending_acks row, in the order of the timestamps. */
  lemma {:induction false} PendingInOrder(messages: seq<ChatMessage>, pendingAcks: set<MsgId>)
    ensures FetchPending(messages, pendingAcks) == Where(messages, WithPendingAck(pendingAcks))
  {
    if messages != [] {
      PendingInOrder(messages[..|messages| - 1], pendingAcks);
    }
  }

  // ---------------------------------------------------------------- every run

  ghost predicate OrderedAt(o: State, events: seq<Event>, n: nat, i: nat) {
    && n < |events| && |Runs(o, events[..n]).sends| <= i < |Runs(o, events[..n + 1]).sends|
    && i < |Runs(o, events).sends| && Orders(events[n], Runs(o, events).sends[i])
  }

  /** In every run each request handed to the network was ordered by an event that sent, resent or recovered its message,
      and is addressed as the session and group tables said at that event. */
  lemma {:induction false} SendsAddressed(o: State, events: seq<Event>, i: nat) returns (n: nat)
    requires |o.sends| <= i < |Runs(o, events).sends|
    ensures OrderedAt(o, events, n, i)
  {
    hide Act, Orders, Possible;
    var last := |events| - 1;
    var front := events[..last];
    assert events[..last + 1] == events;
    if Possible(Runs(o, front), events[last]) { NewSendsOrdered(Runs(o, front), events[last]); }
    if i < |Runs(o, front).sends| {
      n := SendsAddressed(o, front, i);
      assert front[..n] == events[..n] && front[..n + 1] == events[..n + 1];
    } else {
      n := last;
    }
  }
}
