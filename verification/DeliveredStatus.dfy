/** What becomes of a message that is shown as delivered, and what the client hands to the network. */
module DeliveredStatus {
  import opened Wire
  import opened Text
  import opened Outbox

  // ---------------------------------------------------------------- when "delivered" is not final

  ghost predicate ShownDelivered(o: State, msgId: MsgId) {
    forall m :: m in o.messages && m.msgId == msgId ==> m.status == Delivered
  }

  /** A timer for the message that the table no longer knows: it was replaced, not stopped. */
  ghost predicate HasStrayTimer(o: State, msgId: MsgId) {
    exists t :: t in o.armed && o.armed[t] == msgId && !(msgId in o.timers && t == o.timers[msgId])
  }

  /** The event sends the message again: it is found among the messages that the resend searches. */
  ghost predicate Reopens(o: State, e: Event, msgId: MsgId) {
    e.Resend? && e.msgId == msgId && ResendMessage(o, e.sessionId, msgId, e.info, e.self) != o
  }

  /** A timer of the message fires, a failing ack for it arrives, or it is sent again. */
  ghost predicate Undoes(o: State, e: Event, msgId: MsgId) {
    match e
    case TimerFires(timer) => timer in o.armed && o.armed[timer] == msgId
    case AckFailed(id, _) => id == msgId
    case Resend(_, _, _, _) => Reopens(o, e, msgId)
    case _ => false
  }

  ghost predicate Undone(o: State, events: seq<Event>, msgId: MsgId) {
    exists n :: 0 <= n < |events| && Undoes(Runs(o, events[..n]), events[n], msgId)
  }

  /** Everything the client keeps about the message is gone, except for the message. */
  ghost predicate Closed(o: State, msgId: MsgId) {
    && DistinctIds(o.messages) && IsStored(o.messages, msgId) && ShownDelivered(o, msgId)
    && msgId !in o.pendingAcks && msgId !in o.timers
  }

  lemma ClosedUpdate(messages: seq<ChatMessage>, other: MsgId, status: Status, serverId: MsgId, msgId: MsgId)
    requires other != msgId
    ensures forall m: ChatMessage :: m.msgId == msgId ==> (m in UpdateStatus(messages, other, status, serverId) <==> m in messages)
  {
    var updated := UpdateStatus(messages, other, status, serverId);
    forall m: ChatMessage | m.msgId == msgId ensures m in updated <==> m in messages {
      if m in messages {
        var i :| 0 <= i < |messages| && messages[i] == m;
        assert updated[i] == m;
      }
    }
  }

  /** `later` says the same of the message as `o`, and has no new timer for it. */
  ghost predicate Untouched(o: State, later: State, msgId: MsgId) {
    && (forall m: ChatMessage :: m.msgId == msgId ==> (m in later.messages <==> m in o.messages))
    && msgId !in later.pendingAcks && msgId !in later.timers
    && (forall t :: t in later.armed && later.armed[t] == msgId ==> t in o.armed && o.armed[t] == msgId)
  }

  lemma DispatchOther(o: State, m: ChatMessage, info: SessionInfo, self: UserId, msgId: MsgId)
    requires m.msgId != msgId && msgId !in o.pendingAcks && msgId !in o.timers
    ensures Untouched(o, Dispatch(StartAckTimer(o, m.msgId), m, info, self), msgId)
  {
    ClosedUpdate(o.messages, m.msgId, Failed, "", msgId);
  }

  lemma {:induction false} RecoverOthers(o: State, pending: seq<ChatMessage>, sessionId: string, info: SessionInfo, self: UserId, msgId: MsgId)
    requires msgId !in o.pendingAcks && msgId !in o.timers && forall m :: m in pending ==> m.msgId != msgId
    ensures Untouched(o, RecoverAll(o, pending, sessionId, info, self), msgId)
  {
    hide Dispatch;
    if pending != [] {
      var n := |pending| - 1;
      RecoverOthers(o, pending[..n], sessionId, info, self, msgId);
      DispatchOther(RecoverAll(o, pending[..n], sessionId, info, self), pending[n], info, self, msgId);
    }
  }

  lemma SendOthers(o: State, sessionId: string, content: string, from: UserId, id: MsgId, info: SessionInfo, msgId: MsgId)
    requires id != msgId && msgId !in o.pendingAcks && msgId !in o.timers
    ensures Untouched(o, SendMessage(o, sessionId, content, from, id, info), msgId)
  {
    hide Trim, Dispatch;
    var m := ChatMessage(id, sessionId, from, Trim(content), Sending, "", false);
    DispatchOther(o.(messages := o.messages + [m], pendingAcks := o.pendingAcks + {id}), m, info, from, msgId);
  }

  lemma ResendOthers(o: State, sessionId: string, id: MsgId, info: SessionInfo, self: UserId, msgId: MsgId)
    requires id != msgId && msgId !in o.pendingAcks && msgId !in o.timers
    ensures Untouched(o, ResendMessage(o, sessionId, id, info, self), msgId)
  {
    hide FetchForSession, FindMessage, Dispatch;
    var p := o.(messages := UpdateStatus(o.messages, id, Sending, ""), pendingAcks := o.pendingAcks + {id});
    ClosedUpdate(o.messages, id, Sending, "", msgId);
    match FindMessage(FetchForSession(o.messages, sessionId, RESEND_SEARCH_LIMIT), id)
    case None =>
    case Some(m) => DispatchOther(p, m, info, self, msgId);
  }

  /** An event that does not undo it leaves a closed message as it is. */
  lemma StaysUntouched(o: State, e: Event, msgId: MsgId)
    requires Closed(o, msgId) && Possible(o, e) && !Undoes(o, e, msgId)
    ensures Untouched(o, Act(o, e), msgId)
  {
    hide SendMessage, ResendMessage, RecoverAll, UpdateStatus, DistinctIds;
    match e
    case Received(place, m) => assert o.messages == o.messages[..place] + o.messages[place..];
    case Send(sessionId, content, from, id, info) => SendOthers(o, sessionId, content, from, id, info, msgId);
    case Resend(sessionId, id, info, self) => if id != msgId { ResendOthers(o, sessionId, id, info, self, msgId); }
    case Recover(sessionId, info, self) => RecoverOthers(o, FetchPending(o.messages, o.pendingAcks), sessionId, info, self, msgId);
    case AckReceived(id, serverId) => if id != msgId { ClosedUpdate(o.messages, id, Delivered, serverId, msgId); }
    case AckFailed(id, _) => ClosedUpdate(o.messages, id, Failed, "", msgId);
    case TimerFires(timer) => ClosedUpdate(o.messages, o.armed[timer], Failed, "", msgId);
  }

  lemma StaysClosed(o: State, e: Event, msgId: MsgId)
    requires Closed(o, msgId) && Possible(o, e) && !Undoes(o, e, msgId)
    ensures Closed(Act(o, e), msgId)
  {
    hide Act, DistinctIds;
    StaysUntouched(o, e, msgId);
    IdsKept(o, e);
  }

  // ---------------------------------------------------------------- only an ack marks a message delivered

  lemma OtherEventsDeliverNothing(o: State, c: Event, m: ChatMessage)
    requires Possible(o, c) && !c.AckReceived?
    requires m in Act(o, c).messages && m.status == Delivered
    ensures m in o.messages || (c.Received? && m == c.m)
  {
    hide FetchForSession, FindMessage;
    match c
    case Received(_, _) =>
    case Recover(sessionId, info, self) =>
      RecoveryDeliversNothing(o, FetchPending(o.messages, o.pendingAcks), sessionId, info, self, m);
    case Send(sessionId, content, from, msgId, info) =>
      SendDeliversNothing(o, sessionId, content, from, msgId, info, m);
    case Resend(sessionId, msgId, info, self) =>
      ResendDeliversNothing(o, sessionId, msgId, info, self, m);
    case AckFailed(msgId, _) =>
      UpdateDeliversNothing(o.messages, msgId, Failed, m);
    case TimerFires(timer) =>
      UpdateDeliversNothing(o.messages, o.armed[timer], Failed, m);
  }

  lemma UpdateDeliversNothing(messages: seq<ChatMessage>, msgId: MsgId, status: Status, m: ChatMessage)
    requires status != Delivered && m.status == Delivered && m in UpdateStatus(messages, msgId, status, "")
    ensures m in messages && m.msgId != msgId
  {
  }

  lemma DispatchDeliversNothing(o: State, x: ChatMessage, info: SessionInfo, self: UserId, m: ChatMessage)
    requires m in Dispatch(o, x, info, self).messages && m.status == Delivered
    ensures m in o.messages
  {
  }

  lemma SendDeliversNothing(o: State, sessionId: string, content: string, from: UserId, msgId: MsgId,
                            info: SessionInfo, m: ChatMessage)
    requires m in SendMessage(o, sessionId, content, from, msgId, info).messages && m.status == Delivered
    ensures m in o.messages
  {
  }

  lemma ResendDeliversNothing(o: State, sessionId: string, msgId: MsgId, info: SessionInfo, self: UserId, m: ChatMessage)
    requires m in ResendMessage(o, sessionId, msgId, info, self).messages && m.status == Delivered
    ensures m in o.messages
  {
  }

  lemma {:induction false} RecoveryDeliversNothing(o: State, pending: seq<ChatMessage>, sessionId: string,
                                                   info: SessionInfo, self: UserId, m: ChatMessage)
    requires m in RecoverAll(o, pending, sessionId, info, self).messages && m.status == Delivered
    ensures m in o.messages
  {
    hide Dispatch;
    if pending != [] {
      var n := |pending| - 1;
      var before := RecoverAll(o, pending[..n], sessionId, info, self);
      if pending[n].sessionId == sessionId {
        DispatchDeliversNothing(StartAckTimer(before, pending[n].msgId), pending[n], info, self, m);
      }
      RecoveryDeliversNothing(o, pending[..n], sessionId, info, self, m);
    }
  }

  // ---------------------------------------------------------------- when "delivered" is final

  /** The message is stored, whatever its status. */
  ghost predicate Keeps(messages: seq<ChatMessage>, m: ChatMessage) {
    exists x :: x in messages && x == m.(status := x.status, serverId := x.serverId)
  }

  lemma {:induction false} KeptByRecovery(o: State, pending: seq<ChatMessage>, sessionId: string, info: SessionInfo, self: UserId, m: ChatMessage)
    requires Keeps(o.messages, m)
    ensures Keeps(RecoverAll(o, pending, sessionId, info, self).messages, m)
  {
    if pending != [] {
      var n := |pending| - 1;
      KeptByRecovery(o, pending[..n], sessionId, info, self, m);
      var before := RecoverAll(o, pending[..n], sessionId, info, self);
      KeptByUpdate(before.messages, pending[n].msgId, Failed, "", m);
    }
  }

  lemma KeptByUpdate(messages: seq<ChatMessage>, msgId: MsgId, status: Status, serverId: MsgId, m: ChatMessage)
    requires Keeps(messages, m)
    ensures Keeps(UpdateStatus(messages, msgId, status, serverId), m)
  {
    var x :| x in messages && x == m.(status := x.status, serverId := x.serverId);
    var i :| 0 <= i < |messages| && messages[i] == x;
    var y := UpdateStatus(messages, msgId, status, serverId)[i];
    assert y == m.(status := y.status, serverId := y.serverId);
  }

  lemma KeptByDispatch(o: State, x: ChatMessage, info: SessionInfo, self: UserId, m: ChatMessage)
    requires Keeps(o.messages, m)
    ensures Keeps(Dispatch(o, x, info, self).messages, m)
  {
    KeptByUpdate(o.messages, x.msgId, Failed, "", m);
  }

  /** No event removes a message or changes what it says. */
  lemma StaysKept(o: State, e: Event, m: ChatMessage)
    requires Possible(o, e) && Keeps(o.messages, m)
    ensures Keeps(Act(o, e).messages, m)
  {
    hide Trim, FetchForSession, FindMessage, RecoverAll, Dispatch, UpdateStatus;
    match e
    case Received(place, x) =>
      var y :| y in o.messages && y == m.(status := y.status, serverId := y.serverId);
      assert y in Receive(o, place, x).messages;
    case Send(sessionId, content, from, msgId, info) =>
      var x := ChatMessage(msgId, sessionId, from, Trim(content), Sending, "", false);
      var stored := o.(messages := o.messages + [x], pendingAcks := o.pendingAcks + {msgId});
      KeptByDispatch(StartAckTimer(stored, msgId), x, info, from, m);
    case Resend(sessionId, msgId, info, self) =>
      var p := o.(messages := UpdateStatus(o.messages, msgId, Sending, ""), pendingAcks := o.pendingAcks + {msgId});
      KeptByUpdate(o.messages, msgId, Sending, "", m);
      match FindMessage(FetchForSession(o.messages, sessionId, RESEND_SEARCH_LIMIT), msgId) {
        case None =>
        case Some(x) => KeptByDispatch(StartAckTimer(p, msgId), x, info, self, m);
      }
    case Recover(sessionId, info, self) =>
      KeptByRecovery(o, FetchPending(o.messages, o.pendingAcks), sessionId, info, self, m);
    case AckReceived(msgId, serverId) => KeptByUpdate(o.messages, msgId, Delivered, serverId, m);
    case AckFailed(msgId, _) => KeptByUpdate(o.messages, msgId, Failed, "", m);
    case TimerFires(timer) => KeptByUpdate(o.messages, o.armed[timer], Failed, "", m);
  }

  lemma StaysStored(o: State, e: Event, id: MsgId)
    requires Possible(o, e) && IsStored(o.messages, id)
    ensures IsStored(Act(o, e).messages, id)
  {
    hide Act;
    var m :| m in o.messages && m.msgId == id;
    StaysKept(o, e, m);
  }

  /** Stored, and shown as something else than delivered. */
  ghost predicate NotDelivered(o: State, msgId: MsgId) {
    DistinctIds(o.messages) && IsStored(o.messages, msgId) && !ShownDelivered(o, msgId)
  }

  lemma StaysNotDelivered(o: State, e: Event, msgId: MsgId)
    requires NotDelivered(o, msgId) && Possible(o, e) && !(e.AckReceived? && e.msgId == msgId)
    ensures NotDelivered(Act(o, e), msgId)
  {
    hide Act;
    IdsKept(o, e);
    StaysStored(o, e, msgId);
    var t := Act(o, e);
    var x :| x in o.messages && x.msgId == msgId && x.status != Delivered;
    var m :| m in t.messages && m.msgId == msgId;
    if m.status == Delivered {
      if e.AckReceived? { OtherAckDelivers(o, e, m); } else { OtherEventsDeliverNothing(o, e, m); }
      SameId(o.messages, x, m);
    }
  }

  lemma SameId(messages: seq<ChatMessage>, a: ChatMessage, b: ChatMessage)
    requires DistinctIds(messages) && a in messages && b in messages && a.msgId == b.msgId
    ensures a == b
  {
  }

  lemma OtherAckDelivers(o: State, e: Event, m: ChatMessage)
    requires e.AckReceived? && m in Act(o, e).messages && m.msgId != e.msgId
    ensures m in o.messages
  {
    ClosedUpdate(o.messages, e.msgId, Delivered, e.serverId, m.msgId);
  }

  lemma UpdateShows(messages: seq<ChatMessage>, msgId: MsgId, status: Status)
    requires IsStored(messages, msgId)
    ensures exists m :: m in UpdateStatus(messages, msgId, status, "") && m.msgId == msgId && m.status == status
  {
    var m :| m in messages && m.msgId == msgId;
    var i :| 0 <= i < |messages| && messages[i] == m;
    assert UpdateStatus(messages, msgId, status, "")[i] == m.(status := status);
  }

  lemma UndoesUndoes(o: State, e: Event, msgId: MsgId)
    requires Closed(o, msgId) && Undoes(o, e, msgId)
    ensures Possible(o, e) && NotDelivered(Act(o, e), msgId)
  {
    hide FetchForSession, FindMessage, UpdateStatus;
    IdsKept(o, e);
    StaysStored(o, e, msgId);
    UpdateShows(o.messages, msgId, Failed);
    if e.Resend? {
      UpdateShows(o.messages, msgId, Sending);
      UpdateShows(UpdateStatus(o.messages, msgId, Sending, ""), msgId, Failed);
    }
  }

  lemma UndoneSnoc(o: State, events: seq<Event>, msgId: MsgId)
    requires events != []
    ensures var n := |events| - 1;
            Undone(o, events, msgId) <==> Undone(o, events[..n], msgId) || Undoes(Runs(o, events[..n]), events[n], msgId)
  {
    hide Undoes, Runs;
    var n := |events| - 1;
    var front := events[..n];
    forall i | 0 <= i < n ensures front[..i] == events[..i] && front[i] == events[i] {
    }
    if Undone(o, front, msgId) {
      var i :| 0 <= i < n && Undoes(Runs(o, front[..i]), front[i], msgId);
      assert Undoes(Runs(o, events[..i]), events[i], msgId);
    }
    if Undone(o, events, msgId) {
      var i :| 0 <= i <= n && Undoes(Runs(o, events[..i]), events[i], msgId);
      if i < n { assert Undoes(Runs(o, front[..i]), front[i], msgId); }
    }
  }

  ghost predicate NoAckFor(events: seq<Event>, msgId: MsgId) {
    forall i :: 0 <= i < |events| && events[i].AckReceived? ==> events[i].msgId != msgId
  }

  lemma {:induction false} ClosedUntilUndone(o: State, events: seq<Event>, msgId: MsgId)
    requires Closed(o, msgId) && NoAckFor(events, msgId)
    ensures if Undone(o, events, msgId) then NotDelivered(Runs(o, events), msgId) else Closed(Runs(o, events), msgId)
  {
    hide Act, Undone, Undoes, Closed, NotDelivered, Possible;
    if events == [] {
      assert !Undone(o, events, msgId) by { NothingUndone(o, msgId); }
    } else {
      var n := |events| - 1;
      var e := events[n];
      ClosedUntilUndone(o, events[..n], msgId);
      UndoneSnoc(o, events, msgId);
      var before := Runs(o, events[..n]);
      if Undone(o, events[..n], msgId) {
        if Possible(before, e) { StaysNotDelivered(before, e, msgId); }
      } else if Undoes(before, e, msgId) {
        UndoesUndoes(before, e, msgId);
      } else if Possible(before, e) {
        StaysClosed(before, e, msgId);
      }
    }
  }

  lemma NothingUndone(o: State, msgId: MsgId)
    ensures !Undone(o, [], msgId)
  {
  }

  lemma AckCloses(o: State, msgId: MsgId, serverId: MsgId)
    requires ClientInv(o) && msgId in o.timers && IsStored(o.messages, msgId)
    ensures Closed(OnAckReceived(o, msgId, serverId), msgId)
  {
    StaysStored(o, AckReceived(msgId, serverId), msgId);
    IdsKept(o, AckReceived(msgId, serverId));
    var p := OnAckReceived(o, msgId, serverId);
    forall m | m in p.messages && m.msgId == msgId ensures m.status == Delivered {
      var i :| 0 <= i < |p.messages| && p.messages[i] == m;
    }
  }

  /** After its ack a message is shown as delivered until its next ack, exactly as long as none of its timers fires,
      no failing ack for it arrives, and nobody sends it again. */
  lemma DeliveredUntilUndone(o: State, msgId: MsgId, serverId: MsgId, events: seq<Event>)
    requires ClientInv(o) && msgId in o.timers && IsStored(o.messages, msgId) && NoAckFor(events, msgId)
    ensures var p := OnAckReceived(o, msgId, serverId);
            ShownDelivered(Runs(p, events), msgId) <==> !Undone(p, events, msgId)
  {
    AckCloses(o, msgId, serverId);
    hide OnAckReceived, Undone, Runs;
    ClosedUntilUndone(OnAckReceived(o, msgId, serverId), events, msgId);
  }

  /** A run in which the message is not sent again, and the failing acks for it have one of the given codes. */
  ghost predicate Follows(o: State, events: seq<Event>, msgId: MsgId, failing: set<int>) {
    forall n :: 0 <= n < |events| ==>
      && !Reopens(Runs(o, events[..n]), events[n], msgId)
      && (events[n].AckFailed? && events[n].msgId == msgId ==> events[n].code in failing)
  }

  ghost predicate NoTimerFor(o: State, msgId: MsgId) {
    forall t :: t in o.armed ==> o.armed[t] != msgId
  }

  lemma StaysTimerless(o: State, e: Event, msgId: MsgId)
    requires Closed(o, msgId) && NoTimerFor(o, msgId) && Possible(o, e)
    requires !Reopens(o, e, msgId) && !(e.AckFailed? && e.msgId == msgId)
    ensures Closed(Act(o, e), msgId) && NoTimerFor(Act(o, e), msgId)
  {
    hide Act, Reopens, Closed;
    StaysClosed(o, e, msgId);
    StaysUntouched(o, e, msgId);
  }

  lemma {:induction false} NothingUndoes(o: State, events: seq<Event>, msgId: MsgId, failing: set<int>)
    requires Closed(o, msgId) && NoTimerFor(o, msgId) && (forall code :: code !in failing) && Follows(o, events, msgId, failing)
    ensures Closed(Runs(o, events), msgId) && NoTimerFor(Runs(o, events), msgId)
  {
    hide Act, Closed, NoTimerFor, Possible, Reopens;
    if events != [] {
      var n := |events| - 1;
      var front := events[..n];
      forall i | 0 <= i < n ensures front[..i] == events[..i] && front[i] == events[i] {
      }
      NothingUndoes(o, front, msgId, failing);
      if Possible(Runs(o, front), events[n]) { StaysTimerless(Runs(o, front), events[n], msgId); }
    }
  }

  lemma OneEvent(o: State, e: Event)
    requires Possible(o, e)
    ensures Runs(o, [e]) == Act(o, e)
  {
    hide Act;
    assert [e][..0] == [];
  }

  /** One event that undoes the delivery and is no resend. */
  lemma UndoneAtOnce(p: State, e: Event, msgId: MsgId, failing: set<int>)
    requires Closed(p, msgId) && Undoes(p, e, msgId) && !e.Resend? && (e.AckFailed? ==> e.code in failing)
    ensures Follows(p, [e], msgId, failing) && !ShownDelivered(Runs(p, [e]), msgId)
  {
    UndoesUndoes(p, e, msgId);
    OneEvent(p, e);
    hide Act, Runs;
  }

  /** A delivered message that nobody sends again stays delivered whatever else happens exactly when no replaced
      timer was left for it and no failing ack for it is still to arrive. */
  lemma DeliveredIsFinalIff(o: State, msgId: MsgId, serverId: MsgId, failing: set<int>)
    requires ClientInv(o) && msgId in o.timers && IsStored(o.messages, msgId)
    ensures var p := OnAckReceived(o, msgId, serverId);
            (forall events :: Follows(p, events, msgId, failing) ==> ShownDelivered(Runs(p, events), msgId))
            <==> !HasStrayTimer(o, msgId) && forall code :: code !in failing
  {
    var p := OnAckReceived(o, msgId, serverId);
    AckCloses(o, msgId, serverId);
    if HasStrayTimer(o, msgId) {
      var t :| t in o.armed && o.armed[t] == msgId && t != o.timers[msgId];
      UndoneAtOnce(p, TimerFires(t), msgId, failing);
    } else if code :| code in failing {
      UndoneAtOnce(p, AckFailed(msgId, code), msgId, failing);
    } else {
      assert NoTimerFor(p, msgId);
      forall events | Follows(p, events, msgId, failing) ensures ShownDelivered(Runs(p, events), msgId) {
        NothingUndoes(p, events, msgId, failing);
      }
    }
  }

  // ---------------------------------------------------------------- what goes to the network is what is stored

  /** The request carries a stored message: its msgId, session, sender and text. */
  ghost predicate Carries(messages: seq<ChatMessage>, x: SendText) {
    exists m :: m in messages && m.msgId == x.msgId && m.sessionId == x.sessionId && m.senderId == x.senderId && m.content == x.content
  }

  ghost predicate SendsCarry(o: State) {
    forall x :: x in o.sends ==> Carries(o.messages, x)
  }

  lemma CarryByDispatch(o: State, m: ChatMessage, info: SessionInfo, self: UserId)
    requires SendsCarry(o) && Keeps(o.messages, m)
    ensures SendsCarry(Dispatch(o, m, info, self))
  {
    var t := Dispatch(o, m, info, self);
    forall x | x in t.sends ensures Carries(t.messages, x) {
      if x in o.sends {
        var y :| y in o.messages && y.msgId == x.msgId && y.sessionId == x.sessionId && y.senderId == x.senderId && y.content == x.content;
        KeptByDispatch(o, m, info, self, y);
      }
    }
  }

  lemma CarryByUpdate(o: State, t: State, msgId: MsgId, status: Status, serverId: MsgId)
    requires SendsCarry(o) && t.sends == o.sends && t.messages == UpdateStatus(o.messages, msgId, status, serverId)
    ensures SendsCarry(t)
  {
    forall x | x in t.sends ensures Carries(t.messages, x) {
      var y :| y in o.messages && y.msgId == x.msgId && y.sessionId == x.sessionId && y.senderId == x.senderId && y.content == x.content;
      KeptByUpdate(o.messages, msgId, status, serverId, y);
    }
  }

  lemma {:induction false} CarryByRecovery(o: State, pending: seq<ChatMessage>, sessionId: string, info: SessionInfo, self: UserId)
    requires SendsCarry(o) && forall m :: m in pending ==> Keeps(o.messages, m)
    ensures SendsCarry(RecoverAll(o, pending, sessionId, info, self))
  {
    hide Dispatch, SendsCarry;
    if pending != [] {
      var n := |pending| - 1;
      var before := RecoverAll(o, pending[..n], sessionId, info, self);
      CarryByRecovery(o, pending[..n], sessionId, info, self);
      KeptByRecovery(o, pending[..n], sessionId, info, self, pending[n]);
      TimerCarries(before, pending[n].msgId);
      CarryByDispatch(StartAckTimer(before, pending[n].msgId), pending[n], info, self);
    }
  }

  lemma TimerCarries(o: State, msgId: MsgId)
    requires SendsCarry(o)
    ensures SendsCarry(StartAckTimer(o, msgId))
  {
  }

  /** Every request handed to the network carries a stored message, in every state of a run. */
  lemma SendsCarryAct(o: State, e: Event)
    requires SendsCarry(o) && Possible(o, e)
    ensures SendsCarry(Act(o, e))
  {
    hide Trim, FetchForSession, FindMessage, RecoverAll, Dispatch, UpdateStatus;
    match e
    case Received(place, m) =>
      assert forall y :: y in o.messages ==> y in Receive(o, place, m).messages;
    case Send(sessionId, content, from, msgId, info) =>
      var m := ChatMessage(msgId, sessionId, from, Trim(content), Sending, "", false);
      var stored := StartAckTimer(o.(messages := o.messages + [m], pendingAcks := o.pendingAcks + {msgId}), msgId);
      assert m in stored.messages && Keeps(stored.messages, m);
      CarryByDispatch(stored, m, info, from);
    case Resend(sessionId, msgId, info, self) =>
      match FindMessage(FetchForSession(o.messages, sessionId, RESEND_SEARCH_LIMIT), msgId) {
        case None =>
        case Some(m) =>
          var p := StartAckTimer(o.(messages := UpdateStatus(o.messages, msgId, Sending, ""), pendingAcks := o.pendingAcks + {msgId}), msgId);
          CarryByUpdate(o, p, msgId, Sending, "");
          KeptByUpdate(o.messages, msgId, Sending, "", m);
          CarryByDispatch(p, m, info, self);
      }
    case Recover(sessionId, info, self) =>
      CarryByRecovery(o, FetchPending(o.messages, o.pendingAcks), sessionId, info, self);
    case AckReceived(msgId, serverId) => if msgId in o.timers { CarryByUpdate(o, Act(o, e), msgId, Delivered, serverId); }
    case AckFailed(msgId, _) => CarryByUpdate(o, Act(o, e), msgId, Failed, "");
    case TimerFires(timer) => CarryByUpdate(o, Act(o, e), o.armed[timer], Failed, "");
  }

  const DIRECT: SessionInfo := SessionInfo(true, false, false, "peer")

  function Hello(m: MsgId): ChatMessage {
    ChatMessage(m, "s", "me", "hi", Sending, "", false)
  }

  lemma HelloSent(m: MsgId)
    ensures var sent := SendMessage(State([], {}, map[], map[], 0, []), "s", "hi", "me", m, DIRECT);
            sent == State([Hello(m)], {m}, map[m := 0], map[0 := m], 1, [SendText(m, "me", "s", "hi", "private", "peer")])
  {
  }

  lemma HelloRecovered(m: MsgId, o: State)
    requires o == State([Hello(m)], {m}, map[m := 0], map[0 := m], 1, o.sends)
    ensures var back := RecoverPendingMessages(o, "s", DIRECT, "me");
            back == State([Hello(m)], {m}, map[m := 1], map[0 := m, 1 := m], 2, back.sends)
  {
    var pending := [Hello(m)];
    assert pending[..0] == [];
    assert FetchPending(pending, {m}) == pending;
    assert RecoverAll(o, [], "s", DIRECT, "me") == o;
  }

  lemma HelloResent(m: MsgId, o: State)
    requires m != "" && o == State([Hello(m).(status := Failed)], {m}, map[], map[], 1, o.sends)
    ensures var again := ResendMessage(o, "s", m, DIRECT, "me");
            again == State([Hello(m)], {m}, map[m := 1], map[1 := m], 2, again.sends)
  {
    assert o.messages[..0] == [];
    assert FetchForSession([], "s", RESEND_SEARCH_LIMIT) == [];
    assert FetchForSession(o.messages, "s", RESEND_SEARCH_LIMIT) == o.messages;
    assert UpdateStatus(o.messages, m, Sending, "") == [Hello(m)];
  }

  /** Sending a message, its timer running out, sending it again, receiving the ack of that, and then the failure of
      the first send: the acknowledged message ends up failed although no timer runs. */
  lemma LateFailureUndoesDelivered(m: MsgId, serverId: MsgId)
    requires m != ""
    ensures var sent := SendMessage(State([], {}, map[], map[], 0, []), "s", "hi", "me", m, DIRECT);
            0 in sent.armed &&
            var acked := OnAckReceived(ResendMessage(OnTimeout(sent, 0), "s", m, DIRECT, "me"), m, serverId);
            && |acked.messages| == 1 && acked.messages[0].status == Delivered && acked.armed == map[]
            && OnAckFailed(acked, m, 500).messages[0].status == Failed
  {
    HelloSent(m);
    hide SendMessage;
    var sent := SendMessage(State([], {}, map[], map[], 0, []), "s", "hi", "me", m, DIRECT);
    assert OnTimeout(sent, 0).messages == [Hello(m).(status := Failed)];
    HelloResent(m, OnTimeout(sent, 0));
    hide ResendMessage;
  }

  /** Sending a message, coming back to its session, receiving the ack, and the first timer running out: the
      acknowledged message ends up failed. */
  lemma ReturnToSessionFailsDelivered(m: MsgId, serverId: MsgId)
    ensures var sent := SendMessage(State([], {}, map[], map[], 0, []), "s", "hi", "me", m, DIRECT);
            var acked := OnAckReceived(RecoverPendingMessages(sent, "s", DIRECT, "me"), m, serverId);
            && |acked.messages| == 1 && acked.messages[0].status == Delivered
            && 0 in acked.armed && OnTimeout(acked, 0).messages[0].status == Failed
  {
    HelloSent(m);
    hide SendMessage;
    var sent := SendMessage(State([], {}, map[], map[], 0, []), "s", "hi", "me", m, DIRECT);
    HelloRecovered(m, sent);
    hide RecoverPendingMessages;
  }
}
