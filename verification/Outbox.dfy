/** The client's outbox: message status, the durable pending_acks table and the armed ack timers. */
module Outbox {
  import opened Wire
  import opened Text

  datatype Status = Sending | Delivered | Failed

  /** A stored message; `incoming` tells the received ones apart, and no handler reads it. */
  datatype ChatMessage = ChatMessage(msgId: MsgId, sessionId: string, senderId: UserId, content: string,
                                     status: Status, serverId: MsgId, incoming: bool)

  /** What the session and group tables say about a session. */
  datatype SessionInfo = SessionInfo(known: bool, groupSession: bool, groupStored: bool, peerUserId: UserId)

  datatype SendText = SendText(msgId: MsgId, senderId: UserId, sessionId: string, content: string,
                               sessionType: string, recipientUserId: UserId)

  /** `timers` is the table of pending contexts, `armed` every running single-shot timer with the msgId that its
      timeout handler was given. `messages` lists the stored messages in the order of their timestamps. */
  datatype State = State(messages: seq<ChatMessage>, pendingAcks: set<MsgId>, timers: map<MsgId, nat>,
                         armed: map<nat, MsgId>, nextTimer: nat, sends: seq<SendText>)

  const RESEND_SEARCH_LIMIT := 1000

  predicate IsGroup(info: SessionInfo) {
    (info.known && info.groupSession) || info.groupStored
  }

  function Peer(info: SessionInfo): UserId {
    if info.known then info.peerUserId else ""
  }

  /** The reasons for which a message cannot even be sent. */
  predicate NoRoute(info: SessionInfo, self: UserId) {
    if IsGroup(info) then !info.groupStored else Peer(info) == "" || Peer(info) == self
  }

  // ---------------------------------------------------------------- tables and timers

  function UpdateStatus(messages: seq<ChatMessage>, msgId: MsgId, status: Status, serverId: MsgId): (updated: seq<ChatMessage>)
    ensures |updated| == |messages|
    ensures forall i :: 0 <= i < |messages| ==> updated[i] == Updated(messages[i], msgId, status, serverId)
  {
    seq(|messages|, i requires 0 <= i < |messages| => Updated(messages[i], msgId, status, serverId))
  }

  function Updated(m: ChatMessage, msgId: MsgId, status: Status, serverId: MsgId): ChatMessage {
    if m.msgId != msgId then m
    else if serverId == "" then m.(status := status)
    else m.(status := status, serverId := serverId)
  }

  function StartAckTimer(o: State, msgId: MsgId): State {
    o.(timers := o.timers[msgId := o.nextTimer], armed := o.armed[o.nextTimer := msgId], nextTimer := o.nextTimer + 1)
  }

  /** Stops and forgets the timer that the table holds for the message, if any. */
  function StopAckTimer(o: State, msgId: MsgId): State {
    if msgId !in o.timers then o
    else o.(armed := o.armed - {o.timers[msgId]}, timers := o.timers - {msgId})
  }

  function FailMessage(o: State, msgId: MsgId): State {
    var p := StopAckTimer(o, msgId);
    p.(messages := UpdateStatus(p.messages, msgId, Failed, ""), pendingAcks := p.pendingAcks - {msgId})
  }

  /** Hands a message that has a running timer to the network, or fails it when there is no route. */
  function Dispatch(o: State, m: ChatMessage, info: SessionInfo, self: UserId): State {
    if NoRoute(info, self) then FailMessage(o, m.msgId)
    else
      o.(sends := o.sends + [SendText(m.msgId, m.senderId, m.sessionId, m.content,
                                      if IsGroup(info) then "group" else "private",
                                      if IsGroup(info) then "" else Peer(info))])
  }

  // ---------------------------------------------------------------- handlers

  function SendMessage(o: State, sessionId: string, content: string, from: UserId, msgId: MsgId, info: SessionInfo): State {
    var trimmed := Trim(content);
    if trimmed == "" || sessionId == "" || (IsGroup(info) && !info.groupStored) then o
    else
      var m := ChatMessage(msgId, sessionId, from, trimmed, Sending, "", false);
      var stored := o.(messages := o.messages + [m], pendingAcks := o.pendingAcks + {msgId});
      Dispatch(StartAckTimer(stored, msgId), m, info, from)
  }

  /** The oldest messages of a session, at most `limit` of them. */
  function FetchForSession(messages: seq<ChatMessage>, sessionId: string, limit: nat): (found: seq<ChatMessage>)
    ensures |found| <= limit
    ensures forall m :: m in found ==> m in messages && m.sessionId == sessionId
  {
    if messages == [] then []
    else
      var front := FetchForSession(messages[..|messages| - 1], sessionId, limit);
      var last := messages[|messages| - 1];
      if last.sessionId == sessionId && |front| < limit then front + [last] else front
  }

  function FindMessage(messages: seq<ChatMessage>, msgId: MsgId): (found: Option<ChatMessage>)
    ensures found.Some? ==> found.value in messages && found.value.msgId == msgId
    ensures found.None? ==> forall m :: m in messages ==> m.msgId != msgId
  {
    if messages == [] then None
    else if messages[0].msgId == msgId then Some(messages[0])
    else FindMessage(messages[1..], msgId)
  }

  function ResendMessage(o: State, sessionId: string, msgId: MsgId, info: SessionInfo, self: UserId): State {
    if msgId == "" || sessionId == "" then o
    else
      match FindMessage(FetchForSession(o.messages, sessionId, RESEND_SEARCH_LIMIT), msgId)
      case None => o
      case Some(m) =>
        if m.content == "" then o
        else
          var p := o.(messages := UpdateStatus(o.messages, msgId, Sending, ""), pendingAcks := o.pendingAcks + {msgId});
          Dispatch(StartAckTimer(p, msgId), m, info, self)
  }

  /** The messages with a pending_acks row, by timestamp. */
  function FetchPending(messages: seq<ChatMessage>, pendingAcks: set<MsgId>): (found: seq<ChatMessage>)
    ensures forall m :: m in found <==> m in messages && m.msgId in pendingAcks
  {
    if messages == [] then []
    else
      var front := FetchPending(messages[..|messages| - 1], pendingAcks);
      var last := messages[|messages| - 1];
      assert messages == messages[..|messages| - 1] + [last];
      if last.msgId in pendingAcks then front + [last] else front
  }

  function RecoverOne(o: State, m: ChatMessage, sessionId: string, info: SessionInfo, self: UserId): State {
    if m.sessionId != sessionId then o
    else Dispatch(StartAckTimer(o, m.msgId), m, info, self)
  }

  function RecoverAll(o: State, pending: seq<ChatMessage>, sessionId: string, info: SessionInfo, self: UserId): State {
    if pending == [] then o
    else RecoverOne(RecoverAll(o, pending[..|pending| - 1], sessionId, info, self), pending[|pending| - 1], sessionId, info, self)
  }

  function RecoverPendingMessages(o: State, sessionId: string, info: SessionInfo, self: UserId): State {
    RecoverAll(o, FetchPending(o.messages, o.pendingAcks), sessionId, info, self)
  }

  function OnAckReceived(o: State, msgId: MsgId, serverId: MsgId): State {
    if msgId !in o.timers then o
    else
      var p := StopAckTimer(o, msgId);
      p.(messages := UpdateStatus(p.messages, msgId, Delivered, serverId), pendingAcks := p.pendingAcks - {msgId})
  }

  function OnAckFailed(o: State, msgId: MsgId, code: int): State {
    var p := StopAckTimer(o, msgId);
    p.(messages := UpdateStatus(p.messages, msgId, Failed, ""),
       pendingAcks := if 0 < code < 500 then p.pendingAcks - {msgId} else p.pendingAcks)
  }

  /** A timer fires once; its handler forgets whatever timer the table holds for the message by now. */
  function OnTimeout(o: State, timer: nat): State
    requires timer in o.armed
  {
    var msgId := o.armed[timer];
    o.(armed := o.armed - {timer}, timers := o.timers - {msgId}, messages := UpdateStatus(o.messages, msgId, Failed, ""))
  }

  /** A message arrives: its timestamp is the server's, so its place among the others can be any. */
  function Receive(o: State, place: nat, m: ChatMessage): State
    requires place <= |o.messages|
  {
    o.(messages := o.messages[..place] + [m] + o.messages[place..])
  }

  // ---------------------------------------------------------------- runs

  datatype Event =
    | Received(place: nat, m: ChatMessage)
    | Send(sessionId: string, content: string, from: UserId, msgId: MsgId, info: SessionInfo)
    | Resend(sessionId: string, msgId: MsgId, info: SessionInfo, self: UserId)
    | Recover(sessionId: string, info: SessionInfo, self: UserId)
    | AckReceived(msgId: MsgId, serverId: MsgId)
    | AckFailed(msgId: MsgId, code: int)
    | TimerFires(timer: nat)

  ghost predicate IsStored(messages: seq<ChatMessage>, msgId: MsgId) {
    exists m :: m in messages && m.msgId == msgId
  }

  /** Generated msgIds are new; only an armed timer fires. */
  ghost predicate Possible(o: State, e: Event) {
    match e
    case Send(_, _, _, msgId, _) => !IsStored(o.messages, msgId) && msgId !in o.pendingAcks
    case TimerFires(timer) => timer in o.armed
    case Received(place, m) =>
      place <= |o.messages| && m.incoming && m.status == Delivered && !IsStored(o.messages, m.msgId) && m.msgId !in o.pendingAcks
    case _ => true
  }

  function Act(o: State, e: Event): State
    requires e.TimerFires? ==> e.timer in o.armed
    requires e.Received? ==> e.place <= |o.messages|
  {
    match e
    case Received(place, m) => Receive(o, place, m)
    case Send(sessionId, content, from, msgId, info) => SendMessage(o, sessionId, content, from, msgId, info)
    case Resend(sessionId, msgId, info, self) => ResendMessage(o, sessionId, msgId, info, self)
    case Recover(sessionId, info, self) => RecoverPendingMessages(o, sessionId, info, self)
    case AckReceived(msgId, serverId) => OnAckReceived(o, msgId, serverId)
    case AckFailed(msgId, code) => OnAckFailed(o, msgId, code)
    case TimerFires(timer) => OnTimeout(o, timer)
  }

  ghost function Runs(o: State, events: seq<Event>): State {
    if events == [] then o
    else
      var before := Runs(o, events[..|events| - 1]);
      var e := events[|events| - 1];
      if Possible(before, e) then Act(before, e) else before
  }

  // ---------------------------------------------------------------- the invariant

  /** The message has a pending_acks row and a running timer of its own. */
  predicate Watched(o: State, msgId: MsgId) {
    && msgId in o.pendingAcks && msgId in o.timers
    && o.timers[msgId] in o.armed && o.armed[o.timers[msgId]] == msgId
  }

  ghost predicate TimersOk(o: State) {
    && (forall id :: id in o.timers ==> Watched(o, id))
    && (forall t :: t in o.armed ==> t < o.nextTimer)
  }

  ghost predicate OutboxInv(o: State) {
    && TimersOk(o)
    && (forall m :: m in o.messages && m.status == Sending ==> Watched(o, m.msgId))
  }

  lemma UpdatedStatuses(messages: seq<ChatMessage>, msgId: MsgId, status: Status, serverId: MsgId)
    ensures forall m :: m in UpdateStatus(messages, msgId, status, serverId) && m.status == Sending ==>
              (m.msgId == msgId && status == Sending) || (m.msgId != msgId && m in messages)
  {
  }

  lemma StartOk(o: State, msgId: MsgId)
    requires TimersOk(o) && msgId in o.pendingAcks
    ensures TimersOk(StartAckTimer(o, msgId)) && Watched(StartAckTimer(o, msgId), msgId)
    ensures forall id :: Watched(o, id) ==> Watched(StartAckTimer(o, msgId), id)
  {
  }

  lemma DispatchOk(o: State, m: ChatMessage, info: SessionInfo, self: UserId)
    requires OutboxInv(o)
    ensures OutboxInv(Dispatch(o, m, info, self))
  {
  }

  lemma SendOk(o: State, sessionId: string, content: string, from: UserId, msgId: MsgId, info: SessionInfo)
    requires OutboxInv(o)
    ensures OutboxInv(SendMessage(o, sessionId, content, from, msgId, info))
  {
    hide Trim;
    var trimmed := Trim(content);
    if !(trimmed == "" || sessionId == "" || (IsGroup(info) && !info.groupStored)) {
      var m := ChatMessage(msgId, sessionId, from, trimmed, Sending, "", false);
      var stored := o.(messages := o.messages + [m], pendingAcks := o.pendingAcks + {msgId});
      assert forall id :: Watched(o, id) ==> Watched(stored, id);
      StartOk(stored, msgId);
      DispatchOk(StartAckTimer(stored, msgId), m, info, from);
    }
  }

  lemma ReceiveOk(o: State, place: nat, m: ChatMessage)
    requires OutboxInv(o) && place <= |o.messages| && m.status != Sending
    ensures OutboxInv(Receive(o, place, m))
  {
    forall x | x in Receive(o, place, m).messages && x.status == Sending ensures Watched(o, x.msgId) {
      assert x in o.messages;
    }
  }

  lemma ResendOk(o: State, sessionId: string, msgId: MsgId, info: SessionInfo, self: UserId)
    requires OutboxInv(o)
    ensures OutboxInv(ResendMessage(o, sessionId, msgId, info, self))
  {
    hide FetchForSession, FindMessage;
    var p := o.(messages := UpdateStatus(o.messages, msgId, Sending, ""), pendingAcks := o.pendingAcks + {msgId});
    assert forall id :: Watched(o, id) ==> Watched(p, id);
    UpdatedStatuses(o.messages, msgId, Sending, "");
    StartOk(p, msgId);
    match FindMessage(FetchForSession(o.messages, sessionId, RESEND_SEARCH_LIMIT), msgId)
    case None =>
    case Some(m) => DispatchOk(StartAckTimer(p, msgId), m, info, self);
  }

  lemma RecoverOneOk(o: State, m: ChatMessage, sessionId: string, info: SessionInfo, self: UserId)
    requires OutboxInv(o) && m.msgId in o.pendingAcks
    ensures OutboxInv(RecoverOne(o, m, sessionId, info, self))
    ensures forall id :: id in o.pendingAcks && id != m.msgId ==> id in RecoverOne(o, m, sessionId, info, self).pendingAcks
  {
  }

  ghost predicate DistinctIds(messages: seq<ChatMessage>) {
    forall i, j :: 0 <= i < j < |messages| ==> messages[i].msgId != messages[j].msgId
  }

  /** The msgId is the primary key of the table, so the recovery loop meets each message once. */
  lemma {:induction false} PendingDistinct(messages: seq<ChatMessage>, pendingAcks: set<MsgId>)
    requires DistinctIds(messages)
    ensures DistinctIds(FetchPending(messages, pendingAcks))
  {
    if messages != [] {
      var n := |messages| - 1;
      PendingDistinct(messages[..n], pendingAcks);
      var front := FetchPending(messages[..n], pendingAcks);
      forall i | 0 <= i < |front| ensures front[i].msgId != messages[n].msgId {
        assert front[i] in front;
        assert front[i] in messages[..n];
      }
    }
  }

  lemma {:induction false} RecoverAllOk(o: State, pending: seq<ChatMessage>, sessionId: string, info: SessionInfo, self: UserId)
    requires OutboxInv(o) && DistinctIds(pending) && forall m :: m in pending ==> m.msgId in o.pendingAcks
    ensures var p := RecoverAll(o, pending, sessionId, info, self);
            && OutboxInv(p)
            && forall id :: id in o.pendingAcks && (forall m :: m in pending ==> m.msgId != id) ==> id in p.pendingAcks
  {
    if pending != [] {
      var n := |pending| - 1;
      assert pending == pending[..n] + [pending[n]];
      RecoverAllOk(o, pending[..n], sessionId, info, self);
      assert forall m :: m in pending[..n] ==> m.msgId != pending[n].msgId;
      RecoverOneOk(RecoverAll(o, pending[..n], sessionId, info, self), pending[n], sessionId, info, self);
    }
  }

  lemma AckOk(o: State, msgId: MsgId, serverId: MsgId)
    requires OutboxInv(o)
    ensures OutboxInv(OnAckReceived(o, msgId, serverId))
  {
  }

  lemma AckFailedOk(o: State, msgId: MsgId, code: int)
    requires OutboxInv(o)
    ensures OutboxInv(OnAckFailed(o, msgId, code))
  {
  }

  /** Also when the timer that fires was replaced long ago. */
  lemma TimeoutOk(o: State, timer: nat)
    requires OutboxInv(o) && timer in o.armed
    ensures OutboxInv(OnTimeout(o, timer))
  {
  }

  ghost predicate ClientInv(o: State) {
    OutboxInv(o) && DistinctIds(o.messages)
  }

  lemma UpdateKeepsIds(messages: seq<ChatMessage>, msgId: MsgId, status: Status, serverId: MsgId)
    requires DistinctIds(messages)
    ensures DistinctIds(UpdateStatus(messages, msgId, status, serverId))
  {
  }

  lemma DispatchKeepsIds(o: State, m: ChatMessage, info: SessionInfo, self: UserId)
    requires DistinctIds(o.messages)
    ensures DistinctIds(Dispatch(o, m, info, self).messages)
  {
    UpdateKeepsIds(o.messages, m.msgId, Failed, "");
  }

  lemma ResendKeepsIds(o: State, sessionId: string, msgId: MsgId, info: SessionInfo, self: UserId)
    requires DistinctIds(o.messages)
    ensures DistinctIds(ResendMessage(o, sessionId, msgId, info, self).messages)
  {
    hide FetchForSession, FindMessage, Dispatch, UpdateStatus, DistinctIds;
    UpdateKeepsIds(o.messages, msgId, Sending, "");
    var p := o.(messages := UpdateStatus(o.messages, msgId, Sending, ""), pendingAcks := o.pendingAcks + {msgId});
    match FindMessage(FetchForSession(o.messages, sessionId, RESEND_SEARCH_LIMIT), msgId)
    case None =>
    case Some(m) => DispatchKeepsIds(StartAckTimer(p, msgId), m, info, self);
  }

  lemma SendKeepsIds(o: State, sessionId: string, content: string, from: UserId, msgId: MsgId, info: SessionInfo)
    requires DistinctIds(o.messages) && !IsStored(o.messages, msgId)
    ensures DistinctIds(SendMessage(o, sessionId, content, from, msgId, info).messages)
  {
    hide Trim, Dispatch;
    forall i | 0 <= i < |o.messages| ensures o.messages[i].msgId != msgId { assert o.messages[i] in o.messages; }
    var m := ChatMessage(msgId, sessionId, from, Trim(content), Sending, "", false);
    var stored := o.(messages := o.messages + [m], pendingAcks := o.pendingAcks + {msgId});
    DispatchKeepsIds(StartAckTimer(stored, msgId), m, info, from);
  }

  lemma ReceiveKeepsIds(o: State, place: nat, m: ChatMessage)
    requires DistinctIds(o.messages) && !IsStored(o.messages, m.msgId) && place <= |o.messages|
    ensures DistinctIds(Receive(o, place, m).messages)
  {
    forall i | 0 <= i < |o.messages| ensures o.messages[i].msgId != m.msgId { assert o.messages[i] in o.messages; }
  }

  lemma IdsKept(o: State, e: Event)
    requires Possible(o, e) && DistinctIds(o.messages)
    ensures DistinctIds(Act(o, e).messages)
  {
    hide DistinctIds, UpdateStatus, SendMessage, ResendMessage, RecoverAll, Receive;
    match e
    case Received(place, m) => ReceiveKeepsIds(o, place, m);
    case Send(sessionId, content, from, msgId, info) => SendKeepsIds(o, sessionId, content, from, msgId, info);
    case Resend(sessionId, msgId, info, self) => ResendKeepsIds(o, sessionId, msgId, info, self);
    case Recover(sessionId, info, self) =>
      RecoverKeepsIds(o, FetchPending(o.messages, o.pendingAcks), sessionId, info, self);
    case AckReceived(msgId, serverId) => UpdateKeepsIds(o.messages, msgId, Delivered, serverId);
    case AckFailed(msgId, _) => UpdateKeepsIds(o.messages, msgId, Failed, "");
    case TimerFires(timer) => UpdateKeepsIds(o.messages, o.armed[timer], Failed, "");
  }

  lemma {:induction false} RecoverKeepsIds(o: State, pending: seq<ChatMessage>, sessionId: string, info: SessionInfo, self: UserId)
    requires DistinctIds(o.messages)
    ensures DistinctIds(RecoverAll(o, pending, sessionId, info, self).messages)
  {
    if pending != [] {
      RecoverKeepsIds(o, pending[..|pending| - 1], sessionId, info, self);
    }
  }

  lemma ClientInvAct(o: State, e: Event)
    requires ClientInv(o) && Possible(o, e)
    ensures ClientInv(Act(o, e))
  {
    hide OutboxInv, DistinctIds, SendMessage, ResendMessage, RecoverAll, OnAckReceived, OnAckFailed, OnTimeout;
    IdsKept(o, e);
    match e
    case Received(place, m) => ReceiveOk(o, place, m);
    case Send(sessionId, content, from, msgId, info) => SendOk(o, sessionId, content, from, msgId, info);
    case Resend(sessionId, msgId, info, self) => ResendOk(o, sessionId, msgId, info, self);
    case Recover(sessionId, info, self) =>
      PendingDistinct(o.messages, o.pendingAcks);
      RecoverAllOk(o, FetchPending(o.messages, o.pendingAcks), sessionId, info, self);
    case AckReceived(msgId, serverId) => AckOk(o, msgId, serverId);
    case AckFailed(msgId, code) => AckFailedOk(o, msgId, code);
    case TimerFires(timer) => TimeoutOk(o, timer);
  }

  /** Throughout every run that starts with no message in flight and no timer: a message shown as sending has a
      pending_acks row and a running timer, and no timer is kept without a row. */
  lemma {:induction false} SendingIsWatched(o: State, events: seq<Event>)
    requires o.timers == map[] && o.armed == map[] && DistinctIds(o.messages)
    requires forall m :: m in o.messages ==> m.status != Sending
    ensures var p := Runs(o, events);
            && (forall m :: m in p.messages && m.status == Sending ==> Watched(p, m.msgId))
            && p.timers.Keys <= p.pendingAcks
            && ClientInv(p)
  {
    if events != [] {
      var front := events[..|events| - 1];
      SendingIsWatched(o, front);
      if Possible(Runs(o, front), events[|events| - 1]) {
        ClientInvAct(Runs(o, front), events[|events| - 1]);
      }
    }
  }

  // ---------------------------------------------------------------- leaving pending_acks

  ghost predicate IsOfSession(o: State, id: MsgId, sessionId: string) {
    exists m :: m in o.messages && m.msgId == id && m.sessionId == sessionId
  }

  /** The events that settle a message for good. */
  ghost predicate Settles(o: State, e: Event, id: MsgId) {
    match e
    case Received(_, _) => false
    case AckReceived(msgId, _) => msgId == id && id in o.timers
    case AckFailed(msgId, code) => msgId == id && 0 < code < 500
    case Send(_, _, from, msgId, info) => msgId == id && NoRoute(info, from)
    case Resend(_, msgId, info, self) => msgId == id && NoRoute(info, self)
    case Recover(sessionId, info, self) => NoRoute(info, self) && IsOfSession(o, id, sessionId)
    case TimerFires(_) => false
  }

  lemma LeavesOnlyWhenSettled(o: State, e: Event, id: MsgId)
    requires Possible(o, e) && id in o.pendingAcks && id !in Act(o, e).pendingAcks
    ensures Settles(o, e, id)
  {
    hide Trim, FetchForSession, UpdateStatus;
    if e.Recover? {
      var pending := FetchPending(o.messages, o.pendingAcks);
      if NoRoute(e.info, e.self) {
        var m := RecoveryDropsOwn(o, pending, e.sessionId, e.info, e.self, id);
      } else {
        RecoveryKeepsPending(o, pending, e.sessionId, e.info, e.self);
      }
    }
  }

  lemma {:induction false} RecoveryKeepsPending(o: State, pending: seq<ChatMessage>, sessionId: string, info: SessionInfo, self: UserId)
    requires !NoRoute(info, self)
    ensures RecoverAll(o, pending, sessionId, info, self).pendingAcks == o.pendingAcks
  {
    if pending != [] {
      RecoveryKeepsPending(o, pending[..|pending| - 1], sessionId, info, self);
    }
  }

  /** Recovery gives up only messages of the session that is entered. */
  lemma {:induction false} RecoveryDropsOwn(o: State, pending: seq<ChatMessage>, sessionId: string, info: SessionInfo, self: UserId, id: MsgId)
      returns (m: ChatMessage)
    requires id in o.pendingAcks && id !in RecoverAll(o, pending, sessionId, info, self).pendingAcks
    ensures m in pending && m.msgId == id && m.sessionId == sessionId
  {
    var n := |pending| - 1;
    if id in RecoverAll(o, pending[..n], sessionId, info, self).pendingAcks {
      m := pending[n];
    } else {
      m := RecoveryDropsOwn(o, pending[..n], sessionId, info, self, id);
    }
  }
}
