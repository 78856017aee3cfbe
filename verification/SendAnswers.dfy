/** How each send is answered, and why. */
module SendAnswers {
  import opened Packets
  import opened Wire
  import opened Text
  import opened IdempotencyWindow
  import opened MessageDelivery
  import opened ServerProtocol
  import opened GroupSends
  import opened RequestOrigins
  import opened Idempotency
  import Offline = OfflineProtocol
  import OfflineModel

  // ---------------------------------------------------------------- one send

  function Refusal(p: SendParams, code: int, message: string): Ack {
    Ack(p.senderSession, p.msgId, code, message, "", p.senderUserId, None)
  }

  /** Nothing was stored, sent, asked or remembered. */
  predicate NoEffect(s: Server, t: Server) {
    && t.off == s.off && t.log == s.log && t.svc.inFlight == s.svc.inFlight && t.svc.pendingGroup == s.svc.pendingGroup
    && t.notifications == s.notifications
  }

  /** The send was accepted at once: stored, sent on to its recipient, remembered, and answered with its server id. */
  ghost predicate AcceptedNow(s: Server, t: Server, p: SendParams, clock: Clock, serverId: MsgId) {
    && t.svc.acks == s.svc.acks + [Ack(p.senderSession, p.msgId, 200, "", serverId, p.senderUserId, None)]
    && |t.log| == |s.log| + 1 && s.log == t.log[..|s.log|]
    && var x := t.log[|s.log|];
    && Accepts(t.off, p, x) && x.accepted.value.store.timestamp == clock.timestamp && Happened(t.off, x)
    && x.entry == Entry(200, "", serverId, clock.t1)
  }

  /** The members of the group are asked for, and the send is answered later. */
  predicate AsksMembers(s: Server, t: Server, p: SendParams, clock: Clock, serverId: MsgId, token: Token) {
    && t.svc.acks == s.svc.acks && t.log == s.log
    && t.off.main == s.off.main.(posted := s.off.main.posted + [LoadGroupMembers(p.sessionId, token)])
    && t.svc.inFlight == s.svc.inFlight + {RequestKeyFor(p.senderUserId, p.msgId)}
    && t.svc.pendingGroup.Keys == s.svc.pendingGroup.Keys + {token} && OfRequest(t.svc.pendingGroup[token], p)
    && t.svc.pendingGroup[token].serverId == serverId && t.svc.pendingGroup[token].receiveMsg.timestampUtc == clock.timestamp
  }

  /** What becomes of a send whose key is not cached. */
  ghost predicate Decided(s: Server, t: Server, p: SendParams, clock: Clock, serverId: MsgId, token: Token) {
    if Utf16Size(p.content) > 4096 then
      t.svc.acks == s.svc.acks + [Refusal(p, 413, "Message too large")] && NoEffect(s, t)
    else if p.sessionType == "private" then
      if p.sessionId != p.expectedSessionId then
        t.svc.acks == s.svc.acks + [Refusal(p, 400, "sessionId hash mismatch")] && NoEffect(s, t)
      else AcceptedNow(s, t, p, clock, serverId)
    else if RequestKeyFor(p.senderUserId, p.msgId) in s.svc.inFlight then
      t.svc.acks == s.svc.acks && NoEffect(s, t)
    else AsksMembers(s, t, p, clock, serverId, token)
  }

  lemma SendAccepted(s: Server, p: SendParams, clock: Clock, serverId: MsgId, token: Token)
    requires Possible(s, Send(p, clock, serverId, token)) && Sendable(p) && p.sessionType == "private"
    requires RequestKeyFor(p.senderUserId, p.msgId) !in Prune(s.svc.window, clock.t0).cache
    ensures AcceptedNow(s, Act(s, Send(p, clock, serverId, token)), p, clock, serverId)
  {
    CharacterLimitDecides(p.content);
    hide Happened, Accepts, Offline.Run, Prune, TooLarge, Utf16Size;
    var o := ProcessSendMessage(s.svc, p, clock, serverId, token);
    SentAccepts(Offline.Run(s.off, o.effects), s.svc, p, clock, serverId, token);
    AcceptanceHappens(s.off, o.effects, o.inserted.value);
  }

  lemma AsksOutcome(v: Service, p: SendParams, clock: Clock, serverId: MsgId, token: Token)
    requires Sendable(p) && p.sessionType != "private"
    requires RequestKeyFor(p.senderUserId, p.msgId) !in Prune(v.window, clock.t0).cache.Keys + v.inFlight
    ensures var o := ProcessSendMessage(v, p, clock, serverId, token);
            && o.effects == [Offline.Signal(LoadGroupMembers(p.sessionId, token))] && o.inserted.None? && o.service.acks == v.acks
            && o.service.inFlight == v.inFlight + {RequestKeyFor(p.senderUserId, p.msgId)}
            && o.service.pendingGroup.Keys == v.pendingGroup.Keys + {token} && OfRequest(o.service.pendingGroup[token], p)
            && o.service.pendingGroup[token].serverId == serverId && o.service.pendingGroup[token].receiveMsg.timestampUtc == clock.timestamp
  {
    CharacterLimitDecides(p.content);
    hide Prune, TooLarge, Utf16Size, RequestKeyFor;
  }

  lemma SendAsks(s: Server, p: SendParams, clock: Clock, serverId: MsgId, token: Token)
    requires Possible(s, Send(p, clock, serverId, token)) && Sendable(p) && p.sessionType != "private"
    requires RequestKeyFor(p.senderUserId, p.msgId) !in Prune(s.svc.window, clock.t0).cache.Keys + s.svc.inFlight
    ensures AsksMembers(s, Act(s, Send(p, clock, serverId, token)), p, clock, serverId, token)
  {
    AsksOutcome(s.svc, p, clock, serverId, token);
    hide Offline.Run, Prune, ProcessSendMessage, OfRequest, RequestKeyFor;
    SingleEffect(s.off, LoadGroupMembers(p.sessionId, token));
  }

  lemma SendRefused(s: Server, p: SendParams, clock: Clock, serverId: MsgId, token: Token)
    requires Possible(s, Send(p, clock, serverId, token))
    requires RequestKeyFor(p.senderUserId, p.msgId) !in Prune(s.svc.window, clock.t0).cache
    requires Sendable(p) ==> p.sessionType != "private" && RequestKeyFor(p.senderUserId, p.msgId) in s.svc.inFlight
    ensures Decided(s, Act(s, Send(p, clock, serverId, token)), p, clock, serverId, token)
  {
    CharacterLimitDecides(p.content);
    hide Offline.Run, Prune, TooLarge, Utf16Size, AcceptedNow, AsksMembers;
    NothingRun(s.off);
  }

  lemma SendDecided(s: Server, p: SendParams, clock: Clock, serverId: MsgId, token: Token)
    requires Possible(s, Send(p, clock, serverId, token))
    requires RequestKeyFor(p.senderUserId, p.msgId) !in Prune(s.svc.window, clock.t0).cache
    ensures Decided(s, Act(s, Send(p, clock, serverId, token)), p, clock, serverId, token)
  {
    hide Act, Possible, Prune, Utf16Size, AcceptedNow, AsksMembers, NoEffect, RequestKeyFor;
    if !Sendable(p) || (p.sessionType != "private" && RequestKeyFor(p.senderUserId, p.msgId) in s.svc.inFlight) {
      SendRefused(s, p, clock, serverId, token);
    } else if p.sessionType == "private" {
      SendAccepted(s, p, clock, serverId, token);
    } else {
      SendAsks(s, p, clock, serverId, token);
    }
  }

  lemma NothingRun(off: Offline.State)
    ensures Offline.Run(off, []) == off
  {
  }

  /** In every run an uncached send is accepted or has its group's members asked for exactly when its text has at most
      4096 units, a private session id is that of the two users, and a group send is not in flight already. */
  lemma TakenIff(events: seq<ServerEvent>, p: SendParams, clock: Clock, serverId: MsgId, token: Token)
    requires var s := Runs(Start(), events);
             Possible(s, Send(p, clock, serverId, token)) && RequestKeyFor(p.senderUserId, p.msgId) !in Prune(s.svc.window, clock.t0).cache
    ensures var s := Runs(Start(), events);
            var t := Act(s, Send(p, clock, serverId, token));
            && Decided(s, t, p, clock, serverId, token)
            && (AcceptedNow(s, t, p, clock, serverId) || AsksMembers(s, t, p, clock, serverId, token) <==>
                  && Utf16Size(p.content) <= 4096
                  && (if p.sessionType == "private" then p.sessionId == p.expectedSessionId
                      else RequestKeyFor(p.senderUserId, p.msgId) !in s.svc.inFlight))
  {
    hide Runs, Act, Possible, Prune, SoundInv, Happened, Accepts, Utf16Size, RequestKeyFor;
    RunInvEver(events);
    SendDecided(Runs(Start(), events), p, clock, serverId, token);
  }

  /** A send whose key is cached gets the cached answer again, on its own session, and has no effect. */
  lemma CachedSend(s: Server, p: SendParams, clock: Clock, serverId: MsgId, token: Token)
    requires Possible(s, Send(p, clock, serverId, token))
    requires RequestKeyFor(p.senderUserId, p.msgId) in Prune(s.svc.window, clock.t0).cache
    ensures var t := Act(s, Send(p, clock, serverId, token));
            var e := Prune(s.svc.window, clock.t0).cache[RequestKeyFor(p.senderUserId, p.msgId)];
            t.svc.acks == s.svc.acks + [Ack(p.senderSession, p.msgId, e.code, e.message, e.serverId, p.senderUserId, None)] && NoEffect(s, t)
  {
    hide Prune, TooLarge, Offline.Run;
    NothingRun(s.off);
  }

  // ---------------------------------------------------------------- every answer of a run

  ghost predicate Remembered(log: seq<Insertion>, q: SendParams, a: Ack) {
    exists i :: 0 <= i < |log| && log[i].key == RequestKeyFor(q.senderUserId, q.msgId)
                && log[i].entry.code == a.code && log[i].entry.message == a.message && log[i].entry.serverId == a.serverId
  }

  /** An answer given at once: a refusal of this request, or what is remembered under its key. */
  ghost predicate AtOnce(log: seq<Insertion>, q: SendParams, a: Ack) {
    || (a.code == 413 && a.serverId == "" && Utf16Size(q.content) > 4096)
    || (a.code == 400 && a.serverId == "" && q.sessionType == "private" && q.sessionId != q.expectedSessionId)
    || Remembered(log, q, a)
  }

  /** The answer that a member list of the request's group gives. */
  predicate ByList(r: MembersResult, q: SendParams, a: Ack) {
    && Some(r.token) == a.token && r.groupId == q.sessionId && q.sessionType != "private"
    && if !r.success then a.code == r.errorCode && a.message == r.errorMessage && a.serverId == ""
       else if q.senderUserId in r.members then a.code == 200 && a.serverId != ""
       else a.code == 403 && a.serverId == ""
  }

  ghost predicate ByHandledList(off: Offline.State, q: SendParams, a: Ack) {
    exists j :: 0 <= j < off.handled && j < |off.replies| && off.replies[j].GroupMembersLoaded? && ByList(off.replies[j].result, q, a)
  }

  ghost predicate Answers(off: Offline.State, log: seq<Insertion>, q: SendParams, a: Ack) {
    && a.session == q.senderSession && a.msgId == q.msgId && a.sender == q.senderUserId
    && if a.token.None? then AtOnce(log, q, a) else ByHandledList(off, q, a)
  }

  /** The answer goes to the session of a request that arrived, under its msgId, for a reason of that request. */
  ghost predicate Justified(s: Server, a: Ack) {
    exists q :: q in s.requests && Answers(s.off, s.log, q, a)
  }

  ghost predicate AllJustified(s: Server, acks: seq<Ack>) {
    forall i :: 0 <= i < |acks| ==> Justified(s, acks[i])
  }

  lemma StaysJustified(s: Server, t: Server, a: Ack)
    requires Justified(s, a) && Later(s.off, t.off) && s.log <= t.log && s.requests <= t.requests
    ensures Justified(t, a)
  {
    hide ByList, Utf16Size;
    var q :| q in s.requests && Answers(s.off, s.log, q, a);
    assert Answers(t.off, t.log, q, a);
  }

  lemma ServerGrows(s: Server, e: ServerEvent)
    requires Possible(s, e)
    ensures var t := Act(s, e); Later(s.off, t.off) && s.log <= t.log && s.requests <= t.requests
  {
    hide Offline.Run, TooLarge, Prune, Recipients, Encode, Decode, OfflineModel.DeliverAll, Trim;
    match e
    case Outside(_) =>
    case Send(p, clock, serverId, token) =>
      EffectsAdd(s.off, ProcessSendMessage(s.svc, p, clock, serverId, token).effects);
    case MembershipChanged(_, _, _) =>
    case HandleReply(clock) =>
      if s.off.replies[s.off.handled].GroupMembersLoaded? {
        var r := s.off.replies[s.off.handled].result;
        var mid := Offline.Step(s.off, Offline.ReplyHandled);
        EffectsAdd(mid, OnGroupMembersForNotify(s.notifications, r).1);
        EffectsAdd(mid, OnGroupMembersForMessage(s.svc, r, clock).effects);
      }
  }

  lemma OldStayJustified(s: Server, e: ServerEvent)
    requires Possible(s, e) && AllJustified(s, s.svc.acks)
    ensures AllJustified(Act(s, e), s.svc.acks)
  {
    ServerGrows(s, e);
    hide Act, Justified;
    forall i | 0 <= i < |s.svc.acks| ensures Justified(Act(s, e), s.svc.acks[i]) { StaysJustified(s, Act(s, e), s.svc.acks[i]); }
  }

  lemma JustifiedSend(s: Server, p: SendParams, clock: Clock, serverId: MsgId, token: Token)
    requires SoundInv(s) && Possible(s, Send(p, clock, serverId, token)) && AllJustified(s, s.svc.acks)
    ensures var t := Act(s, Send(p, clock, serverId, token)); AllJustified(t, t.svc.acks)
  {
    var e := Send(p, clock, serverId, token);
    var t := Act(s, e);
    OldStayJustified(s, e);
    var key := RequestKeyFor(p.senderUserId, p.msgId);
    var w := Prune(s.svc.window, clock.t0);
    assert p in t.requests by { hide ProcessSendMessage; }
    if key in w.cache {
      CachedSend(s, p, clock, serverId, token);
      PrunedInLog(s.svc.window, s.log, clock.t0);
      hide Act, Possible, Prune, SoundInv, Utf16Size;
      assert InLog(s.log, key, w.cache[key]);
      assert Remembered(t.log, p, t.svc.acks[|s.svc.acks|]);
      assert Answers(t.off, t.log, p, t.svc.acks[|s.svc.acks|]);
    } else {
      SendDecided(s, p, clock, serverId, token);
      hide Act, Possible, Prune, SoundInv, Utf16Size, Happened;
      DecidedJustified(s, t, p, clock, serverId, token);
    }
  }

  lemma DecidedJustified(s: Server, t: Server, p: SendParams, clock: Clock, serverId: MsgId, token: Token)
    requires Decided(s, t, p, clock, serverId, token) && p in t.requests && AllJustified(t, s.svc.acks)
    ensures AllJustified(t, t.svc.acks)
  {
    hide Utf16Size, Happened;
    if t.svc.acks != s.svc.acks {
      assert AcceptedNow(s, t, p, clock, serverId) ==> t.log[|s.log|].key == RequestKeyFor(p.senderUserId, p.msgId);
      hide Accepts, RequestKeyFor;
      assert Answers(t.off, t.log, p, t.svc.acks[|s.svc.acks|]);
    }
  }

  lemma ReplyAck(v: Service, r: MembersResult, clock: Clock)
    requires r.token in v.pendingGroup && PlainResult(r) && NamesItsRequest(v.pendingGroup[r.token])
    ensures var o := OnGroupMembersForMessage(v, r, clock);
            var p := v.pendingGroup[r.token];
            && |o.service.acks| == |v.acks| + 1 && o.service.acks[..|v.acks|] == v.acks
            && var a := o.service.acks[|v.acks|];
            && a.session == p.senderSession && a.msgId == p.clientMsgId && a.sender == p.senderUserId && a.token == Some(r.token)
            && if !r.success then a.code == r.errorCode && a.message == r.errorMessage && a.serverId == ""
               else if p.senderUserId in r.members then a.code == 200 && a.serverId != ""
               else a.code == 403 && a.serverId == ""
  {
    hide Prune, Recipients, Trim;
  }

  lemma ListAnswers(off: Offline.State, log: seq<Insertion>, q: SendParams, p: PendingGroupMessage, r: MembersResult, a: Ack)
    requires OfRequest(p, q) && r.groupId == p.groupId
    requires 0 < off.handled <= |off.replies| && off.replies[off.handled - 1] == GroupMembersLoaded(r)
    requires a.session == p.senderSession && a.msgId == p.clientMsgId && a.sender == p.senderUserId && a.token == Some(r.token)
    requires if !r.success then a.code == r.errorCode && a.message == r.errorMessage && a.serverId == ""
             else if p.senderUserId in r.members then a.code == 200 && a.serverId != "" else a.code == 403 && a.serverId == ""
    ensures Answers(off, log, q, a)
  {
    hide Utf16Size;
    assert ByList(off.replies[off.handled - 1].result, q, a);
  }

  lemma MessageReplyHandled(s: Server, r: MembersResult, clock: Clock)
    requires Possible(s, HandleReply(clock)) && s.off.replies[s.off.handled] == GroupMembersLoaded(r) && !StartsWith(r.token, NOTIFY_PREFIX)
    ensures var t := Act(s, HandleReply(clock));
            && t.svc == OnGroupMembersForMessage(s.svc, r, clock).service && t.requests == s.requests
            && t.off.handled == s.off.handled + 1 && t.off.replies == s.off.replies
  {
    hide Offline.Run, OnGroupMembersForMessage;
    EffectsAdd(s.off.(handled := s.off.handled + 1), OnGroupMembersForMessage(s.svc, r, clock).effects);
  }

  lemma JustifiedReply(s: Server, clock: Clock)
    requires RunInv(s) && GroupInv(s) && Possible(s, HandleReply(clock)) && AllJustified(s, s.svc.acks)
    ensures var t := Act(s, HandleReply(clock)); AllJustified(t, t.svc.acks)
  {
    hide RunInv, GroupInv, Justified, OnGroupMembersForMessage, Offline.Run;
    var t := Act(s, HandleReply(clock));
    OldStayJustified(s, HandleReply(clock));
    if s.off.replies[s.off.handled].GroupMembersLoaded? && !StartsWith(s.off.replies[s.off.handled].result.token, NOTIFY_PREFIX) {
      var r := s.off.replies[s.off.handled].result;
      ReplyReachesPending(s, r);
      PlainAndNamed(s, r);
      MessageReplyHandled(s, r, clock);
      NewAckJustified(s, t, r, clock);
    } else {
      assert t.svc.acks == s.svc.acks;
    }
  }

  lemma ReplyReachesPending(s: Server, r: MembersResult)
    requires GroupInv(s) && s.off.handled < |s.off.replies| && s.off.replies[s.off.handled] == GroupMembersLoaded(r)
    requires !StartsWith(r.token, NOTIFY_PREFIX)
    ensures r.token in s.svc.pendingGroup
  {
    ReplyReachesMessages(s, r);
  }

  lemma PlainAndNamed(s: Server, r: MembersResult)
    requires RunInv(s) && GroupInv(s) && s.off.handled < |s.off.replies| && s.off.replies[s.off.handled] == GroupMembersLoaded(r)
    requires r.token in s.svc.pendingGroup
    ensures PlainResult(r) && NamesItsRequest(s.svc.pendingGroup[r.token]) && r.groupId == s.svc.pendingGroup[r.token].groupId
    ensures PendingHasOrigin(s.requests, s.svc.pendingGroup[r.token])
  {
    hide PendingHasOrigin, TokensMatch, AnsweredOnce, WindowInv, Bounded, HasOrigin;
  }

  lemma NewAckJustified(s: Server, t: Server, r: MembersResult, clock: Clock)
    requires r.token in s.svc.pendingGroup && PlainResult(r) && NamesItsRequest(s.svc.pendingGroup[r.token])
    requires r.groupId == s.svc.pendingGroup[r.token].groupId && PendingHasOrigin(s.requests, s.svc.pendingGroup[r.token])
    requires t.svc == OnGroupMembersForMessage(s.svc, r, clock).service && t.requests == s.requests
    requires 0 < t.off.handled <= |t.off.replies| && t.off.replies[t.off.handled - 1] == GroupMembersLoaded(r)
    requires AllJustified(t, s.svc.acks)
    ensures AllJustified(t, t.svc.acks)
  {
    ReplyAck(s.svc, r, clock);
    hide OnGroupMembersForMessage, OfRequest, Answers;
    var p := s.svc.pendingGroup[r.token];
    var q :| q in s.requests && OfRequest(p, q);
    var a := t.svc.acks[|s.svc.acks|];
    ListAnswers(t.off, t.log, q, p, r, a);
    assert Justified(t, a);
    hide Justified;
    assert t.svc.acks == s.svc.acks + [a];
  }

  lemma JustifiedAct(s: Server, e: ServerEvent)
    requires RunInv(s) && GroupInv(s) && Possible(s, e) && AllJustified(s, s.svc.acks)
    ensures AllJustified(Act(s, e), Act(s, e).svc.acks)
  {
    hide GroupInv, Justified;
    match e
    case Outside(_) => OldStayJustified(s, e);
    case MembershipChanged(_, _, _) => OldStayJustified(s, e);
    case Send(p, clock, serverId, token) => JustifiedSend(s, p, clock, serverId, token);
    case HandleReply(clock) => JustifiedReply(s, clock);
  }

  /** In every run each answer goes to the session of a request that arrived, under that request's msgId: 413 only for a
      text of more than 4096 units, 400 only for a private session id that is not that of the two users, 404 and 500 only
      when the group's members could not be loaded, 403 only when the sender is not among them or that is remembered, 200
      only when the sender is, or an acceptance under the same key is remembered. */
  lemma {:induction false} AnswersJustified(events: seq<ServerEvent>)
    ensures AllJustified(Runs(Start(), events), Runs(Start(), events).svc.acks)
  {
    hide RunInv, GroupInv, Act, Possible, Justified;
    if events != [] {
      var front := events[..|events| - 1];
      AnswersJustified(front);
      RunInvEver(front);
      GroupInvEver(front);
      if Possible(Runs(Start(), front), events[|events| - 1]) { JustifiedAct(Runs(Start(), front), events[|events| - 1]); }
    }
  }
}
