/** Whose request an acceptance answers: what is stored and sent on is what the sender asked for. */
module RequestOrigins {
  import opened Packets
  import opened Wire
  import opened Text
  import opened IdempotencyWindow
  import opened MessageDelivery
  import opened ServerProtocol
  import opened GroupSends
  import Offline = OfflineProtocol
  import OfflineModel

  /** The packet tells its recipient what the request said, who said it, and in which session. */
  predicate Conveys(packet: Packet, q: SendParams, sessionType: string, serverId: MsgId, timestamp: string, groupName: string) {
    && packet.cmd == ReceiveMessage && packet.msgId == serverId && packet.timestampUtc == timestamp
    && packet.protocolVersion == "1.2" && packet.code == 0 && packet.message == ""
    && TextField(packet.payload, "sessionType", "") == sessionType
    && TextField(packet.payload, "sessionId", "") == q.sessionId
    && TextField(packet.payload, "senderUserId", "") == q.senderUserId
    && TextField(packet.payload, "senderNickname", "") == q.senderNickname
    && TextField(packet.payload, "content", "") == q.content
    && TextField(packet.payload, "groupName", "") == groupName
  }

  lemma Named(packet: Packet, q: SendParams, serverId: MsgId, timestamp: string, name: string)
    requires Conveys(packet, q, "group", serverId, timestamp, "")
    ensures Conveys(WithGroupName(packet, name), q, "group", serverId, timestamp, name)
  {
  }

  /** The member list makes the acceptance: it is of the group named in the request, the sender is in it, and
      everybody else in it is a recipient. */
  predicate ByMembers(r: MembersResult, q: SendParams, a: Acceptance) {
    && r.success && r.groupId == q.sessionId && q.senderUserId in r.members
    && a.recipients == Recipients(r.members, q.senderUserId)
    && Conveys(a.packet, q, "group", a.store.serverId, a.store.timestamp, Trim(r.groupName))
  }

  ghost predicate ByHandledReply(off: Offline.State, q: SendParams, a: Acceptance) {
    exists j :: 0 <= j < off.handled && j < |off.replies| && off.replies[j].GroupMembersLoaded? && ByMembers(off.replies[j].result, q, a)
  }

  /** What the server lets pass: at most 4096 UTF-16 units of text, and in a private session the id that belongs to
      the two users. */
  predicate Sendable(q: SendParams) {
    Utf16Size(q.content) <= 4096 && (q.sessionType == "private" ==> q.sessionId == q.expectedSessionId)
  }

  /** The insertion accepts the request, which could be sent: it stores the request's text for the request's session and sender, and its
      recipients are the request's. */
  ghost predicate Accepts(off: Offline.State, q: SendParams, x: Insertion) {
    && x.accepted.Some? && x.key == RequestKeyFor(q.senderUserId, q.msgId) && Sendable(q)
    && var a := x.accepted.value;
    && a.store == StoreRequest(q.msgId, q.sessionId, q.senderUserId, q.content, a.store.timestamp, x.entry.serverId)
    && if q.sessionType == "private" then
         a.recipients == [q.recipientUserId] && Conveys(a.packet, q, "private", x.entry.serverId, a.store.timestamp, "")
       else ByHandledReply(off, q, a)
  }

  ghost predicate HasOrigin(off: Offline.State, requests: set<SendParams>, x: Insertion) {
    exists q :: q in requests && Accepts(off, q, x)
  }

  /** The pending group send is made of the request. */
  predicate OfRequest(p: PendingGroupMessage, q: SendParams) {
    && q.sessionType != "private" && Sendable(q)
    && Conveys(p.receiveMsg, q, "group", p.serverId, p.receiveMsg.timestampUtc, "")
    && p == PendingGroupMessage(p.receiveMsg, RequestKeyFor(q.senderUserId, q.msgId), q.senderUserId, q.sessionId, p.serverId, q.msgId,
                                q.senderSession)
  }

  ghost predicate PendingHasOrigin(requests: set<SendParams>, p: PendingGroupMessage) {
    exists q :: q in requests && OfRequest(p, q)
  }

  /** Queries and results of a pending group send name its group. */
  ghost predicate GroupsNamed(off: Offline.State, pending: map<Token, PendingGroupMessage>) {
    && (forall i :: 0 <= i < |off.main.posted| && off.main.posted[i].LoadGroupMembers? && off.main.posted[i].token in pending ==>
          off.main.posted[i].groupId == pending[off.main.posted[i].token].groupId)
    && (forall j :: 0 <= j < |off.replies| && off.replies[j].GroupMembersLoaded? && off.replies[j].result.token in pending ==>
          off.replies[j].result.groupId == pending[off.replies[j].result.token].groupId)
  }

  ghost predicate OriginInv(s: Server) {
    && (forall t :: t in s.svc.pendingGroup ==> PendingHasOrigin(s.requests, s.svc.pendingGroup[t]))
    && (forall i :: 0 <= i < |s.log| && s.log[i].entry.code == 200 ==> HasOrigin(s.off, s.requests, s.log[i]))
    && GroupsNamed(s.off, s.svc.pendingGroup)
  }

  /** The offline protocol handled and loaded more. */
  ghost predicate Later(a: Offline.State, b: Offline.State) {
    a.handled <= b.handled && a.replies <= b.replies
  }

  lemma OriginStays(a: Offline.State, b: Offline.State, requests: set<SendParams>, more: set<SendParams>, x: Insertion)
    requires HasOrigin(a, requests, x) && Later(a, b) && requests <= more
    ensures HasOrigin(b, more, x)
  {
    hide ByMembers;
    var q :| q in requests && Accepts(a, q, x);
    assert Accepts(b, q, x);
  }

  lemma OriginsStay(s: Server, t: Server, log: seq<Insertion>)
    requires OriginInv(s) && Later(s.off, t.off) && s.requests <= t.requests && log == s.log
    ensures forall i :: 0 <= i < |log| && log[i].entry.code == 200 ==> HasOrigin(t.off, t.requests, log[i])
  {
    forall i | 0 <= i < |log| && log[i].entry.code == 200 ensures HasOrigin(t.off, t.requests, log[i]) {
      OriginStays(s.off, t.off, s.requests, t.requests, log[i]);
    }
  }

  lemma PendingOriginStays(requests: set<SendParams>, more: set<SendParams>, p: PendingGroupMessage)
    requires PendingHasOrigin(requests, p) && requests <= more
    ensures PendingHasOrigin(more, p)
  {
  }

  // ---------------------------------------------------------------- sends

  lemma SentAccepts(off: Offline.State, v: Service, p: SendParams, clock: Clock, serverId: MsgId, token: Token)
    ensures var o := ProcessSendMessage(v, p, clock, serverId, token);
            o.inserted.Some? ==> Accepts(off, p, o.inserted.value)
  {
    CharacterLimitDecides(p.content);
    hide Prune, TooLarge;
  }

  lemma SentPending(v: Service, p: SendParams, clock: Clock, serverId: MsgId, token: Token)
    ensures var o := ProcessSendMessage(v, p, clock, serverId, token);
            || (o.service.pendingGroup == v.pendingGroup && NoQueries(o.effects))
            || (exists x :: OfRequest(x, p) && o.service.pendingGroup == v.pendingGroup[token := x]
                            && o.effects == [Offline.Signal(LoadGroupMembers(x.groupId, token))])
  {
    CharacterLimitDecides(p.content);
    hide Prune, TooLarge, Utf16Size;
    var o := ProcessSendMessage(v, p, clock, serverId, token);
    var x := PendingGroupMessage(ReceivePacket(p, "group", serverId, clock.timestamp), RequestKeyFor(p.senderUserId, p.msgId), p.senderUserId,
                                 p.sessionId, serverId, p.msgId, p.senderSession);
    assert p.sessionType != "private" && Sendable(p) ==> OfRequest(x, p);
  }

  lemma GroupsNamedQuiet(a: Offline.State, b: Offline.State, pending: map<Token, PendingGroupMessage>, fewer: map<Token, PendingGroupMessage>)
    requires GroupsNamed(a, pending) && b.replies == a.replies && a.main.posted <= b.main.posted
    requires forall i :: |a.main.posted| <= i < |b.main.posted| ==> !b.main.posted[i].LoadGroupMembers?
    requires forall t :: t in fewer ==> t in pending && fewer[t] == pending[t]
    ensures GroupsNamed(b, fewer)
  {
  }

  /** A fresh query names the group of the request that it serves. */
  lemma GroupsNamedAsk(s: Server, b: Offline.State, token: Token, x: PendingGroupMessage)
    requires GroupsNamed(s.off, s.svc.pendingGroup) && TokensMatch(s) && !Asked(s.off.main.posted, token)
    requires b.replies == s.off.replies && b.main.posted == s.off.main.posted + [LoadGroupMembers(x.groupId, token)]
    ensures GroupsNamed(b, s.svc.pendingGroup[token := x])
  {
    forall i | 0 <= i < |s.off.main.posted| && s.off.main.posted[i].LoadGroupMembers? ensures s.off.main.posted[i].token != token {
      assert IsQuery(s.off.main.posted[i], s.off.main.posted[i].token);
    }
    forall j | 0 <= j < |s.off.replies| && s.off.replies[j].GroupMembersLoaded? ensures s.off.replies[j].result.token != token {
      assert Asked(s.off.main.posted, s.off.replies[j].result.token);
    }
  }

  lemma OriginSend(s: Server, p: SendParams, clock: Clock, serverId: MsgId, token: Token)
    requires OriginInv(s) && TokensMatch(s) && Possible(s, Send(p, clock, serverId, token))
    ensures OriginInv(Act(s, Send(p, clock, serverId, token)))
  {
    hide ProcessSendMessage, Offline.Run, PendingHasOrigin, HasOrigin, OfRequest, TokensMatch, Accepts, GroupsNamed;
    var t := Act(s, Send(p, clock, serverId, token));
    var o := ProcessSendMessage(s.svc, p, clock, serverId, token);
    EffectsAdd(s.off, o.effects);
    OriginsStay(s, t, s.log);
    SentAccepts(t.off, s.svc, p, clock, serverId, token);
    if o.inserted.Some? { OwnOrigin(t.off, t.requests, p, o.inserted.value); }
    SentPending(s.svc, p, clock, serverId, token);
    forall k | k in s.svc.pendingGroup ensures PendingHasOrigin(t.requests, s.svc.pendingGroup[k]) {
      PendingOriginStays(s.requests, t.requests, s.svc.pendingGroup[k]);
    }
    if o.service.pendingGroup == s.svc.pendingGroup && NoQueries(o.effects) {
      EffectsAskNothing(s.off, o.effects);
      GroupsNamedQuiet(s.off, t.off, s.svc.pendingGroup, s.svc.pendingGroup);
    } else {
      var x :| OfRequest(x, p) && o.service.pendingGroup == s.svc.pendingGroup[token := x]
               && o.effects == [Offline.Signal(LoadGroupMembers(x.groupId, token))];
      OwnPending(t.requests, p, x);
      SingleEffect(s.off, LoadGroupMembers(x.groupId, token));
      GroupsNamedAsk(s, t.off, token, x);
    }
  }

  lemma OwnOrigin(off: Offline.State, requests: set<SendParams>, q: SendParams, x: Insertion)
    requires q in requests && Accepts(off, q, x)
    ensures HasOrigin(off, requests, x)
  {
  }

  lemma OwnPending(requests: set<SendParams>, q: SendParams, x: PendingGroupMessage)
    requires q in requests && OfRequest(x, q)
    ensures PendingHasOrigin(requests, x)
  {
  }

  // ---------------------------------------------------------------- results of member queries

  lemma OriginOutside(s: Server, o: Offline.Event)
    requires OriginInv(s) && TokensMatch(s) && Possible(s, Outside(o))
    ensures OriginInv(Act(s, Outside(o)))
  {
    hide PendingHasOrigin, HasOrigin, Encode, Decode;
    OriginsStay(s, Act(s, Outside(o)), s.log);
    if o.DatabaseStep? {
      GroupsNamedDatabase(s.off, s.svc.pendingGroup, o.members);
    } else {
      GroupsNamedQuiet(s.off, Offline.Step(s.off, o), s.svc.pendingGroup, s.svc.pendingGroup);
    }
  }

  lemma GroupsNamedDatabase(off: Offline.State, pending: map<Token, PendingGroupMessage>, members: MembersResult)
    requires GroupsNamed(off, pending) && off.consumed < |off.main.posted|
    ensures GroupsNamed(Offline.DatabaseStepped(off, members), pending)
  {
  }

  lemma OriginMembership(s: Server, groupId: string, token: Token, notice: PendingNotification)
    requires OriginInv(s) && GroupInv(s) && Possible(s, MembershipChanged(groupId, token, notice))
    ensures OriginInv(Act(s, MembershipChanged(groupId, token, notice)))
  {
    hide PendingHasOrigin, HasOrigin;
    var t := Act(s, MembershipChanged(groupId, token, notice));
    OriginsStay(s, t, s.log);
    assert token !in s.svc.pendingGroup;
  }

  /** A member list that accepts a group send accepts the request it was made of. */
  lemma ReplyAccepts(off: Offline.State, requests: set<SendParams>, v: Service, r: MembersResult, clock: Clock)
    requires r.token in v.pendingGroup && PendingHasOrigin(requests, v.pendingGroup[r.token])
    requires r.groupId == v.pendingGroup[r.token].groupId
    requires 0 < off.handled <= |off.replies| && off.replies[off.handled - 1] == GroupMembersLoaded(r)
    ensures var o := OnGroupMembersForMessage(v, r, clock);
            o.inserted.Some? && o.inserted.value.entry.code == 200 ==> HasOrigin(off, requests, o.inserted.value)
  {
    hide Prune, Recipients, Trim;
    var o := OnGroupMembersForMessage(v, r, clock);
    var q :| q in requests && OfRequest(v.pendingGroup[r.token], q);
    var p := v.pendingGroup[r.token];
    Named(p.receiveMsg, q, p.serverId, p.receiveMsg.timestampUtc, Trim(r.groupName));
    if o.inserted.Some? && o.inserted.value.entry.code == 200 {
      assert ByMembers(r, q, o.inserted.value.accepted.value);
      assert Accepts(off, q, o.inserted.value);
    }
  }

  lemma OriginReply(s: Server, clock: Clock)
    requires OriginInv(s) && TokensMatch(s) && Possible(s, HandleReply(clock))
    ensures OriginInv(Act(s, HandleReply(clock)))
  {
    hide Encode, Decode, Offline.Run, OfflineModel.DeliverAll, PendingHasOrigin, HasOrigin, GroupsNamed, TokensMatch, OnGroupMembersForMessage;
    var t := Act(s, HandleReply(clock));
    match s.off.replies[s.off.handled]
    case OfflineLoaded(_, _) =>
      OriginsStay(s, t, s.log);
      GroupsNamedQuiet(s.off, t.off, s.svc.pendingGroup, s.svc.pendingGroup);
    case GroupMembersLoaded(r) =>
      var mid := Offline.Step(s.off, Offline.ReplyHandled);
      assert mid == s.off.(handled := s.off.handled + 1);
      if StartsWith(r.token, NOTIFY_PREFIX) {
        var effects := OnGroupMembersForNotify(s.notifications, r).1;
        EffectsAdd(mid, effects);
        EffectsAskNothing(mid, effects);
        OriginsStay(s, t, s.log);
        GroupsNamedQuiet(s.off, t.off, s.svc.pendingGroup, s.svc.pendingGroup);
      } else {
        OriginMessageReply(s, mid, r, clock);
      }
  }

  lemma ReplyReachesMessages(s: Server, r: MembersResult)
    requires TokensMatch(s) && s.off.handled < |s.off.replies| && s.off.replies[s.off.handled] == GroupMembersLoaded(r)
    requires !StartsWith(r.token, NOTIFY_PREFIX)
    ensures r.token in s.svc.pendingGroup
  {
    ReplyReachesAsker(s, r);
  }

  lemma OriginMessageReply(s: Server, mid: Offline.State, r: MembersResult, clock: Clock)
    requires OriginInv(s) && TokensMatch(s) && s.off.handled < |s.off.replies| && s.off.replies[s.off.handled] == GroupMembersLoaded(r)
    requires mid == s.off.(handled := s.off.handled + 1) && !StartsWith(r.token, NOTIFY_PREFIX)
    ensures var o := OnGroupMembersForMessage(s.svc, r, clock);
            OriginInv(Perform(s.(off := mid, doubled := s.doubled + Overwritten(s.svc.window, o.inserted)), o, clock.t2))
  {
    hide Offline.Run, OnGroupMembersForMessage, TokensMatch, HasOrigin, PendingHasOrigin;
    var o := OnGroupMembersForMessage(s.svc, r, clock);
    var t := Perform(s.(off := mid, doubled := s.doubled + Overwritten(s.svc.window, o.inserted)), o, clock.t2);
    ReplyReachesMessages(s, r);
    EffectsAdd(mid, o.effects);
    ReplyShape(s.svc, r, clock);
    EffectsAskNothing(mid, o.effects);
    OriginsStay(s, t, s.log);
    GroupsNamedQuiet(s.off, t.off, s.svc.pendingGroup, t.svc.pendingGroup);
    ReplyAccepts(t.off, s.requests, s.svc, r, clock);
  }

  lemma OriginAct(s: Server, e: ServerEvent)
    requires OriginInv(s) && GroupInv(s) && Possible(s, e)
    ensures OriginInv(Act(s, e))
  {
    hide OriginInv, TokensMatch;
    match e
    case Outside(o) => OriginOutside(s, o);
    case MembershipChanged(groupId, token, notice) => OriginMembership(s, groupId, token, notice);
    case Send(p, clock, serverId, token) => OriginSend(s, p, clock, serverId, token);
    case HandleReply(clock) => OriginReply(s, clock);
  }
}
