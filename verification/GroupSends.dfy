/** Group sends and membership notifications wait for a member query of their own, and each group send is
    answered once. */
module GroupSends {
  import opened Packets
  import opened Wire
  import opened Text
  import opened IdempotencyWindow
  import opened MessageDelivery
  import opened ServerProtocol
  import Offline = OfflineProtocol
  import OfflineModel

  // ---------------------------------------------------------------- tokens and queries

  predicate IsAnswer(reply: DbReply, token: Token) {
    reply.GroupMembersLoaded? && reply.result.token == token
  }

  ghost predicate InDatabase(off: Offline.State, token: Token) {
    exists i :: off.consumed <= i < |off.main.posted| && IsQuery(off.main.posted[i], token)
  }

  ghost predicate InReply(off: Offline.State, token: Token) {
    exists j :: off.handled <= j < |off.replies| && IsAnswer(off.replies[j], token)
  }

  predicate Waiting(s: Server, token: Token) {
    token in s.svc.pendingGroup || token in s.notifications
  }

  ghost predicate OneQueryEach(posted: seq<DbRequest>) {
    forall i, j :: 0 <= i < j < |posted| && posted[i].LoadGroupMembers? && posted[j].LoadGroupMembers? ==>
      posted[i].token != posted[j].token
  }

  ghost predicate OneAnswerEach(replies: seq<DbReply>) {
    forall i, j :: 0 <= i < j < |replies| && replies[i].GroupMembersLoaded? && replies[j].GroupMembersLoaded? ==>
      replies[i].result.token != replies[j].result.token
  }

  ghost predicate AnswersWereAsked(off: Offline.State) {
    forall j :: 0 <= j < |off.replies| && off.replies[j].GroupMembersLoaded? ==>
      Asked(off.main.posted, off.replies[j].result.token) && !InDatabase(off, off.replies[j].result.token)
  }

  ghost predicate Prefixed(s: Server) {
    && (forall t :: t in s.svc.pendingGroup ==> StartsWith(t, MESSAGE_PREFIX))
    && (forall t :: t in s.notifications ==> StartsWith(t, NOTIFY_PREFIX))
  }

  /** The tokens waited for are exactly those of the queries and results in flight, each once. */
  ghost predicate TokensMatch(s: Server) {
    && s.off.consumed <= |s.off.main.posted| && s.off.handled <= |s.off.replies|
    && OneQueryEach(s.off.main.posted) && OneAnswerEach(s.off.replies) && AnswersWereAsked(s.off)
    && (forall t :: Waiting(s, t) <==> InDatabase(s.off, t) || InReply(s.off, t))
    && Prefixed(s)
  }

  /** The offline protocol moved without a member query. */
  ghost predicate Quiet(a: Offline.State, b: Offline.State) {
    && b.consumed == a.consumed && b.handled == a.handled && b.replies == a.replies
    && a.main.posted <= b.main.posted
    && (forall i :: |a.main.posted| <= i < |b.main.posted| ==> !b.main.posted[i].LoadGroupMembers?)
  }

  lemma QuietKeeps(a: Offline.State, b: Offline.State, t: Token)
    requires Quiet(a, b) && a.consumed <= |a.main.posted|
    ensures InDatabase(b, t) <==> InDatabase(a, t)
    ensures InReply(b, t) <==> InReply(a, t)
    ensures Asked(b.main.posted, t) <==> Asked(a.main.posted, t)
  {
  }

  lemma TokensQuiet(s: Server, t: Server)
    requires TokensMatch(s) && Quiet(s.off, t.off)
    requires t.svc.pendingGroup == s.svc.pendingGroup && t.notifications == s.notifications
    ensures TokensMatch(t)
  {
    forall k ensures Waiting(t, k) <==> InDatabase(t.off, k) || InReply(t.off, k) {
      QuietKeeps(s.off, t.off, k);
    }
    forall j | 0 <= j < |t.off.replies| && t.off.replies[j].GroupMembersLoaded?
      ensures Asked(t.off.main.posted, t.off.replies[j].result.token) && !InDatabase(t.off, t.off.replies[j].result.token)
    {
      QuietKeeps(s.off, t.off, t.off.replies[j].result.token);
    }
  }

  /** A fresh query goes into the channel together with the entry that waits for it. */
  lemma TokensAsk(s: Server, t: Server, groupId: string, token: Token)
    requires TokensMatch(s) && !Asked(s.off.main.posted, token)
    requires t.off.consumed == s.off.consumed && t.off.handled == s.off.handled && t.off.replies == s.off.replies
    requires t.off.main.posted == s.off.main.posted + [LoadGroupMembers(groupId, token)]
    requires forall k :: Waiting(t, k) <==> Waiting(s, k) || k == token
    requires Prefixed(t)
    ensures TokensMatch(t)
  {
    var n := |s.off.main.posted|;
    assert IsQuery(t.off.main.posted[n], token);
    forall i | 0 <= i < n ensures t.off.main.posted[i] == s.off.main.posted[i] && !IsQuery(t.off.main.posted[i], token) {
    }
    forall k ensures InDatabase(t.off, k) <==> InDatabase(s.off, k) || k == token {
      if InDatabase(s.off, k) {
        var i :| s.off.consumed <= i < n && IsQuery(s.off.main.posted[i], k);
        assert IsQuery(t.off.main.posted[i], k);
      }
      if InDatabase(t.off, k) && k != token {
        var i :| t.off.consumed <= i < n + 1 && IsQuery(t.off.main.posted[i], k);
        assert IsQuery(s.off.main.posted[i], k);
      }
    }
    forall k | Asked(s.off.main.posted, k) ensures Asked(t.off.main.posted, k) && k != token {
      var i :| 0 <= i < n && IsQuery(s.off.main.posted[i], k);
      assert IsQuery(t.off.main.posted[i], k);
    }
    assert forall k :: InReply(t.off, k) <==> InReply(s.off, k);
  }

  /** Serving a request other than a member query. */
  lemma TokensServeOther(s: Server, t: Server)
    requires TokensMatch(s) && s.off.consumed < |s.off.main.posted| && !s.off.main.posted[s.off.consumed].LoadGroupMembers?
    requires t.svc == s.svc && t.notifications == s.notifications && t.off.main == s.off.main
    requires t.off.consumed == s.off.consumed + 1 && t.off.handled == s.off.handled
    requires s.off.replies <= t.off.replies
    requires forall j :: |s.off.replies| <= j < |t.off.replies| ==> !t.off.replies[j].GroupMembersLoaded?
    ensures TokensMatch(t)
  {
    forall k
      ensures InDatabase(t.off, k) <==> InDatabase(s.off, k)
      ensures InReply(t.off, k) <==> InReply(s.off, k)
    {
      if InDatabase(s.off, k) {
        var i :| s.off.consumed <= i < |s.off.main.posted| && IsQuery(s.off.main.posted[i], k);
        assert i != s.off.consumed;
      }
      if InReply(s.off, k) {
        var j :| s.off.handled <= j < |s.off.replies| && IsAnswer(s.off.replies[j], k);
        assert IsAnswer(t.off.replies[j], k);
      }
      if InReply(t.off, k) {
        var j :| t.off.handled <= j < |t.off.replies| && IsAnswer(t.off.replies[j], k);
        assert IsAnswer(s.off.replies[j], k);
      }
    }
    assert forall j :: 0 <= j < |s.off.replies| ==> t.off.replies[j] == s.off.replies[j];
  }

  /** Serving a member query: its token moves from the request channel to the reply channel. */
  lemma TokensServeQuery(s: Server, t: Server, r: MembersResult)
    requires TokensMatch(s) && s.off.consumed < |s.off.main.posted| && IsQuery(s.off.main.posted[s.off.consumed], r.token)
    requires t.svc == s.svc && t.notifications == s.notifications && t.off.main == s.off.main
    requires t.off.consumed == s.off.consumed + 1 && t.off.handled == s.off.handled
    requires t.off.replies == s.off.replies + [GroupMembersLoaded(r)]
    ensures TokensMatch(t)
  {
    var c, n := s.off.consumed, |s.off.replies|;
    assert InDatabase(s.off, r.token);
    assert IsAnswer(t.off.replies[n], r.token);
    assert InReply(t.off, r.token);
    forall k ensures InDatabase(t.off, k) <==> InDatabase(s.off, k) && k != r.token {
      if InDatabase(s.off, k) && k != r.token {
        var i :| c <= i < |s.off.main.posted| && IsQuery(s.off.main.posted[i], k);
        assert i != c;
      }
      if InDatabase(t.off, k) {
        var i :| t.off.consumed <= i < |t.off.main.posted| && IsQuery(t.off.main.posted[i], k);
        assert IsQuery(s.off.main.posted[i], k);
      }
    }
    forall k | k != r.token ensures InReply(t.off, k) <==> InReply(s.off, k) {
      if InReply(s.off, k) {
        var j :| s.off.handled <= j < n && IsAnswer(s.off.replies[j], k);
        assert IsAnswer(t.off.replies[j], k);
      }
      if InReply(t.off, k) {
        var j :| t.off.handled <= j < n + 1 && IsAnswer(t.off.replies[j], k);
        assert IsAnswer(s.off.replies[j], k);
      }
    }
    forall j | 0 <= j < n && s.off.replies[j].GroupMembersLoaded?
      ensures t.off.replies[j] == s.off.replies[j] && s.off.replies[j].result.token != r.token
    {
    }
    assert Asked(s.off.main.posted, r.token);
  }

  /** A result is handled: the entry that waited for its token is gone, and nothing else. */
  lemma TokensAnswer(s: Server, t: Server, r: MembersResult)
    requires TokensMatch(s) && s.off.handled < |s.off.replies| && s.off.replies[s.off.handled] == GroupMembersLoaded(r)
    requires Quiet(s.off.(handled := s.off.handled + 1), t.off)
    requires forall k :: Waiting(t, k) <==> Waiting(s, k) && k != r.token
    requires Prefixed(t)
    ensures TokensMatch(t)
  {
  }

  /** A result that arrives is waited for by exactly the service its prefix selects. */
  lemma ReplyReachesAsker(s: Server, r: MembersResult)
    requires TokensMatch(s) && s.off.handled < |s.off.replies| && s.off.replies[s.off.handled] == GroupMembersLoaded(r)
    ensures StartsWith(r.token, NOTIFY_PREFIX) ==> r.token in s.notifications && r.token !in s.svc.pendingGroup
    ensures !StartsWith(r.token, NOTIFY_PREFIX) ==> r.token in s.svc.pendingGroup && r.token !in s.notifications
    ensures r.token != ""
  {
    assert IsAnswer(s.off.replies[s.off.handled], r.token);
    assert InReply(s.off, r.token);
    assert Waiting(s, r.token);
    if r.token in s.svc.pendingGroup { PrefixesDiffer(r.token); }
  }

  // ---------------------------------------------------------------- the in-flight set

  ghost predicate HasKey(pending: map<Token, PendingGroupMessage>, key: Key) {
    exists t :: t in pending && pending[t].requestKey == key
  }

  /** The in-flight set is the set of keys waited for, and no two tokens share a key. */
  ghost predicate InFlightMatches(v: Service) {
    && (forall key :: key in v.inFlight <==> HasKey(v.pendingGroup, key))
    && (forall t, u :: t in v.pendingGroup && u in v.pendingGroup && v.pendingGroup[t].requestKey == v.pendingGroup[u].requestKey ==> t == u)
    && (forall t :: t in v.pendingGroup ==> NamesItsRequest(v.pendingGroup[t]))
  }

  predicate NamesItsRequest(p: PendingGroupMessage) {
    p.requestKey == RequestKeyFor(p.senderUserId, p.clientMsgId) && p.receiveMsg.msgId == p.serverId != ""
  }

  lemma InFlightAdd(v: Service, w: Service, token: Token, p: PendingGroupMessage)
    requires InFlightMatches(v) && token !in v.pendingGroup && p.requestKey !in v.inFlight && NamesItsRequest(p)
    requires w.inFlight == v.inFlight + {p.requestKey} && w.pendingGroup == v.pendingGroup[token := p]
    ensures InFlightMatches(w)
  {
    assert token in w.pendingGroup && w.pendingGroup[token].requestKey == p.requestKey;
    forall key ensures HasKey(w.pendingGroup, key) <==> HasKey(v.pendingGroup, key) || key == p.requestKey {
      if HasKey(v.pendingGroup, key) {
        var t :| t in v.pendingGroup && v.pendingGroup[t].requestKey == key;
        assert t in w.pendingGroup;
      }
    }
    forall t | t in v.pendingGroup ensures v.pendingGroup[t].requestKey != p.requestKey {
      assert HasKey(v.pendingGroup, v.pendingGroup[t].requestKey);
    }
  }

  lemma InFlightRemove(v: Service, w: Service, token: Token)
    requires InFlightMatches(v) && token in v.pendingGroup
    requires w.inFlight == v.inFlight - {v.pendingGroup[token].requestKey} && w.pendingGroup == v.pendingGroup - {token}
    ensures InFlightMatches(w)
  {
    var gone := v.pendingGroup[token].requestKey;
    forall key ensures HasKey(w.pendingGroup, key) <==> HasKey(v.pendingGroup, key) && key != gone {
      if HasKey(v.pendingGroup, key) && key != gone {
        var t :| t in v.pendingGroup && v.pendingGroup[t].requestKey == key;
        assert t in w.pendingGroup;
      }
      if HasKey(w.pendingGroup, key) {
        var t :| t in w.pendingGroup && w.pendingGroup[t].requestKey == key;
        assert t in v.pendingGroup;
      }
    }
  }

  // ---------------------------------------------------------------- one answer each

  ghost predicate AnsweredBy(acks: seq<Ack>, token: Token) {
    exists i :: 0 <= i < |acks| && acks[i].token == Some(token)
  }

  /** A group send that asked for members is answered once its result was handled, and never twice. */
  ghost predicate AnsweredOnce(s: Server) {
    && (forall i, j :: 0 <= i < j < |s.svc.acks| && s.svc.acks[i].token.Some? ==> s.svc.acks[i].token != s.svc.acks[j].token)
    && (forall t :: AnsweredBy(s.svc.acks, t) ==> Asked(s.off.main.posted, t) && StartsWith(t, MESSAGE_PREFIX))
    && (forall t :: Asked(s.off.main.posted, t) && StartsWith(t, MESSAGE_PREFIX) ==>
          (t in s.svc.pendingGroup <==> !AnsweredBy(s.svc.acks, t)))
    && (forall t :: t in s.svc.pendingGroup ==> Asked(s.off.main.posted, t))
  }

  lemma AnsweredByMore(acks: seq<Ack>, a: Ack, token: Token)
    ensures AnsweredBy(acks + [a], token) <==> AnsweredBy(acks, token) || a.token == Some(token)
  {
    if AnsweredBy(acks, token) {
      var i :| 0 <= i < |acks| && acks[i].token == Some(token);
      assert (acks + [a])[i].token == Some(token);
    }
    if a.token == Some(token) { assert (acks + [a])[|acks|].token == Some(token); }
    if AnsweredBy(acks + [a], token) && a.token != Some(token) {
      var i :| 0 <= i < |acks + [a]| && (acks + [a])[i].token == Some(token);
      assert acks[i].token == Some(token);
    }
  }

  /** An answer to a request that waits for no query. */
  lemma OnceDirect(s: Server, t: Server, a: Ack)
    requires AnsweredOnce(s) && a.token.None? && t.svc.acks == s.svc.acks + [a] && t.svc.pendingGroup == s.svc.pendingGroup
    requires forall k :: Asked(t.off.main.posted, k) <==> Asked(s.off.main.posted, k)
    ensures AnsweredOnce(t)
  {
    forall k ensures AnsweredBy(t.svc.acks, k) <==> AnsweredBy(s.svc.acks, k) {
      AnsweredByMore(s.svc.acks, a, k);
    }
  }

  lemma OnceReply(s: Server, t: Server, token: Token, a: Ack)
    requires AnsweredOnce(s) && token in s.svc.pendingGroup && StartsWith(token, MESSAGE_PREFIX) && a.token == Some(token)
    requires t.svc.acks == s.svc.acks + [a] && t.svc.pendingGroup == s.svc.pendingGroup - {token}
    requires forall k :: Asked(t.off.main.posted, k) <==> Asked(s.off.main.posted, k)
    ensures AnsweredOnce(t)
  {
    forall k ensures AnsweredBy(t.svc.acks, k) <==> AnsweredBy(s.svc.acks, k) || k == token {
      AnsweredByMore(s.svc.acks, a, k);
    }
    assert !AnsweredBy(s.svc.acks, token);
  }

  lemma OnceAsk(s: Server, t: Server, token: Token)
    requires AnsweredOnce(s) && !Asked(s.off.main.posted, token) && t.svc.acks == s.svc.acks
    requires forall k :: Asked(t.off.main.posted, k) <==> Asked(s.off.main.posted, k) || k == token
    requires t.svc.pendingGroup.Keys == s.svc.pendingGroup.Keys + (if StartsWith(token, MESSAGE_PREFIX) then {token} else {})
    ensures AnsweredOnce(t)
  {
  }

  lemma OnceSame(s: Server, t: Server)
    requires AnsweredOnce(s) && t.svc.acks == s.svc.acks && t.svc.pendingGroup == s.svc.pendingGroup
    requires forall k :: Asked(t.off.main.posted, k) <==> Asked(s.off.main.posted, k)
    ensures AnsweredOnce(t)
  {
  }

  lemma AskedMore(posted: seq<DbRequest>, groupId: string, token: Token, k: Token)
    ensures Asked(posted + [LoadGroupMembers(groupId, token)], k) <==> Asked(posted, k) || k == token
  {
    var more := posted + [LoadGroupMembers(groupId, token)];
    if Asked(posted, k) {
      var i :| 0 <= i < |posted| && IsQuery(posted[i], k);
      assert IsQuery(more[i], k);
    }
    assert IsQuery(more[|posted|], token);
    if Asked(more, k) && k != token {
      var i :| 0 <= i < |more| && IsQuery(more[i], k);
      assert IsQuery(posted[i], k);
    }
  }

  // ---------------------------------------------------------------- every step

  ghost predicate GroupInv(s: Server) {
    TokensMatch(s) && InFlightMatches(s.svc) && AnsweredOnce(s)
  }

  lemma GroupInvQuiet(s: Server, t: Server)
    requires GroupInv(s) && Quiet(s.off, t.off) && t.svc == s.svc && t.notifications == s.notifications
    ensures GroupInv(t)
  {
    TokensQuiet(s, t);
    forall k ensures Asked(t.off.main.posted, k) <==> Asked(s.off.main.posted, k) { QuietKeeps(s.off, t.off, k); }
    OnceSame(s, t);
  }

  lemma GroupInvDatabase(s: Server, members: MembersResult)
    requires GroupInv(s) && s.off.consumed < |s.off.main.posted|
    ensures GroupInv(s.(off := Offline.DatabaseStepped(s.off, members)))
  {
    var t := s.(off := Offline.DatabaseStepped(s.off, members));
    var request := s.off.main.posted[s.off.consumed];
    if request.LoadGroupMembers? {
      TokensServeQuery(s, t, members.(groupId := request.groupId, token := request.token));
    } else {
      TokensServeOther(s, t);
    }
    OnceSame(s, t);
  }

  lemma GroupInvOutside(s: Server, o: Offline.Event)
    requires GroupInv(s) && Possible(s, Outside(o))
    ensures GroupInv(Act(s, Outside(o)))
  {
    hide Encode, Decode, GroupInv;
    if o.DatabaseStep? {
      GroupInvDatabase(s, o.members);
    } else {
      GroupInvQuiet(s, Act(s, Outside(o)));
    }
  }

  lemma QuietRun(off: Offline.State, effects: seq<Effect>)
    requires NoQueries(effects)
    ensures Quiet(off, Offline.Run(off, effects))
  {
  }

  lemma GroupInvSend(s: Server, p: SendParams, clock: Clock, serverId: MsgId, token: Token)
    requires GroupInv(s) && Possible(s, Send(p, clock, serverId, token))
    ensures GroupInv(Act(s, Send(p, clock, serverId, token)))
  {
    hide Offline.Run, Prune, TooLarge;
    var t := Act(s, Send(p, clock, serverId, token));
    var o := ProcessSendMessage(s.svc, p, clock, serverId, token);
    if |o.effects| == 1 && o.effects[0].Signal? && o.effects[0].request.LoadGroupMembers? {
      AskMembers(s, t, p, clock, serverId, token);
    } else {
      SendAnswered(s, t, p, clock, serverId, token);
    }
  }

  lemma SingleEffect(off: Offline.State, request: DbRequest)
    requires request.LoadGroupMembers?
    ensures Offline.Run(off, [Offline.Signal(request)]) == Offline.Step(off, Offline.Signal(request))
  {
  }

  lemma AskMembers(s: Server, t: Server, p: SendParams, clock: Clock, serverId: MsgId, token: Token)
    requires GroupInv(s) && Possible(s, Send(p, clock, serverId, token)) && t == Act(s, Send(p, clock, serverId, token))
    requires var o := ProcessSendMessage(s.svc, p, clock, serverId, token);
             |o.effects| == 1 && o.effects[0].Signal? && o.effects[0].request.LoadGroupMembers?
    ensures GroupInv(t)
  {
    hide Offline.Run, Prune, TooLarge;
    SingleEffect(s.off, LoadGroupMembers(p.sessionId, token));
    assert t.off.main.posted == s.off.main.posted + [LoadGroupMembers(p.sessionId, token)];
    assert token !in s.svc.pendingGroup;
    TokensAsk(s, t, p.sessionId, token);
    InFlightAdd(s.svc, t.svc, token, t.svc.pendingGroup[token]);
    forall k ensures Asked(t.off.main.posted, k) <==> Asked(s.off.main.posted, k) || k == token {
      AskedMore(s.off.main.posted, p.sessionId, token, k);
    }
    OnceAsk(s, t, token);
  }

  /** A send that asks for no member list leaves the pending group sends alone and acks at most once. */
  lemma AnsweredShape(v: Service, p: SendParams, clock: Clock, serverId: MsgId, token: Token)
    requires var o := ProcessSendMessage(v, p, clock, serverId, token);
             !(|o.effects| == 1 && o.effects[0].Signal? && o.effects[0].request.LoadGroupMembers?)
    ensures var o := ProcessSendMessage(v, p, clock, serverId, token);
            && NoQueries(o.effects)
            && o.service.inFlight == v.inFlight && o.service.pendingGroup == v.pendingGroup
            && (o.service.acks == v.acks
                || (|o.service.acks| == |v.acks| + 1 && v.acks == o.service.acks[..|v.acks|] && o.service.acks[|v.acks|].token.None?))
  {
  }

  lemma SendAnswered(s: Server, t: Server, p: SendParams, clock: Clock, serverId: MsgId, token: Token)
    requires GroupInv(s) && Possible(s, Send(p, clock, serverId, token)) && t == Act(s, Send(p, clock, serverId, token))
    requires var o := ProcessSendMessage(s.svc, p, clock, serverId, token);
             !(|o.effects| == 1 && o.effects[0].Signal? && o.effects[0].request.LoadGroupMembers?)
    ensures GroupInv(t)
  {
    AnsweredShape(s.svc, p, clock, serverId, token);
    hide Offline.Run, ProcessSendMessage;
    var o := ProcessSendMessage(s.svc, p, clock, serverId, token);
    QuietRun(s.off, o.effects);
    forall k ensures Asked(t.off.main.posted, k) <==> Asked(s.off.main.posted, k) { QuietKeeps(s.off, t.off, k); }
    TokensQuiet(s, t);
    if t.svc.acks == s.svc.acks {
      OnceSame(s, t);
    } else {
      OnceDirect(s, t, t.svc.acks[|s.svc.acks|]);
    }
  }

  lemma GroupInvMembership(s: Server, groupId: string, token: Token, notice: PendingNotification)
    requires GroupInv(s) && Possible(s, MembershipChanged(groupId, token, notice))
    ensures GroupInv(Act(s, MembershipChanged(groupId, token, notice)))
  {
    var t := Act(s, MembershipChanged(groupId, token, notice));
    TokensAsk(s, t, groupId, token);
    forall k ensures Asked(t.off.main.posted, k) <==> Asked(s.off.main.posted, k) || k == token {
      AskedMore(s.off.main.posted, groupId, token, k);
    }
    assert !StartsWith(token, MESSAGE_PREFIX) by {
      if StartsWith(token, MESSAGE_PREFIX) { PrefixesDiffer(token); }
    }
    OnceAsk(s, t, token);
  }

  lemma GroupInvReply(s: Server, clock: Clock)
    requires GroupInv(s) && Possible(s, HandleReply(clock))
    ensures GroupInv(Act(s, HandleReply(clock)))
  {
    hide Encode, Decode;
    var t := Act(s, HandleReply(clock));
    match s.off.replies[s.off.handled]
    case OfflineLoaded(user, packets) =>
      OfflineReplyIsQuiet(s, t);
    case GroupMembersLoaded(r) =>
      ReplyReachesAsker(s, r);
      if StartsWith(r.token, NOTIFY_PREFIX) {
        NotifyAnswered(s, t, r, clock);
      } else {
        MessageAnswered(s, t, r, clock);
      }
  }

  lemma LoadHandled(off: Offline.State)
    requires off.handled < |off.replies| && off.replies[off.handled].OfflineLoaded?
    ensures Quiet(off, Offline.Step(off, Offline.ReplyHandled).(handled := off.handled))
    ensures Offline.Step(off, Offline.ReplyHandled).handled == off.handled + 1
  {
    hide Encode, Decode, OfflineModel.DeliverAll;
  }

  lemma OfflineReplyIsQuiet(s: Server, t: Server)
    requires GroupInv(s) && s.off.handled < |s.off.replies| && s.off.replies[s.off.handled].OfflineLoaded?
    requires t.off == Offline.Step(s.off, Offline.ReplyHandled) && t.svc == s.svc && t.notifications == s.notifications
    ensures GroupInv(t)
  {
    LoadHandled(s.off);
    hide Offline.Step;
    var h := s.off.handled;
    forall k
      ensures InDatabase(t.off, k) <==> InDatabase(s.off, k)
      ensures InReply(t.off, k) <==> InReply(s.off, k)
      ensures Asked(t.off.main.posted, k) <==> Asked(s.off.main.posted, k)
    {
      QuietKeeps(s.off, t.off.(handled := h), k);
      assert InDatabase(t.off, k) <==> InDatabase(t.off.(handled := h), k);
      if InReply(s.off, k) {
        var j :| h <= j < |s.off.replies| && IsAnswer(s.off.replies[j], k);
        assert j != h && IsAnswer(t.off.replies[j], k);
      }
      if InReply(t.off, k) {
        var j :| h + 1 <= j < |t.off.replies| && IsAnswer(t.off.replies[j], k);
        assert IsAnswer(s.off.replies[j], k);
      }
    }
    hide Quiet;
    OnceSame(s, t);
  }

  lemma NotifyAnswered(s: Server, t: Server, r: MembersResult, clock: Clock)
    requires GroupInv(s) && Possible(s, HandleReply(clock)) && s.off.replies[s.off.handled] == GroupMembersLoaded(r)
    requires StartsWith(r.token, NOTIFY_PREFIX) && r.token in s.notifications && r.token !in s.svc.pendingGroup && r.token != ""
    requires t == Act(s, HandleReply(clock))
    ensures GroupInv(t)
  {
    hide Offline.Run;
    var mid := s.off.(handled := s.off.handled + 1);
    var effects := OnGroupMembersForNotify(s.notifications, r).1;
    QuietRun(mid, effects);
    TokensAnswer(s, t, r);
    forall k ensures Asked(t.off.main.posted, k) <==> Asked(s.off.main.posted, k) { QuietKeeps(mid, t.off, k); }
    OnceSame(s, t);
  }

  /** The member list of a pending group send: its token and key are given up, and it is answered once. */
  lemma ReplyShape(v: Service, r: MembersResult, clock: Clock)
    requires r.token in v.pendingGroup
    ensures var o := OnGroupMembersForMessage(v, r, clock);
            && NoQueries(o.effects)
            && o.service.pendingGroup == v.pendingGroup - {r.token}
            && o.service.inFlight == v.inFlight - {v.pendingGroup[r.token].requestKey}
            && |o.service.acks| == |v.acks| + 1
            && o.service.acks == v.acks + [o.service.acks[|v.acks|]] && o.service.acks[|v.acks|].token == Some(r.token)
  {
    hide Prune, Recipients, Trim;
  }

  lemma MessageTokens(s: Server, t: Server, r: MembersResult, clock: Clock)
    requires TokensMatch(s) && Possible(s, HandleReply(clock)) && s.off.replies[s.off.handled] == GroupMembersLoaded(r)
    requires !StartsWith(r.token, NOTIFY_PREFIX) && r.token in s.svc.pendingGroup && r.token !in s.notifications
    requires t == Act(s, HandleReply(clock))
    ensures TokensMatch(t) && Quiet(s.off.(handled := s.off.handled + 1), t.off)
    ensures t.svc == OnGroupMembersForMessage(s.svc, r, clock).service
  {
    ReplyShape(s.svc, r, clock);
    hide Offline.Run, OnGroupMembersForMessage;
    QuietRun(s.off.(handled := s.off.handled + 1), OnGroupMembersForMessage(s.svc, r, clock).effects);
    TokensAnswer(s, t, r);
  }

  lemma MessageAnswered(s: Server, t: Server, r: MembersResult, clock: Clock)
    requires GroupInv(s) && Possible(s, HandleReply(clock)) && s.off.replies[s.off.handled] == GroupMembersLoaded(r)
    requires !StartsWith(r.token, NOTIFY_PREFIX) && r.token in s.svc.pendingGroup && r.token !in s.notifications
    requires t == Act(s, HandleReply(clock))
    ensures GroupInv(t)
  {
    assert Prefixed(s) && s.off.consumed <= |s.off.main.posted|;
    hide Act, OnGroupMembersForMessage, TokensMatch, AnsweredOnce, InFlightMatches;
    ReplyShape(s.svc, r, clock);
    MessageTokens(s, t, r, clock);
    InFlightRemove(s.svc, t.svc, r.token);
    var mid := s.off.(handled := s.off.handled + 1);
    forall k ensures Asked(t.off.main.posted, k) <==> Asked(s.off.main.posted, k) { QuietKeeps(mid, t.off, k); }
    OnceReply(s, t, r.token, t.svc.acks[|s.svc.acks|]);
  }

  lemma GroupInvAct(s: Server, e: ServerEvent)
    requires GroupInv(s) && Possible(s, e)
    ensures GroupInv(Act(s, e))
  {
    hide GroupInv;
    match e
    case Outside(o) => GroupInvOutside(s, o);
    case Send(p, clock, serverId, token) => GroupInvSend(s, p, clock, serverId, token);
    case MembershipChanged(groupId, token, notice) => GroupInvMembership(s, groupId, token, notice);
    case HandleReply(clock) => GroupInvReply(s, clock);
  }

  /** In every run of the server. */
  lemma {:induction false} GroupInvEver(events: seq<ServerEvent>)
    ensures GroupInv(Runs(Start(), events))
  {
    hide GroupInv;
    if events == [] {
      StartIsGroupInv();
    } else {
      var front := events[..|events| - 1];
      GroupInvEver(front);
      if Possible(Runs(Start(), front), events[|events| - 1]) {
        GroupInvAct(Runs(Start(), front), events[|events| - 1]);
      }
    }
  }

  lemma StartIsGroupInv()
    ensures GroupInv(Start())
  {
  }
}
