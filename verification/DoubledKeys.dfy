/** When a cached answer is overwritten: one request key used for a group send and a private send at the same time. */
module DoubledKeys {
  import opened Packets
  import opened Wire
  import opened Text
  import opened IdempotencyWindow
  import opened MessageDelivery
  import opened ServerProtocol
  import opened GroupSends
  import opened RequestOrigins
  import opened Idempotency
  import Offline = OfflineProtocol
  import OfflineModel

  // ---------------------------------------------------------------- the race

  /** A private send with the key is accepted while a group send with it waits for its member list. */
  ghost predicate PrivateAccepted(s: Server, e: ServerEvent, k: Key) {
    && e.Send? && Possible(s, e) && e.p.sessionType == "private" && RequestKeyFor(e.p.senderUserId, e.p.msgId) == k
    && ProcessSendMessage(s.svc, e.p, e.clock, e.serverId, e.token).inserted.Some?
    && k in s.svc.inFlight
  }

  /** The member list of the group send with the key is handled. */
  ghost predicate GroupAnswered(s: Server, e: ServerEvent, k: Key) {
    && e.HandleReply? && Possible(s, e) && s.off.replies[s.off.handled].GroupMembersLoaded?
    && var r := s.off.replies[s.off.handled].result;
    !StartsWith(r.token, NOTIFY_PREFIX) && r.success && r.token in s.svc.pendingGroup && s.svc.pendingGroup[r.token].requestKey == k
  }

  predicate InRace(s: Server, k: Key) {
    k in s.svc.inFlight && k in s.svc.window.cache
  }

  /** Event `n` accepts the private send, and ever since the key has been both in flight and cached. */
  ghost predicate RacingSince(events: seq<ServerEvent>, n: nat, k: Key) {
    && n < |events| && PrivateAccepted(Runs(Start(), events[..n]), events[n], k)
    && forall x :: n < x <= |events| ==> InRace(Runs(Start(), events[..x]), k)
  }

  /** The private send of event `n` overtakes the group send that event `m` answers. */
  ghost predicate Overtakes(events: seq<ServerEvent>, n: nat, m: nat, k: Key) {
    && n < m < |events| && RacingSince(events[..m], n, k)
    && GroupAnswered(Runs(Start(), events[..m]), events[m], k)
  }

  // ---------------------------------------------------------------- one step

  lemma CacheAfterInsert(w: Window, x: Insertion, now: int, k: Key)
    requires k in Prune(Remember(w, x.key, x.entry), now).cache && k != x.key
    ensures k in w.cache
  {
    PruneForgets(Remember(w, x.key, x.entry), now, k);
  }

  lemma SendFlight(v: Service, p: SendParams, clock: Clock, serverId: MsgId, token: Token)
    ensures var o := ProcessSendMessage(v, p, clock, serverId, token);
            var key := RequestKeyFor(p.senderUserId, p.msgId);
            && (o.inserted.Some? ==> o.service.inFlight == v.inFlight)
            && (o.service.inFlight == v.inFlight
                || (o.service.inFlight == v.inFlight + {key} && key !in Prune(v.window, clock.t0).cache))
  {
    hide Prune, TooLarge, RequestKeyFor;
  }

  lemma RaceStartsSend(s: Server, p: SendParams, clock: Clock, serverId: MsgId, token: Token, k: Key)
    requires var e := Send(p, clock, serverId, token); Possible(s, e) && !InRace(s, k) && InRace(Act(s, e), k)
    ensures PrivateAccepted(s, Send(p, clock, serverId, token), k)
  {
    SendWindow(s.svc, p, clock, serverId, token);
    SendFlight(s.svc, p, clock, serverId, token);
    hide ProcessSendMessage, Prune, Offline.Run, RequestKeyFor;
    var o := ProcessSendMessage(s.svc, p, clock, serverId, token);
    var w := Prune(s.svc.window, clock.t0);
    if k in w.cache { PruneForgets(s.svc.window, clock.t0, k); }
    if o.inserted.Some? && k != o.inserted.value.key { CacheAfterInsert(w, o.inserted.value, clock.t2, k); }
  }

  lemma ReplyFlight(v: Service, r: MembersResult, clock: Clock)
    ensures var o := OnGroupMembersForMessage(v, r, clock);
            if r.token !in v.pendingGroup then o.service == v && o.inserted.None?
            else o.service.inFlight == v.inFlight - {v.pendingGroup[r.token].requestKey} && (o.inserted.Some? <==> r.success)
  {
    hide Prune, Recipients, Trim;
  }

  lemma NoRaceByReply(s: Server, clock: Clock, k: Key)
    requires Possible(s, HandleReply(clock)) && !InRace(s, k)
    ensures !InRace(Act(s, HandleReply(clock)), k)
  {
    hide OnGroupMembersForMessage, Prune, Offline.Run, Offline.Step;
    if s.off.replies[s.off.handled].GroupMembersLoaded? {
      var r := s.off.replies[s.off.handled].result;
      ReplyWindow(s.svc, r, clock);
      ReplyFlight(s.svc, r, clock);
      var o := OnGroupMembersForMessage(s.svc, r, clock);
      if o.inserted.Some? && k != o.inserted.value.key && k in o.service.window.cache {
        CacheAfterInsert(s.svc.window, o.inserted.value, clock.t2, k);
      }
    }
  }

  /** A key comes to be both in flight and cached only by such a private send. */
  lemma RaceStarts(s: Server, e: ServerEvent, k: Key)
    requires Possible(s, e) && !InRace(s, k) && InRace(Act(s, e), k)
    ensures PrivateAccepted(s, e, k)
  {
    hide ProcessSendMessage, OnGroupMembersForMessage, Offline.Run, Offline.Step;
    match e
    case Outside(_) =>
    case MembershipChanged(_, _, _) =>
    case Send(p, clock, serverId, token) => RaceStartsSend(s, p, clock, serverId, token, k);
    case HandleReply(clock) => NoRaceByReply(s, clock, k);
  }

  lemma InFlightIsPending(v: Service, t: Token)
    requires InFlightMatches(v) && t in v.pendingGroup
    ensures v.pendingGroup[t].requestKey in v.inFlight
  {
    assert HasKey(v.pendingGroup, v.pendingGroup[t].requestKey);
  }

  lemma DoubledStep(s: Server, e: ServerEvent, k: Key)
    requires InFlightMatches(s.svc) && Possible(s, e)
    ensures k in Act(s, e).doubled <==> k in s.doubled || (GroupAnswered(s, e, k) && InRace(s, k))
  {
    hide ProcessSendMessage, OnGroupMembersForMessage, InFlightMatches, Offline.Run, Offline.Step;
    if e.HandleReply? && s.off.replies[s.off.handled].GroupMembersLoaded? {
      var r := s.off.replies[s.off.handled].result;
      ReplyWindow(s.svc, r, e.clock);
      ReplyFlight(s.svc, r, e.clock);
      if r.token in s.svc.pendingGroup { InFlightIsPending(s.svc, r.token); }
    }
  }

  // ---------------------------------------------------------------- every run

  lemma FrontOf(events: seq<ServerEvent>)
    requires events != []
    ensures var n := |events| - 1;
            forall x :: 0 <= x <= n ==> events[..n][..x] == events[..x]
  {
  }

  lemma {:induction false} RacingIff(events: seq<ServerEvent>, k: Key)
    ensures InRace(Runs(Start(), events), k) <==> exists n: nat :: RacingSince(events, n, k)
  {
    hide Act, Possible, PrivateAccepted, InRace;
    assert events[..|events|] == events;
    if events == [] {
      NoRaceYet(k);
    } else {
      var last := |events| - 1;
      var front, e := events[..last], events[last];
      var s := Runs(Start(), front);
      RacingIff(front, k);
      FrontOf(events);
      if InRace(Runs(Start(), events), k) {
        if InRace(s, k) {
          var n: nat :| RacingSince(front, n, k);
          assert RacingSince(events, n, k);
        } else if Possible(s, e) {
          RaceStarts(s, e, k);
          assert RacingSince(events, last, k);
        }
      }
    }
  }

  lemma NoRaceYet(k: Key)
    ensures !InRace(Start(), k)
  {
  }

  /** Exactly when a key is inserted over its own cached answer: a private send with it is accepted while a group send
      with it is in flight, and the group send is answered before the private answer is forgotten. */
  lemma {:induction false} DoubledIff(events: seq<ServerEvent>, k: Key)
    ensures k in Runs(Start(), events).doubled <==> exists n: nat, m: nat :: Overtakes(events, n, m, k)
  {
    hide Act, Possible, GroupAnswered, InRace, RacingSince, GroupInv;
    if events == [] {
      NothingDoubledYet();
    } else {
      var last := |events| - 1;
      var front, e := events[..last], events[last];
      var s := Runs(Start(), front);
      DoubledIff(front, k);
      FrontOf(events);
      RacingIff(front, k);
      GroupInvEver(front);
      if Possible(s, e) { DoubledOnce(s, e, k); }
      if k in s.doubled {
        var n: nat, m: nat :| Overtakes(front, n, m, k);
        assert Overtakes(events, n, m, k);
      } else if k in Runs(Start(), events).doubled {
        var n: nat :| RacingSince(front, n, k);
        RacingBefore(front, n, k);
        assert Overtakes(events, n, last, k);
      }
      forall n: nat, m: nat | Overtakes(events, n, m, k) ensures k in Runs(Start(), events).doubled {
        if m < last {
          assert Overtakes(front, n, m, k);
        } else {
          AnsweredIsPossible(s, e, k);
        }
      }
    }
  }

  lemma DoubledOnce(s: Server, e: ServerEvent, k: Key)
    requires GroupInv(s) && Possible(s, e)
    ensures k in Act(s, e).doubled <==> k in s.doubled || (GroupAnswered(s, e, k) && InRace(s, k))
  {
    hide Act, Possible, GroupAnswered, TokensMatch, AnsweredOnce, InFlightMatches;
    DoubledStep(s, e, k);
  }

  lemma AnsweredIsPossible(s: Server, e: ServerEvent, k: Key)
    requires GroupAnswered(s, e, k)
    ensures Possible(s, e)
  {
  }

  lemma RacingBefore(events: seq<ServerEvent>, n: nat, k: Key)
    requires RacingSince(events, n, k)
    ensures n < |events|
  {
  }

  lemma NothingDoubledYet()
    ensures Start().doubled == {}
  {
  }

  // ---------------------------------------------------------------- it takes both session types

  lemma RequestsGrow(s: Server, e: ServerEvent)
    requires Possible(s, e)
    ensures s.requests <= Act(s, e).requests
    ensures e.Send? ==> e.p in Act(s, e).requests
  {
    hide ProcessSendMessage, OnGroupMembersForMessage, Offline.Run, Offline.Step;
  }

  lemma {:induction false} RequestsStay(events: seq<ServerEvent>, n: nat)
    requires n <= |events|
    ensures Runs(Start(), events[..n]).requests <= Runs(Start(), events).requests
  {
    hide Act, Possible;
    if n == |events| {
      assert events[..n] == events;
    } else {
      var front, e := events[..|events| - 1], events[|events| - 1];
      assert front[..n] == events[..n];
      RequestsStay(front, n);
      if Possible(Runs(Start(), front), e) { RequestsGrow(Runs(Start(), front), e); }
    }
  }

  ghost predicate Arrived(requests: set<SendParams>, k: Key, private: bool) {
    exists q :: q in requests && RequestKeyFor(q.senderUserId, q.msgId) == k && (q.sessionType == "private") == private
  }

  /** A key that arrived with one session type only is never doubled. */
  lemma DoubledNeedsBothTypes(events: seq<ServerEvent>, k: Key)
    requires k in Runs(Start(), events).doubled
    ensures Arrived(Runs(Start(), events).requests, k, true) && Arrived(Runs(Start(), events).requests, k, false)
  {
    hide Runs, Act, RunInv, GroupInv, RequestKeyFor;
    DoubledIff(events, k);
    var n: nat, m: nat :| Overtakes(events, n, m, k);
    assert events[..m][..n] == events[..n] && events[..m][n] == events[n];
    var s := Runs(Start(), events[..n]);
    assert PrivateAccepted(s, events[n], k);
    RunsNext(events, n);
    RequestsGrow(s, events[n]);
    RequestsStay(events, n + 1);
    var q := events[n].p;
    assert q in Runs(Start(), events).requests;
    RunInvEver(events[..n]);
    GroupInvEver(events[..n]);
    InFlightArrived(s, k);
    RequestsStay(events, n);
    var g :| g in s.requests && RequestKeyFor(g.senderUserId, g.msgId) == k && g.sessionType != "private";
    assert g in Runs(Start(), events).requests;
  }

  lemma RunsNext(events: seq<ServerEvent>, n: nat)
    requires n < |events| && Possible(Runs(Start(), events[..n]), events[n])
    ensures Runs(Start(), events[..n + 1]) == Act(Runs(Start(), events[..n]), events[n])
  {
    hide Act, Possible;
    assert events[..n + 1][..n] == events[..n];
  }

  lemma InFlightArrived(s: Server, k: Key)
    requires GroupInv(s) && RunInv(s) && k in s.svc.inFlight
    ensures Arrived(s.requests, k, false)
  {
    hide TokensMatch, AnsweredOnce, WindowInv, SoundInv, Bounded, GroupsNamed;
    assert HasKey(s.svc.pendingGroup, k);
    var t :| t in s.svc.pendingGroup && s.svc.pendingGroup[t].requestKey == k;
    assert PendingHasOrigin(s.requests, s.svc.pendingGroup[t]);
  }

  // ---------------------------------------------------------------- a run in which it happens

  const NO_TIME: Clock := Clock(0, 0, 0, "")

  function Members(group: SendParams): MembersResult {
    MembersResult(group.sessionId, "", [group.senderUserId], "grpmsg_1", true, 0, "")
  }

  /** The group send is asked for its members, the private send with the same msgId comes in, the query is served,
      and its result is handled. */
  function BothTypes(group: SendParams, private: SendParams): seq<ServerEvent> {
    [ Send(group, NO_TIME, "srv_1", "grpmsg_1"), Send(private, NO_TIME, "srv_2", "grpmsg_2"),
      Outside(Offline.DatabaseStep(Members(group))), HandleReply(NO_TIME) ]
  }

  predicate SameKeyBothTypes(group: SendParams, private: SendParams) {
    && group.sessionType == "group" && private.sessionType == "private" && private.sessionId == private.expectedSessionId
    && group.msgId == private.msgId && group.senderUserId == private.senderUserId
    && !TooLarge(group.content) && !TooLarge(private.content)
  }

  lemma FourRuns(events: seq<ServerEvent>)
    requires |events| == 4
    requires Possible(Start(), events[0])
    requires Possible(Act(Start(), events[0]), events[1])
    requires Possible(Act(Act(Start(), events[0]), events[1]), events[2])
    requires Possible(Act(Act(Act(Start(), events[0]), events[1]), events[2]), events[3])
    ensures Runs(Start(), events) == Act(Act(Act(Act(Start(), events[0]), events[1]), events[2]), events[3])
  {
    hide Act, Possible;
    assert events[..0] == [];
    RunsNext(events, 0);
    RunsNext(events, 1);
    RunsNext(events, 2);
    RunsNext(events, 3);
    assert events[..4] == events;
  }

  function AfterGroup(group: SendParams): Service {
    ProcessSendMessage(Start().svc, group, NO_TIME, "srv_1", "grpmsg_1").service
  }

  /** Both sends are in; the private one was accepted. */
  ghost predicate BothIn(s: Server, group: SendParams, private: SendParams) {
    var o := ProcessSendMessage(AfterGroup(group), private, NO_TIME, "srv_2", "grpmsg_2");
    && o.inserted.Some? && s.svc == o.service && s.log == [o.inserted.value] && s.doubled == {} && s.clock == 0 && s.notifications == map[]
    && s.off.consumed == 0 && s.off.replies == [] && s.off.handled == 0
    && |s.off.main.posted| > 0 && s.off.main.posted[0] == LoadGroupMembers(group.sessionId, "grpmsg_1")
  }

  lemma GroupAsks(group: SendParams)
    requires group.sessionType == "group" && !TooLarge(group.content)
    ensures var e := Send(group, NO_TIME, "srv_1", "grpmsg_1");
            Possible(Start(), e) &&
            var s := Act(Start(), e);
            && s.off == Start().off.(main := OfflineModel.Post(Start().off.main, LoadGroupMembers(group.sessionId, "grpmsg_1")))
            && s.svc == AfterGroup(group) && s.log == [] && s.doubled == {} && s.clock == 0 && s.notifications == map[]
  {
    hide TooLarge;
    SingleEffect(Start().off, LoadGroupMembers(group.sessionId, "grpmsg_1"));
    hide Offline.Run;
  }

  lemma PrivateOvertakes(s: Server, group: SendParams, private: SendParams)
    requires SameKeyBothTypes(group, private)
    requires s.off == Start().off.(main := OfflineModel.Post(Start().off.main, LoadGroupMembers(group.sessionId, "grpmsg_1")))
    requires s.svc == AfterGroup(group) && s.log == [] && s.doubled == {} && s.clock == 0 && s.notifications == map[]
    ensures var e := Send(private, NO_TIME, "srv_2", "grpmsg_2");
            Possible(s, e) && BothIn(Act(s, e), group, private)
  {
    hide TooLarge, Offline.Run, RequestKeyFor;
    EffectsAdd(s.off, ProcessSendMessage(s.svc, private, NO_TIME, "srv_2", "grpmsg_2").effects);
  }

  lemma QueryServed(s: Server, group: SendParams, private: SendParams)
    requires BothIn(s, group, private)
    ensures var e := Outside(Offline.DatabaseStep(Members(group)));
            Possible(s, e) &&
            var t := Act(s, e);
            && t.svc == s.svc && t.log == s.log && t.doubled == {} && t.clock == 0 && t.notifications == map[]
            && t.off.handled == 0 && t.off.replies == [GroupMembersLoaded(Members(group))]
  {
    hide ProcessSendMessage;
  }

  lemma GroupInserts(group: SendParams, private: SendParams)
    requires SameKeyBothTypes(group, private)
    ensures var key := RequestKeyFor(group.senderUserId, group.msgId);
            var o := ProcessSendMessage(AfterGroup(group), private, NO_TIME, "srv_2", "grpmsg_2");
            var g := OnGroupMembersForMessage(o.service, Members(group), NO_TIME);
            && o.inserted.Some? && o.inserted.value.key == key && o.inserted.value.entry == Entry(200, "", "srv_2", 0)
            && o.inserted.value.accepted.Some? && key in o.service.window.cache
            && g.inserted.Some? && g.inserted.value.key == key && g.inserted.value.entry == Entry(200, "", "srv_1", 0)
            && g.inserted.value.accepted.Some? && g.service.window.order == [key, key]
            && |g.service.acks| == 2 && g.service.acks[0].serverId == "srv_2" && g.service.acks[1].serverId == "srv_1"
            && g.service.acks[0].code == 200 && g.service.acks[1].code == 200
  {
    hide TooLarge, Recipients, Trim, RequestKeyFor;
  }

  lemma GroupFollows(s: Server, group: SendParams, private: SendParams)
    requires SameKeyBothTypes(group, private)
    requires var o := ProcessSendMessage(AfterGroup(group), private, NO_TIME, "srv_2", "grpmsg_2");
             o.inserted.Some? && s.svc == o.service && s.log == [o.inserted.value]
    requires s.doubled == {} && s.clock == 0 && s.notifications == map[]
    requires s.off.handled == 0 && s.off.replies == [GroupMembersLoaded(Members(group))]
    ensures var e := HandleReply(NO_TIME);
            Possible(s, e) && AcceptedTwice(Act(s, e), RequestKeyFor(group.senderUserId, group.msgId))
  {
    GroupInserts(group, private);
    hide TooLarge, Offline.Run, RequestKeyFor, ProcessSendMessage, OnGroupMembersForMessage;
  }

  /** Both sends were accepted, under two server ids, in the same instant, and the key stands twice in the order list. */
  predicate AcceptedTwice(s: Server, key: Key) {
    && |s.log| == 2 && s.log[0].key == s.log[1].key == key && s.log[0].accepted.Some? && s.log[1].accepted.Some?
    && s.log[0].entry == Entry(200, "", "srv_2", 0) && s.log[1].entry == Entry(200, "", "srv_1", 0)
    && |s.svc.acks| == 2 && s.svc.acks[0].serverId == "srv_2" && s.svc.acks[1].serverId == "srv_1"
    && s.svc.acks[0].code == 200 && s.svc.acks[1].code == 200
    && s.svc.window.order == [key, key] && s.doubled == {key}
  }

  /** The promise that a cached answer is repeated fails in this run. */
  lemma MixedTypesAcceptTwice(group: SendParams, private: SendParams)
    requires SameKeyBothTypes(group, private)
    ensures AcceptedTwice(Runs(Start(), BothTypes(group, private)), RequestKeyFor(group.senderUserId, group.msgId))
  {
    hide Act, Possible, Runs, ProcessSendMessage, AcceptedTwice, TooLarge, RequestKeyFor;
    var events := BothTypes(group, private);
    GroupAsks(group);
    var a := Act(Start(), events[0]);
    PrivateOvertakes(a, group, private);
    var b := Act(a, events[1]);
    QueryServed(b, group, private);
    GroupFollows(Act(b, events[2]), group, private);
    FourRuns(events);
  }
}
