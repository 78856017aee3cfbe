/** The server together with the tables of the group repository: what a group message and a membership change bring
    to each member. */
module GroupDelivery {
  import opened Packets
  import opened Wire
  import opened Text
  import opened OfflineModel
  import opened MessageDelivery
  import opened ServerProtocol
  import opened FanOut
  import IdempotencyWindow
  import GroupModel
  import Groups = GroupInvariant
  import GroupSends
  import RequestOrigins
  import Idempotency
  import Query
  import Offline = OfflineProtocol

  // ---------------------------------------------------------------- the loaded list is the member set

  /** A list as long as its set of elements repeats nothing. */
  lemma {:induction false} SizeDistinct(xs: seq<UserId>)
    ensures |Groups.Elements(xs)| <= |xs|
    ensures |Groups.Elements(xs)| == |xs| ==> NoDuplicates(xs)
  {
    if xs != [] {
      var n := |xs| - 1;
      SizeDistinct(xs[..n]);
      assert xs == xs[..n] + [xs[n]];
      assert Groups.Elements(xs) == Groups.Elements(xs[..n]) + {xs[n]};
    }
  }

  lemma LoadedAreMembers(members: seq<GroupModel.Member>, id: string)
    ensures Groups.Elements(GroupModel.MembersOf(members, id)) == Groups.MemberSet(members, id)
    ensures |GroupModel.MembersOf(members, id)| == GroupModel.Count(members, id)
  {
    var kept := Query.Where(members, GroupModel.OfGroup(id));
    var rows := Query.OrderBy(kept, GroupModel.ByJoinTime());
    Query.SameRows(kept, GroupModel.ByJoinTime());
    var users := GroupModel.MembersOf(members, id);
    forall u ensures u in Groups.Elements(users) <==> u in Groups.MemberSet(members, id) {
      if u in users {
        var i :| 0 <= i < |users| && users[i] == u;
        assert rows[i] in rows && rows[i] in members && rows[i].group == id;
      }
      if u in Groups.MemberSet(members, id) {
        var m :| m in members && m.group == id && m.user == u;
        assert m in kept && m in rows;
        var i :| 0 <= i < |rows| && rows[i] == m;
        assert users[i] == u;
      }
    }
  }

  /** The member list that the repository loads names each member of the group, once. */
  lemma LoadedExactly(members: seq<GroupModel.Member>, id: string)
    requires GroupModel.UniqueMembers(members)
    ensures NoDuplicates(GroupModel.MembersOf(members, id))
    ensures forall u :: u in GroupModel.MembersOf(members, id) <==> u in Groups.MemberSet(members, id)
  {
    LoadedAreMembers(members, id);
    Groups.CountIsSize(members, id);
    var users := GroupModel.MembersOf(members, id);
    SizeDistinct(users);
    forall u ensures u in users <==> u in Groups.Elements(users) {
    }
  }

  // ---------------------------------------------------------------- the server on top of the tables

  /** `served` holds, for each reply of the database thread, the tables as they were when it was made. */
  datatype Deployment = Deployment(server: Server, tables: GroupModel.Tables, served: seq<GroupModel.Tables>)

  datatype Event =
    | AtServer(e: ServerEvent)
    | DatabaseServes
    | GroupCall(c: Groups.Call)

  function Begin(users: set<UserId>): Deployment {
    Deployment(Start(), GroupModel.Tables(users, [], []), [])
  }

  /** What the repository finds for the next request, if that is a member query. */
  function Found(d: Deployment): MembersResult
    requires d.server.off.consumed < |d.server.off.main.posted|
  {
    var request := d.server.off.main.posted[d.server.off.consumed];
    if request.LoadGroupMembers? then GroupModel.LoadGroupMembers(d.tables, request.groupId, request.token)
    else GroupModel.LoadGroupMembers(d.tables, "", "")
  }

  ghost predicate Happens(d: Deployment, e: Event) {
    match e
    case AtServer(x) => Possible(d.server, x) && !(x.Outside? && x.e.DatabaseStep?)
    case DatabaseServes => d.server.off.consumed < |d.server.off.main.posted|
    case GroupCall(_) => true
  }

  function Do(d: Deployment, e: Event): Deployment
    requires Happens(d, e)
  {
    match e
    case AtServer(x) => d.(server := Act(d.server, x))
    case GroupCall(c) => d.(tables := Groups.Apply(d.tables, c))
    case DatabaseServes =>
      var server := Act(d.server, Outside(Offline.DatabaseStep(Found(d))));
      Deployment(server, d.tables, if |server.off.replies| > |d.server.off.replies| then d.served + [d.tables] else d.served)
  }

  ghost function History(d: Deployment, events: seq<Event>): Deployment {
    if events == [] then d
    else
      var before := History(d, events[..|events| - 1]);
      var e := events[|events| - 1];
      if Happens(before, e) then Do(before, e) else before
  }

  // ---------------------------------------------------------------- what every run keeps

  /** The member lists in the reply channel are those of the tables at their time. */
  ghost predicate ListsServed(d: Deployment) {
    && |d.served| == |d.server.off.replies|
    && (forall j :: 0 <= j < |d.served| ==> GroupModel.UniqueMembers(d.served[j].members))
    && (forall j :: 0 <= j < |d.served| && d.server.off.replies[j].GroupMembersLoaded? ==>
          var r := d.server.off.replies[j].result;
          r == GroupModel.LoadGroupMembers(d.served[j], r.groupId, r.token))
  }

  ghost predicate NoticesNamed(s: Server) {
    forall t :: t in s.notifications ==> s.notifications[t].packet.msgId != ""
  }

  ghost predicate ServerOk(s: Server) {
    GroupSends.GroupInv(s) && Idempotency.RunInv(s) && NoticesNamed(s)
  }

  lemma NoticesKept(s: Server, e: ServerEvent)
    requires NoticesNamed(s) && Possible(s, e)
    ensures NoticesNamed(Act(s, e))
  {
    hide ProcessSendMessage, OnGroupMembersForMessage, Offline.Step, Offline.Run;
  }

  lemma ServerOkAct(s: Server, e: ServerEvent)
    requires ServerOk(s) && Possible(s, e)
    ensures ServerOk(Act(s, e))
  {
    hide GroupSends.GroupInv, Idempotency.RunInv, NoticesNamed, Act, Possible;
    GroupSends.GroupInvAct(s, e);
    Idempotency.RunInvAct(s, e);
    NoticesKept(s, e);
  }

  lemma RepliesKept(s: Server, e: ServerEvent)
    requires Possible(s, e) && !(e.Outside? && e.e.DatabaseStep?)
    ensures Act(s, e).off.replies == s.off.replies
  {
    hide ProcessSendMessage, Encode, Decode, DeliverAll, Offline.Run;
    match e
    case Outside(_) =>
    case MembershipChanged(_, _, _) =>
    case Send(p, clock, serverId, token) => EffectsAdd(s.off, ProcessSendMessage(s.svc, p, clock, serverId, token).effects);
    case HandleReply(clock) =>
      hide OnGroupMembersForMessage, OnGroupMembersForNotify;
      ActIsOfflineRun(s, e);
      ReplyAdds(s, clock);
  }

  lemma ReplyAdds(s: Server, clock: Clock)
    requires Possible(s, HandleReply(clock))
    ensures Offline.Run(s.off, [Offline.ReplyHandled] + EffectsOfReply(s, clock)).replies == s.off.replies
  {
    hide OnGroupMembersForMessage, OnGroupMembersForNotify, Offline.Run, Encode, Decode, DeliverAll;
    var mid := Offline.Step(s.off, Offline.ReplyHandled);
    assert mid.replies == s.off.replies;
    hide Offline.Step;
    Offline.RunFrom(s.off, Offline.ReplyHandled, EffectsOfReply(s, clock));
    if s.off.replies[s.off.handled].GroupMembersLoaded? {
      var r := s.off.replies[s.off.handled].result;
      EffectsAdd(mid, OnGroupMembersForNotify(s.notifications, r).1);
      EffectsAdd(mid, OnGroupMembersForMessage(s.svc, r, clock).effects);
    } else {
      NothingCaused(mid);
    }
  }

  ghost predicate DeploymentInv(d: Deployment) {
    ServerOk(d.server) && Groups.GroupInv(d.tables) && ListsServed(d)
  }

  lemma ServesList(d: Deployment)
    requires ListsServed(d) && Groups.GroupInv(d.tables) && Happens(d, DatabaseServes)
    ensures Possible(d.server, Outside(Offline.DatabaseStep(Found(d)))) && ListsServed(Do(d, DatabaseServes))
  {
  }

  lemma DeploymentInvDo(d: Deployment, e: Event)
    requires DeploymentInv(d) && Happens(d, e)
    ensures DeploymentInv(Do(d, e))
  {
    hide ServerOk, Groups.GroupInv, Act, Possible;
    match e
    case AtServer(x) =>
      ServerOkAct(d.server, x);
      RepliesKept(d.server, x);
    case GroupCall(c) =>
      Groups.CallFollowsRules(d.tables, c, "");
    case DatabaseServes =>
      ServesList(d);
      ServerOkAct(d.server, Outside(Offline.DatabaseStep(Found(d))));
  }

  lemma {:induction false} DeploymentInvEver(users: set<UserId>, events: seq<Event>)
    ensures DeploymentInv(History(Begin(users), events))
  {
    hide DeploymentInv, Do;
    if events == [] {
      BeginIsOk(users);
    } else {
      var front := events[..|events| - 1];
      DeploymentInvEver(users, front);
      if Happens(History(Begin(users), front), events[|events| - 1]) {
        DeploymentInvDo(History(Begin(users), front), events[|events| - 1]);
      }
    }
  }

  lemma BeginIsOk(users: set<UserId>)
    ensures DeploymentInv(Begin(users))
  {
    Groups.NothingYet(users);
    GroupSends.StartIsGroupInv();
    Idempotency.StartIsRunInv();
  }

  // ---------------------------------------------------------------- each of them, exactly once

  /** From `m` to `later`, each of the users gets one hand-off if online and one enqueue request if not, all for the
      packet, and nobody else gets anything. */
  ghost predicate ReachesOnce(m: Main, later: Main, users: set<UserId>, packet: Packet) {
    && m.sent <= later.sent && m.posted <= later.posted
    && var sent, posted := later.sent[|m.sent|..], later.posted[|m.posted|..];
    && (forall u :: Given(sent, u) == if u in users && Online(m, u) then 1 else 0)
    && (forall u :: Enqueued(posted, u) == if u in users && !Online(m, u) then 1 else 0)
    && (forall h :: h in sent ==> h.packet == packet)
    && (forall r :: r in posted && r.QueueOffline? ==> r.parcel.doc == Encode(packet))
  }

  lemma {:induction false} OnceEach(users: seq<UserId>, u: UserId)
    requires NoDuplicates(users)
    ensures multiset(users)[u] == if u in users then 1 else 0
  {
    if users != [] {
      var n := |users| - 1;
      assert users == users[..n] + [users[n]];
      OnceEach(users[..n], u);
    }
  }

  lemma {:induction false} EnqueuedAfter(first: DbRequest, posted: seq<DbRequest>, u: UserId)
    requires !first.QueueOffline?
    ensures Enqueued([first] + posted, u) == Enqueued(posted, u)
  {
    if posted == [] {
      assert ([first] + posted)[..0] == [];
    } else {
      var n := |posted| - 1;
      assert ([first] + posted)[..n + 1] == [first] + posted[..n];
      EnqueuedAfter(first, posted[..n], u);
    }
  }

  /** `asked` is what the handler posts before the fan-out. */
  lemma FanOutReaches(m: Main, users: seq<UserId>, packet: Packet, asked: seq<DbRequest>, later: Main)
    requires NoDuplicates(users) && |asked| <= 1 && forall i :: 0 <= i < |asked| ==> !asked[i].QueueOffline?
    requires later.sent == m.sent + DirectTo(m, users, packet) && later.posted == m.posted + asked + QueuedFor(m, users, packet)
    ensures ReachesOnce(m, later, Groups.Elements(users), packet)
  {
    hide Encode, Online, FindByUserId, DirectTo, QueuedFor;
    var direct, queued := DirectTo(m, users, packet), QueuedFor(m, users, packet);
    assert later.sent[|m.sent|..] == direct && later.posted[|m.posted|..] == asked + queued;
    FanOutPackets(m, users, packet);
    forall u
      ensures Given(direct, u) == if u in users && Online(m, u) then 1 else 0
      ensures Enqueued(asked + queued, u) == if u in users && !Online(m, u) then 1 else 0
    {
      OnceEach(users, u);
      FanOutCounts(m, users, packet, u);
      if |asked| == 1 { EnqueuedAfter(asked[0], queued, u); assert asked == [asked[0]]; } else { assert asked + queued == queued; }
    }
  }

  lemma {:induction false} SameSessions(m: Main, later: Main, users: seq<UserId>, packet: Packet)
    requires m.connections == later.connections && m.userMap == later.userMap
    ensures DirectTo(m, users, packet) == DirectTo(later, users, packet) && QueuedFor(m, users, packet) == QueuedFor(later, users, packet)
  {
    hide Encode;
    if users != [] { SameSessions(m, later, users[..|users| - 1], packet); }
  }

  /** A fan-out after one request to the message store. */
  lemma StoredAndFannedOut(off: Offline.State, store: StoreRequest, users: seq<UserId>, packet: Packet)
    requires NoDuplicates(users) && packet.msgId != ""
    ensures ReachesOnce(off.main, Offline.Run(off, [Offline.Signal(StoreMessage(store))] + SubmitAll(users, packet)).main, Groups.Elements(users), packet)
  {
    hide Offline.Run, SubmitAll, DirectTo, QueuedFor, ReachesOnce;
    var mid := Offline.Step(off, Offline.Signal(StoreMessage(store)));
    Offline.RunFrom(off, Offline.Signal(StoreMessage(store)), SubmitAll(users, packet));
    FanOutExact(mid, users, packet);
    SameSessions(off.main, mid.main, users, packet);
    FanOutReaches(off.main, users, packet, [StoreMessage(store)], Offline.Run(mid, SubmitAll(users, packet)).main);
  }

  lemma FannedOut(off: Offline.State, users: seq<UserId>, packet: Packet)
    requires NoDuplicates(users) && packet.msgId != ""
    ensures ReachesOnce(off.main, Offline.Run(off, SubmitAll(users, packet)).main, Groups.Elements(users), packet)
  {
    hide Offline.Run, SubmitAll, DirectTo, QueuedFor, ReachesOnce;
    FanOutExact(off, users, packet);
    var later := Offline.Run(off, SubmitAll(users, packet)).main;
    assert later.posted == off.main.posted + [] + QueuedFor(off.main, users, packet);
    FanOutReaches(off.main, users, packet, [], later);
  }

  // ---------------------------------------------------------------- the results

  /** The reply that is handled next, and the tables it was made from. */
  ghost predicate NextReply(d: Deployment, r: MembersResult, clock: Clock) {
    && Possible(d.server, HandleReply(clock)) && d.server.off.replies[d.server.off.handled] == GroupMembersLoaded(r)
    && d.server.off.handled < |d.served|
  }

  lemma ServedReply(d: Deployment, r: MembersResult, clock: Clock)
    requires DeploymentInv(d) && NextReply(d, r, clock)
    ensures var tables := d.served[d.server.off.handled];
            && r == GroupModel.LoadGroupMembers(tables, r.groupId, r.token)
            && NoDuplicates(GroupModel.MembersOf(tables.members, r.groupId))
            && forall u :: u in GroupModel.MembersOf(tables.members, r.groupId) <==> u in Groups.MemberSet(tables.members, r.groupId)
  {
    hide ServerOk, Groups.GroupInv;
    LoadedExactly(d.served[d.server.off.handled].members, r.groupId);
  }

  lemma PendingNames(s: Server, r: MembersResult)
    requires ServerOk(s) && s.off.handled < |s.off.replies| && s.off.replies[s.off.handled] == GroupMembersLoaded(r)
    ensures r.token in s.svc.pendingGroup ==>
              !StartsWith(r.token, NOTIFY_PREFIX) && s.svc.pendingGroup[r.token].groupId == r.groupId
              && s.svc.pendingGroup[r.token].receiveMsg.msgId != ""
    ensures r.token in s.notifications ==> StartsWith(r.token, NOTIFY_PREFIX) && r.token != "" && s.notifications[r.token].packet.msgId != ""
  {
    hide GroupSends.AnsweredOnce, Idempotency.WindowInv, Idempotency.SoundInv, Idempotency.Bounded;
    GroupSends.ReplyReachesAsker(s, r);
    if r.token in s.svc.pendingGroup { assert GroupSends.NamesItsRequest(s.svc.pendingGroup[r.token]); }
  }

  /** What handling the member list of a group send does to the main thread. */
  lemma MessageHandled(s: Server, r: MembersResult, clock: Clock)
    requires Possible(s, HandleReply(clock)) && s.off.replies[s.off.handled] == GroupMembersLoaded(r)
    requires !StartsWith(r.token, NOTIFY_PREFIX)
    ensures Act(s, HandleReply(clock)).off == Offline.Run(s.off.(handled := s.off.handled + 1), OnGroupMembersForMessage(s.svc, r, clock).effects)
  {
    hide OnGroupMembersForMessage, Offline.Run;
  }

  lemma MessageEffects(v: Service, r: MembersResult, clock: Clock)
    requires r.token in v.pendingGroup
    ensures var o := OnGroupMembersForMessage(v, r, clock);
            var p := v.pendingGroup[r.token];
            var packet := WithGroupName(p.receiveMsg, Trim(r.groupName));
            if r.success && p.senderUserId in r.members then
              o.inserted.Some? && o.inserted.value.accepted.Some?
              && o.effects == [Offline.Signal(StoreMessage(o.inserted.value.accepted.value.store))]
                              + SubmitAll(Recipients(r.members, p.senderUserId), packet)
            else o.effects == []
  {
    hide IdempotencyWindow.Prune, Recipients, Trim;
  }

  /** A packet that conveys the request, under the group's name, reaches each of the users once. */
  ghost predicate MessageReaches(requests: set<SendParams>, p: PendingGroupMessage, name: string, m: Main, later: Main, users: set<UserId>) {
    exists q, packet :: q in requests && RequestOrigins.OfRequest(p, q)
      && RequestOrigins.Conveys(packet, q, "group", p.serverId, p.receiveMsg.timestampUtc, name) && ReachesOnce(m, later, users, packet)
  }

  lemma ConveyedReaches(s: Server, p: PendingGroupMessage, name: string, m: Main, later: Main, users: set<UserId>)
    requires RequestOrigins.PendingHasOrigin(s.requests, p) && ReachesOnce(m, later, users, WithGroupName(p.receiveMsg, name))
    ensures MessageReaches(s.requests, p, name, m, later, users)
  {
    hide ReachesOnce;
    var q :| q in s.requests && RequestOrigins.OfRequest(p, q);
    RequestOrigins.Named(p.receiveMsg, q, p.serverId, p.receiveMsg.timestampUtc, name);
    hide RequestOrigins.OfRequest, RequestOrigins.Conveys, WithGroupName;
  }

  lemma PendingOrigin(s: Server, token: Token)
    requires ServerOk(s) && token in s.svc.pendingGroup
    ensures RequestOrigins.PendingHasOrigin(s.requests, s.svc.pendingGroup[token])
  {
    hide GroupSends.GroupInv, Idempotency.WindowInv, Idempotency.SoundInv, Idempotency.Bounded, NoticesNamed;
  }

  function Others(members: set<UserId>, sender: UserId): set<UserId> {
    if sender == "" then members else members - {sender}
  }

  /** The member list of a pending group send is handled next. */
  ghost predicate Handles(s: Server, r: MembersResult, clock: Clock) {
    && Possible(s, HandleReply(clock)) && s.off.handled < |s.off.replies| && s.off.replies[s.off.handled] == GroupMembersLoaded(r)
    && r.token in s.svc.pendingGroup && !StartsWith(r.token, NOTIFY_PREFIX)
  }

  lemma AcceptedReaches(s: Server, r: MembersResult, clock: Clock)
    requires Handles(s, r, clock) && NoDuplicates(r.members) && s.svc.pendingGroup[r.token].receiveMsg.msgId != ""
    requires RequestOrigins.PendingHasOrigin(s.requests, s.svc.pendingGroup[r.token])
    requires r.success && s.svc.pendingGroup[r.token].senderUserId in r.members
    ensures var p := s.svc.pendingGroup[r.token];
            MessageReaches(s.requests, p, Trim(r.groupName), s.off.main, Act(s, HandleReply(clock)).off.main,
                           Others(Groups.Elements(r.members), p.senderUserId))
  {
    hide ReachesOnce, MessageReaches, Act, Possible, OnGroupMembersForMessage, Offline.Run, Trim, Recipients, RequestOrigins.PendingHasOrigin;
    var p := s.svc.pendingGroup[r.token];
    MessageHandled(s, r, clock);
    MessageEffects(s.svc, r, clock);
    RecipientsExact(r.members, p.senderUserId);
    var recipients := Recipients(r.members, p.senderUserId);
    assert Groups.Elements(recipients) == Others(Groups.Elements(r.members), p.senderUserId);
    StoredAndFannedOut(s.off.(handled := s.off.handled + 1), OnGroupMembersForMessage(s.svc, r, clock).inserted.value.accepted.value.store,
                       recipients, WithGroupName(p.receiveMsg, Trim(r.groupName)));
    ConveyedReaches(s, p, Trim(r.groupName), s.off.main, Act(s, HandleReply(clock)).off.main, Groups.Elements(recipients));
  }

  lemma RefusedReachesNobody(s: Server, r: MembersResult, clock: Clock)
    requires Handles(s, r, clock) && !(r.success && s.svc.pendingGroup[r.token].senderUserId in r.members)
    ensures Act(s, HandleReply(clock)).off.main == s.off.main
  {
    hide Act, Possible, OnGroupMembersForMessage, Offline.Run, Trim, Recipients;
    MessageHandled(s, r, clock);
    MessageEffects(s.svc, r, clock);
    NothingCaused(s.off.(handled := s.off.handled + 1));
  }

  /** In every run, when the member list of a group send is handled: if the group exists and the sender is in it, each
      other member, by the tables at the time of the query, gets the message exactly once, as a hand-off or as an
      enqueue request, and nobody else gets anything; otherwise nothing is sent or posted. */
  lemma GroupMessageReachesOnce(users: set<UserId>, events: seq<Event>, r: MembersResult, clock: Clock)
    requires var d := History(Begin(users), events); NextReply(d, r, clock) && r.token in d.server.svc.pendingGroup
    ensures var d := History(Begin(users), events);
            var s, p, tables := d.server, d.server.svc.pendingGroup[r.token], d.served[d.server.off.handled];
            var m, later := s.off.main, Act(s, HandleReply(clock)).off.main;
            var members := Groups.MemberSet(tables.members, p.groupId);
            match GroupModel.FindGroup(tables.groups, p.groupId)
            case Some(g) =>
              if p.senderUserId in members then
                MessageReaches(s.requests, p, Trim(g.name), m, later, Others(members, p.senderUserId))
              else later == m
            case None => later == m
  {
    hide History, DeploymentInv, ServerOk, MessageReaches, Act, Possible, Trim, GroupModel.MembersOf, Groups.MemberSet;
    DeploymentInvEver(users, events);
    var d := History(Begin(users), events);
    var s := d.server;
    ServedReply(d, r, clock);
    NextIsPossible(d, r, clock);
    PendingNames(s, r);
    PendingOrigin(s, r.token);
    var members := Groups.MemberSet(d.served[s.off.handled].members, r.groupId);
    if r.success && s.svc.pendingGroup[r.token].senderUserId in r.members {
      AcceptedReaches(s, r, clock);
      assert Groups.Elements(r.members) == members;
    } else {
      RefusedReachesNobody(s, r, clock);
    }
  }

  lemma NextIsPossible(d: Deployment, r: MembersResult, clock: Clock)
    requires DeploymentInv(d) && NextReply(d, r, clock)
    ensures Possible(d.server, HandleReply(clock)) && ServerOk(d.server)
    ensures d.server.off.handled < |d.server.off.replies| && d.server.off.replies[d.server.off.handled] == GroupMembersLoaded(r)
  {
    hide ServerOk;
  }

  lemma NoticeHandled(s: Server, r: MembersResult, clock: Clock)
    requires Possible(s, HandleReply(clock)) && s.off.replies[s.off.handled] == GroupMembersLoaded(r)
    requires StartsWith(r.token, NOTIFY_PREFIX) && r.token != "" && r.token in s.notifications
    ensures var n := s.notifications[r.token];
            Act(s, HandleReply(clock)).off ==
            Offline.Run(s.off.(handled := s.off.handled + 1),
                        if r.success then SubmitAll(NotifyRecipients(n, r), WithGroupName(n.packet, EffectiveName(n, r))) else [])
  {
    hide Offline.Run;
  }

  /** The notification under the name that was asked for, or else under the group's own. */
  ghost predicate NoticeReaches(n: PendingNotification, groupName: string, m: Main, later: Main, users: set<UserId>) {
    var name := if Trim(n.groupName) != "" then Trim(n.groupName) else Trim(groupName);
    ReachesOnce(m, later, users, if name == "" then n.packet else n.packet.(payload := n.packet.payload["groupName" := JString(name)]))
  }

  lemma NoticeUnderName(n: PendingNotification, r: MembersResult, m: Main, later: Main, users: set<UserId>)
    requires ReachesOnce(m, later, users, WithGroupName(n.packet, EffectiveName(n, r)))
    ensures NoticeReaches(n, r.groupName, m, later, users)
  {
    hide ReachesOnce, Trim;
  }

  /** When the member list for a membership change is handled: if the group still exists, each member, and the user
      who was removed or left, gets the notification exactly once, and nobody else does; otherwise nobody does. */
  lemma NotificationReachesOnce(users: set<UserId>, events: seq<Event>, r: MembersResult, clock: Clock)
    requires var d := History(Begin(users), events); NextReply(d, r, clock) && r.token in d.server.notifications
    ensures var d := History(Begin(users), events);
            var s, n, tables := d.server, d.server.notifications[r.token], d.served[d.server.off.handled];
            var m, later := s.off.main, Act(s, HandleReply(clock)).off.main;
            var members := Groups.MemberSet(tables.members, r.groupId);
            match GroupModel.FindGroup(tables.groups, r.groupId)
            case Some(g) => NoticeReaches(n, g.name, m, later, members + (if n.targetUserId != "" then {n.targetUserId} else {}))
            case None => later == m
  {
    hide History, DeploymentInv, ReachesOnce, NoticeReaches, Act, Possible, OnGroupMembersForMessage, Offline.Run, Trim, EffectiveName;
    DeploymentInvEver(users, events);
    var d := History(Begin(users), events);
    var s := d.server;
    var n := s.notifications[r.token];
    ServedReply(d, r, clock);
    NextIsPossible(d, r, clock);
    PendingNames(s, r);
    NoticeHandled(s, r, clock);
    var mid := s.off.(handled := s.off.handled + 1);
    if r.success {
      NotifyRecipientsExact(n, r);
      var recipients := NotifyRecipients(n, r);
      assert Groups.Elements(recipients) ==
             Groups.MemberSet(d.served[s.off.handled].members, r.groupId) + (if n.targetUserId != "" then {n.targetUserId} else {});
      FannedOut(mid, recipients, WithGroupName(n.packet, EffectiveName(n, r)));
      NoticeUnderName(n, r, s.off.main, Act(s, HandleReply(clock)).off.main, Groups.Elements(recipients));
    } else {
      NothingCaused(mid);
    }
  }
}
