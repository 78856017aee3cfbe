/** Every run of the server is a run of the offline protocol, and a fan-out reaches each recipient once. */
module FanOut {
  import opened Packets
  import opened Wire
  import opened OfflineModel
  import opened MessageDelivery
  import opened ServerProtocol
  import Offline = OfflineProtocol

  // ---------------------------------------------------------------- the server runs the offline protocol

  function EffectsOfReply(s: Server, clock: Clock): seq<Offline.Event>
    requires s.off.handled < |s.off.replies|
  {
    match s.off.replies[s.off.handled]
    case OfflineLoaded(_, _) => []
    case GroupMembersLoaded(r) =>
      if Text.StartsWith(r.token, NOTIFY_PREFIX) then OnGroupMembersForNotify(s.notifications, r).1
      else OnGroupMembersForMessage(s.svc, r, clock).effects
  }

  /** The events that one step of the server causes in the offline protocol. */
  ghost function Caused(s: Server, e: ServerEvent): seq<Offline.Event>
    requires Possible(s, e)
  {
    match e
    case Outside(o) => [o]
    case Send(p, clock, serverId, token) => ProcessSendMessage(s.svc, p, clock, serverId, token).effects
    case MembershipChanged(groupId, token, _) => [Offline.Signal(LoadGroupMembers(groupId, token))]
    case HandleReply(clock) => [Offline.ReplyHandled] + EffectsOfReply(s, clock)
  }

  lemma ActIsOfflineRun(s: Server, e: ServerEvent)
    requires Possible(s, e)
    ensures Act(s, e).off == Offline.Run(s.off, Caused(s, e))
  {
    hide Offline.Step, Offline.Run, ProcessSendMessage, OnGroupMembersForMessage, OnGroupMembersForNotify;
    match e
    case Outside(o) => Offline.OneEvent(s.off, o);
    case MembershipChanged(groupId, token, _) => Offline.OneEvent(s.off, Offline.Signal(LoadGroupMembers(groupId, token)));
    case Send(_, _, _, _) =>
    case HandleReply(clock) =>
      Offline.OneEvent(s.off, Offline.ReplyHandled);
      Offline.RunTogether(s.off, [Offline.ReplyHandled], EffectsOfReply(s, clock));
      NothingCaused(Offline.Step(s.off, Offline.ReplyHandled));
  }

  lemma NothingCaused(s: Offline.State)
    ensures Offline.Run(s, []) == s
  {
  }

  /** So everything proved of every run of the offline protocol holds in every run of the server. */
  lemma {:induction false} ServerRunsOffline(events: seq<ServerEvent>) returns (es: seq<Offline.Event>)
    ensures Runs(Start(), events).off == Offline.Run(Offline.Initial(), es)
  {
    hide Offline.Step, Offline.Run, Act;
    if events == [] {
      es := [];
      NothingCaused(Offline.Initial());
    } else {
      var before := Runs(Start(), events[..|events| - 1]);
      var e := events[|events| - 1];
      es := ServerRunsOffline(events[..|events| - 1]);
      if Possible(before, e) {
        ActIsOfflineRun(before, e);
        Offline.RunTogether(Offline.Initial(), es, Caused(before, e));
        es := es + Caused(before, e);
      }
    }
  }

  // ---------------------------------------------------------------- each recipient, exactly once

  /** The hand-offs to the recipients who are online. */
  function DirectTo(m: Main, users: seq<UserId>, packet: Packet): seq<Handoff> {
    if users == [] then []
    else
      var front, u := DirectTo(m, users[..|users| - 1], packet), users[|users| - 1];
      match FindByUserId(m, u)
      case Some(conn) => front + [Handoff(conn, m.connections[conn], u, packet)]
      case None => front
  }

  /** The enqueue requests for the others. */
  function QueuedFor(m: Main, users: seq<UserId>, packet: Packet): seq<DbRequest> {
    if users == [] then []
    else
      var front, u := QueuedFor(m, users[..|users| - 1], packet), users[|users| - 1];
      if Online(m, u) then front else front + [QueueOffline(Parcel(u, Encode(packet)))]
  }

  lemma OneSubmit(s: Offline.State, u: UserId, packet: Packet)
    requires packet.msgId != ""
    ensures Offline.Step(s, Offline.Submit(u, packet)).main ==
            match FindByUserId(s.main, u)
            case Some(conn) => s.main.(sent := s.main.sent + [Handoff(conn, s.main.connections[conn], u, packet)])
            case None => s.main.(posted := s.main.posted + [QueueOffline(Parcel(u, Encode(packet)))])
  {
  }

  /** A fan-out makes one hand-off for each recipient online and one enqueue request for each other, in order,
      and changes nothing else of the main thread. */
  lemma {:induction false} FanOutExact(off: Offline.State, users: seq<UserId>, packet: Packet)
    requires packet.msgId != ""
    ensures Offline.Run(off, SubmitAll(users, packet)).main ==
            off.main.(sent := off.main.sent + DirectTo(off.main, users, packet),
                      posted := off.main.posted + QueuedFor(off.main, users, packet))
  {
    hide Encode, Login, ReceivedAck, OnOfflineLoaded, Detach, Attach;
    if users != [] {
      var n := |users| - 1;
      var before := Offline.Run(off, SubmitAll(users[..n], packet));
      assert SubmitAll(users, packet)[..n] == SubmitAll(users[..n], packet);
      FanOutExact(off, users[..n], packet);
      OneSubmit(before, users[n], packet);
      assert FindByUserId(before.main, users[n]) == FindByUserId(off.main, users[n]);
      hide Offline.Step, FindByUserId;
    }
  }

  /** How many of the hand-offs are for a user. */
  function Given(sent: seq<Handoff>, u: UserId): nat {
    if sent == [] then 0 else Given(sent[..|sent| - 1], u) + (if sent[|sent| - 1].user == u then 1 else 0)
  }

  predicate Enqueues(request: DbRequest, u: UserId) {
    request.QueueOffline? && request.parcel.recipient == u
  }

  /** How many of the requests queue something for a user. */
  function Enqueued(posted: seq<DbRequest>, u: UserId): nat {
    if posted == [] then 0 else Enqueued(posted[..|posted| - 1], u) + (if Enqueues(posted[|posted| - 1], u) then 1 else 0)
  }

  /** Each user gets as many packets as the list of recipients names that user: handed over when online, queued
      otherwise. */
  lemma {:induction false} FanOutCounts(m: Main, users: seq<UserId>, packet: Packet, u: UserId)
    ensures Given(DirectTo(m, users, packet), u) == if Online(m, u) then multiset(users)[u] else 0
    ensures Enqueued(QueuedFor(m, users, packet), u) == if Online(m, u) then 0 else multiset(users)[u]
  {
    hide Encode;
    if users != [] {
      var n := |users| - 1;
      assert users == users[..n] + [users[n]];
      FanOutCounts(m, users[..n], packet, u);
      GivenMore(m, users, packet, u);
      EnqueuedMore(m, users, packet, u);
    }
  }

  lemma GivenMore(m: Main, users: seq<UserId>, packet: Packet, u: UserId)
    requires users != []
    ensures var n := |users| - 1;
            Given(DirectTo(m, users, packet), u) == Given(DirectTo(m, users[..n], packet), u) + if users[n] == u && Online(m, u) then 1 else 0
  {
    var front, all := DirectTo(m, users[..|users| - 1], packet), DirectTo(m, users, packet);
    if all != front { assert all[..|front|] == front; }
  }

  lemma EnqueuedMore(m: Main, users: seq<UserId>, packet: Packet, u: UserId)
    requires users != []
    ensures var n := |users| - 1;
            Enqueued(QueuedFor(m, users, packet), u) == Enqueued(QueuedFor(m, users[..n], packet), u) + if users[n] == u && !Online(m, u) then 1 else 0
  {
    hide Encode;
    var front, all := QueuedFor(m, users[..|users| - 1], packet), QueuedFor(m, users, packet);
    if all != front { assert all[..|front|] == front; }
  }

  /** And it is this packet that they get. */
  lemma {:induction false} FanOutPackets(m: Main, users: seq<UserId>, packet: Packet)
    ensures forall h :: h in DirectTo(m, users, packet) ==> h.packet == packet
    ensures forall r :: r in QueuedFor(m, users, packet) ==> r.QueueOffline? && r.parcel.doc == Encode(packet)
  {
    hide Encode;
    if users != [] { FanOutPackets(m, users[..|users| - 1], packet); }
  }
}
