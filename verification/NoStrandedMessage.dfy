/** While a user is online, nothing queued for that user is forgotten. */
module NoStrandedMessage {
  import opened Packets
  import opened Wire
  import opened OfflineModel
  import opened DeliveryLoop
  import opened OfflineProtocol

  /** A LoadOffline(user) at or after position `from` of the request channel. */
  ghost predicate LoadAhead(posted: seq<DbRequest>, from: nat, user: UserId) {
    exists j :: from <= j < |posted| && posted[j] == LoadOffline(user)
  }

  ghost predicate MarkInFlight(s: State, id: nat) {
    exists i :: s.consumed <= i < |s.main.posted| && s.main.posted[i].MarkDelivered? && id in s.main.posted[i].ids
  }

  ghost predicate ResultInFlight(s: State, r: Row) {
    exists i :: s.handled <= i < |s.replies| && Lists(s.replies[i], r)
  }

  predicate Lists(reply: DbReply, r: Row) {
    reply.OfflineLoaded? && reply.user == r.parcel.recipient && QueuedPacket(r.id, r.parcel.doc) in reply.packets
  }

  /** The row waits for its recipient's message_received_ack. */
  predicate AwaitsAck(m: Main, r: Row) {
    var held := Held(m.pendingAckIds, r.parcel.recipient);
    Readable(r.parcel.doc) && PacketIn(r.parcel.doc).msgId in held && held[PacketIn(r.parcel.doc).msgId] == r.id
  }

  ghost predicate Covered(s: State, r: Row) {
    || AwaitsAck(s.main, r)
    || MarkInFlight(s, r.id)
    || LoadAhead(s.main.posted, s.consumed, r.parcel.recipient)
    || ResultInFlight(s, r)
  }

  ghost predicate RowsCovered(s: State) {
    forall r :: r in s.table.rows && Online(s.main, r.parcel.recipient) ==> Covered(s, r)
  }

  ghost predicate EnqueuesCovered(m: Main, consumed: nat) {
    forall k :: consumed <= k < |m.posted| && m.posted[k].QueueOffline? && Online(m, m.posted[k].parcel.recipient) ==>
      LoadAhead(m.posted, k + 1, m.posted[k].parcel.recipient)
  }

  ghost predicate NothingStranded(s: State) {
    RowsCovered(s) && EnqueuesCovered(s.main, s.consumed)
  }

  // ---------------------------------------------------------------- handlers that only append

  /** `later` extends the logs of `s` and serves no request or reply. */
  ghost predicate OnlyAppends(s: State, later: State) {
    && s.consumed == later.consumed && s.handled == later.handled && s.replies == later.replies
    && s.main.posted <= later.main.posted
  }

  lemma StaysCovered(s: State, later: State, r: Row)
    requires OnlyAppends(s, later) && Covered(s, r)
    requires AwaitsAck(s.main, r) ==> AwaitsAck(later.main, r) || MarkInFlight(later, r.id)
    ensures Covered(later, r)
  {
  }

  /** Requests posted at the end, none of them an enqueue for somebody online. */
  lemma EnqueuesStayCovered(m: Main, later: Main, consumed: nat)
    requires EnqueuesCovered(m, consumed) && m.posted <= later.posted
    requires forall k :: |m.posted| <= k < |later.posted| && later.posted[k].QueueOffline? ==>
               !Online(later, later.posted[k].parcel.recipient)
    requires forall k :: consumed <= k < |m.posted| && m.posted[k].QueueOffline? ==>
               var u := m.posted[k].parcel.recipient;
               Online(later, u) ==> Online(m, u) || LoadAhead(later.posted, k + 1, u)
    ensures EnqueuesCovered(later, consumed)
  {
  }

  lemma StrandedNoneConnect(s: State, conn: ConnId)
    requires RowInv(s) && NothingStranded(s) && Enabled(s, Connected(conn))
    ensures NothingStranded(Step(s, Connected(conn)))
  {
    hide Decode;
    var t := Step(s, Connected(conn));
    forall u ensures Online(t.main, u) <==> Online(s.main, u) {
      if u in s.main.userMap { assert (s.main.userMap[u], u) in s.hist.logins; }
    }
    forall r | r in t.table.rows && Online(t.main, r.parcel.recipient) ensures Covered(t, r) {
      StaysCovered(s, t, r);
    }
    EnqueuesStayCovered(s.main, t.main, s.consumed);
  }

  /** Detaching may take a user offline, and forgets entries only of a user it takes offline. */
  lemma StrandedNoneDisconnect(s: State, conn: ConnId)
    requires NothingStranded(s)
    ensures NothingStranded(Step(s, Disconnected(conn)))
  {
  }

  lemma StrandedNoneLogin(s: State, conn: ConnId, user: UserId)
    requires NothingStranded(s) && s.consumed <= |s.main.posted| && Enabled(s, LoggedIn(conn, user))
    ensures NothingStranded(Step(s, LoggedIn(conn, user)))
  {
    hide Decode;
    var t := Step(s, LoggedIn(conn, user));
    var n := |s.main.posted|;
    assert t.main.posted[n] == LoadOffline(user);
    forall r | r in t.table.rows && Online(t.main, r.parcel.recipient) ensures Covered(t, r) {
      if r.parcel.recipient == user {
        assert LoadAhead(t.main.posted, t.consumed, user);
      } else {
        assert Online(s.main, r.parcel.recipient);
        StaysCovered(s, t, r);
      }
    }
    EnqueuesStayCovered(s.main, t.main, s.consumed);
  }

  lemma StrandedNoneSubmit(s: State, recipient: UserId, packet: Packet)
    requires NothingStranded(s) && Enabled(s, Submit(recipient, packet))
    ensures NothingStranded(Step(s, Submit(recipient, packet)))
  {
    hide Decode, Encode;
    var t := Step(s, Submit(recipient, packet));
    forall r | r in t.table.rows && Online(t.main, r.parcel.recipient) ensures Covered(t, r) {
      StaysCovered(s, t, r);
    }
    EnqueuesStayCovered(s.main, t.main, s.consumed);
  }

  lemma StrandedNoneSignal(s: State, request: DbRequest)
    requires NothingStranded(s) && Enabled(s, Signal(request))
    ensures NothingStranded(Step(s, Signal(request)))
  {
    hide Decode;
    var t := Step(s, Signal(request));
    forall r | r in t.table.rows && Online(t.main, r.parcel.recipient) ensures Covered(t, r) {
      StaysCovered(s, t, r);
    }
    EnqueuesStayCovered(s.main, t.main, s.consumed);
  }

  /** An acknowledged row has its deletion posted in the same handler. */
  lemma StrandedNoneAck(s: State, user: UserId, msgId: MsgId)
    requires NothingStranded(s) && s.consumed <= |s.main.posted|
    ensures NothingStranded(Step(s, AckArrived(user, msgId)))
  {
    hide Decode;
    var t := Step(s, AckArrived(user, msgId));
    forall r | r in t.table.rows && Online(t.main, r.parcel.recipient) ensures Covered(t, r) {
      if AwaitsAck(s.main, r) && !AwaitsAck(t.main, r) {
        assert t.main.posted[|s.main.posted|] == MarkDelivered([r.id]);
        assert MarkInFlight(t, r.id);
      }
      StaysCovered(s, t, r);
    }
    EnqueuesStayCovered(s.main, t.main, s.consumed);
  }

  // ---------------------------------------------------------------- the database thread

  /** Serving one request keeps a row covered, unless that request was what covered it. */
  lemma StaysCoveredWhenServed(s: State, t: State, r: Row)
    requires s.consumed < |s.main.posted| && Covered(s, r)
    requires t.main == s.main && t.consumed == s.consumed + 1 && t.handled == s.handled && s.replies <= t.replies
    requires s.main.posted[s.consumed].MarkDelivered? ==> r.id !in s.main.posted[s.consumed].ids
    requires s.main.posted[s.consumed] == LoadOffline(r.parcel.recipient) ==> ResultInFlight(t, r)
    ensures Covered(t, r)
  {
  }

  lemma StrandedNoneDatabase(s: State, members: MembersResult)
    requires NothingStranded(s) && s.consumed < |s.main.posted| && s.handled <= |s.replies|
    ensures NothingStranded(DatabaseStepped(s, members))
  {
    hide Decode;
    var t := DatabaseStepped(s, members);
    var request := s.main.posted[s.consumed];
    forall r | r in t.table.rows && Online(t.main, r.parcel.recipient) ensures Covered(t, r) {
      if r in s.table.rows {
        if request == LoadOffline(r.parcel.recipient) {
          assert QueuedPacket(r.id, r.parcel.doc) in Select(s.table.rows, r.parcel.recipient);
          assert Lists(t.replies[|s.replies|], r);
        }
        StaysCoveredWhenServed(s, t, r);
      } else {
        assert request.QueueOffline? && r.parcel == request.parcel;
        assert LoadAhead(s.main.posted, s.consumed + 1, r.parcel.recipient);
      }
    }
  }

  // ---------------------------------------------------------------- a load result arrives

  /** A row listed for an online user is held pending, or its deletion is posted. */
  lemma ListedRowIsCovered(s: State, user: UserId, packets: seq<QueuedPacket>, t: State, r: Row)
    requires AllReadable(packets) && Online(s.main, user) && s.consumed <= |s.main.posted|
    requires t.main == OnOfflineLoaded(s.main, user, packets) && t.consumed == s.consumed
    requires Lists(OfflineLoaded(user, packets), r)
    ensures AwaitsAck(t.main, r) || MarkInFlight(t, r.id)
  {
    hide Decode, DeliverAll;
    var pending := s.main.pendingAckIds;
    var p := DeliverAll(pending, user, true, packets);
    var items := Items(packets);
    LoopIsPass(pending, user, packets);
    var i :| 0 <= i < |packets| && packets[i] == QueuedPacket(r.id, r.parcel.doc);
    if Removable(Held(pending, user), items, i) {
      RemovableIsReported(Held(pending, user), items, i);
      assert t.main.posted[|s.main.posted|] == MarkDelivered(p.removable);
      assert MarkInFlight(t, r.id);
    } else {
      UnshadowedIsSent(Held(pending, user), items, i);
      assert items[i].packet == PacketIn(r.parcel.doc);
    }
  }

  lemma AwaitingStays(s: State, user: UserId, packets: seq<QueuedPacket>, r: Row)
    requires AllReadable(packets) && AwaitsAck(s.main, r)
    ensures AwaitsAck(OnOfflineLoaded(s.main, user, packets), r)
  {
    hide Decode, DeliverAll;
    var pending := s.main.pendingAckIds;
    if r.parcel.recipient != user {
      OtherUsersKept(pending, user, Online(s.main, user), packets, r.parcel.recipient);
    } else if Online(s.main, user) {
      LoopIsPass(pending, user, packets);
      HeldAfter(Held(pending, user), Items(packets));
    } else {
      DeliveredOffline(pending, user, packets);
    }
  }

  lemma StrandedNoneReply(s: State)
    requires RowInv(s) && NothingStranded(s) && s.handled < |s.replies|
    ensures NothingStranded(Step(s, ReplyHandled))
  {
    hide Decode, DeliverAll, ResultOk;
    var t := Step(s, ReplyHandled);
    forall r | r in t.table.rows && Online(t.main, r.parcel.recipient) ensures Covered(t, r) {
      RowCoveredAfterReply(s, r);
    }
    EnqueuesStayCovered(s.main, t.main, s.consumed);
  }

  lemma RowCoveredAfterReply(s: State, r: Row)
    requires RowInv(s) && s.handled < |s.replies| && Covered(s, r) && Online(s.main, r.parcel.recipient)
    ensures Covered(Step(s, ReplyHandled), r)
  {
    hide Decode, DeliverAll;
    var t := Step(s, ReplyHandled);
    var reply := s.replies[s.handled];
    if reply.OfflineLoaded? {
      ReadableResult(s, reply.user, reply.packets);
      if AwaitsAck(s.main, r) && reply.packets != [] { AwaitingStays(s, reply.user, reply.packets, r); }
      if Lists(reply, r) { ListedRowIsCovered(s, reply.user, reply.packets, t, r); }
    }
    CoveredAfterReply(s, t, r);
  }

  lemma CoveredAfterReply(s: State, t: State, r: Row)
    requires s.handled < |s.replies| && Covered(s, r)
    requires t.consumed == s.consumed && t.handled == s.handled + 1 && t.replies == s.replies && s.main.posted <= t.main.posted
    requires AwaitsAck(s.main, r) ==> AwaitsAck(t.main, r)
    requires Lists(s.replies[s.handled], r) ==> AwaitsAck(t.main, r) || MarkInFlight(t, r.id)
    ensures Covered(t, r)
  {
  }

  // ---------------------------------------------------------------- every run

  lemma NothingStrandedStep(s: State, e: Event)
    requires RowInv(s) && NothingStranded(s) && Enabled(s, e)
    ensures NothingStranded(Step(s, e))
  {
    match e
    case Connected(conn) => StrandedNoneConnect(s, conn);
    case Disconnected(conn) => StrandedNoneDisconnect(s, conn);
    case LoggedIn(conn, user) => StrandedNoneLogin(s, conn, user);
    case Submit(recipient, packet) => StrandedNoneSubmit(s, recipient, packet);
    case AckArrived(user, msgId) => StrandedNoneAck(s, user, msgId);
    case Signal(request) => StrandedNoneSignal(s, request);
    case DatabaseStep(members) => StrandedNoneDatabase(s, members);
    case ReplyHandled => StrandedNoneReply(s);
  }

  lemma {:induction false} NothingStrandedEver(s: State, events: seq<Event>)
    requires RowInv(s) && NothingStranded(s)
    ensures RowInv(Run(s, events)) && NothingStranded(Run(s, events))
  {
    if events != [] {
      var before := Run(s, events[..|events| - 1]);
      var e := events[|events| - 1];
      NothingStrandedEver(s, events[..|events| - 1]);
      if Enabled(before, e) {
        RowInvStep(before, e);
        NothingStrandedStep(before, e);
      }
    }
  }

  /** Once everything posted has been served and handled, the rows left for an online user are exactly
      the rows that wait for that user's acknowledgement. */
  lemma QuiescentRowsAwaitAcks(events: seq<Event>, r: Row)
    requires var s := Run(Initial(), events);
             && s.consumed == |s.main.posted| && s.handled == |s.replies|
             && Online(s.main, r.parcel.recipient) && r in s.table.rows
    ensures AwaitsAck(Run(Initial(), events).main, r)
  {
    NothingStrandedEver(Initial(), events);
  }
}
