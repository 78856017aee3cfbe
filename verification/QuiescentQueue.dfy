/** What the queue holds once both channels are empty. */
module QuiescentQueue {
  import opened Packets
  import opened Wire
  import opened OfflineModel
  import opened DeliveryLoop
  import opened OfflineProtocol
  import opened OfflineLedger
  import opened NoStrandedMessage

  // ---------------------------------------------------------------- rows and the deletions that were posted

  ghost predicate MarkedIn(posted: seq<DbRequest>, n: nat, id: nat)
    requires n <= |posted|
  {
    exists i :: 0 <= i < n && posted[i].MarkDelivered? && id in posted[i].ids
  }

  /** A deletion of the row was posted, served or not. */
  ghost predicate MarkPosted(s: State, id: nat) {
    MarkedIn(s.main.posted, |s.main.posted|, id)
  }

  /** A row is in the table until a deletion of it is served. */
  ghost predicate RowsUntilMarked(s: State) {
    && s.consumed <= |s.main.posted|
    && forall r :: r in s.hist.issued ==> (r in s.table.rows <==> !MarkedIn(s.main.posted, s.consumed, r.id))
  }

  lemma MarkedMore(posted: seq<DbRequest>, n: nat, id: nat)
    requires n < |posted|
    ensures MarkedIn(posted, n + 1, id) <==> MarkedIn(posted, n, id) || (posted[n].MarkDelivered? && id in posted[n].ids)
  {
  }

  lemma MarkedLonger(posted: seq<DbRequest>, longer: seq<DbRequest>, n: nat, id: nat)
    requires n <= |posted| && posted <= longer
    ensures MarkedIn(longer, n, id) <==> MarkedIn(posted, n, id)
  {
  }

  lemma MarkedAreIssued(s: State, n: nat, id: nat)
    requires RowInv(s) && n <= |s.main.posted| && MarkedIn(s.main.posted, n, id)
    ensures 1 <= id <= |s.hist.issued|
  {
    var i :| 0 <= i < n && s.main.posted[i].MarkDelivered? && id in s.main.posted[i].ids;
    assert AllHanded(s.main.posted[i].ids, s.hist.issued, s.main.sent);
    assert RowHanded(s.hist.issued, s.main.sent, id);
  }

  lemma RowsUntilMarkedDatabase(s: State, members: MembersResult)
    requires RowInv(s) && RowsUntilMarked(s) && s.consumed < |s.main.posted|
    ensures RowsUntilMarked(DatabaseStepped(s, members))
  {
    hide Decode;
    var t := DatabaseStepped(s, members);
    var request := s.main.posted[s.consumed];
    forall r | r in t.hist.issued ensures r in t.table.rows <==> !MarkedIn(t.main.posted, t.consumed, r.id) {
      MarkedMore(s.main.posted, s.consumed, r.id);
      if r !in s.hist.issued {
        assert r == Row(s.table.nextId, request.parcel);
        if MarkedIn(s.main.posted, s.consumed, r.id) { MarkedAreIssued(s, s.consumed, r.id); }
      } else if request.QueueOffline? {
        var i :| 0 <= i < |s.hist.issued| && s.hist.issued[i] == r;
        assert r.id == i + 1;
      }
    }
  }

  lemma OthersKeepRows(s: State, e: Event)
    requires Enabled(s, e) && !e.DatabaseStep?
    ensures var t := Step(s, e);
            t.table == s.table && t.hist.issued == s.hist.issued && t.consumed == s.consumed && s.main.posted <= t.main.posted
  {
    hide Decode, Encode, DeliverAll;
  }

  lemma RowsUntilMarkedStep(s: State, e: Event)
    requires RowInv(s) && RowsUntilMarked(s) && Enabled(s, e)
    ensures RowsUntilMarked(Step(s, e))
  {
    if e.DatabaseStep? {
      RowsUntilMarkedDatabase(s, e.members);
    } else {
      OthersKeepRows(s, e);
      hide Step, RowInv;
      var t := Step(s, e);
      forall r | r in t.hist.issued ensures r in t.table.rows <==> !MarkedIn(t.main.posted, t.consumed, r.id) {
        MarkedLonger(s.main.posted, t.main.posted, s.consumed, r.id);
      }
    }
  }

  lemma {:induction false} RowsUntilMarkedEver(events: seq<Event>)
    ensures RowInv(Run(Initial(), events)) && RowsUntilMarked(Run(Initial(), events))
  {
    hide RowInv, Step;
    LedgerHolds(events);
    if events != [] {
      var front, e := events[..|events| - 1], events[|events| - 1];
      RowsUntilMarkedEver(front);
      if Enabled(Run(Initial(), front), e) { RowsUntilMarkedStep(Run(Initial(), front), e); }
    }
  }

  // ---------------------------------------------------------------- when an entry outlives its row

  /** The row stands at position `i` of the load result, its msgId is held already, and the loop gets that far. */
  ghost predicate ReloadedWhileHeld(s: State, user: UserId, packets: seq<QueuedPacket>, i: nat)
    requires i < |packets| && NeedsAckDoc(packets[i].doc)
  {
    var before := Held(s.main.pendingAckIds, user);
    PacketIn(packets[i].doc).msgId in before && (Online(s.main, user) || AllTaken(before, packets, i + 1))
  }

  ghost predicate ListsRow(packets: seq<QueuedPacket>, i: nat, id: nat) {
    i < |packets| && packets[i].id == id && NeedsAckDoc(packets[i].doc)
  }

  /** The event handles a load result that lists the row, while its msgId is held or while its deletion is posted. */
  ghost predicate Spoils(s: State, e: Event, id: nat) {
    && e.ReplyHandled? && s.handled < |s.replies| && s.replies[s.handled].OfflineLoaded?
    && var r := s.replies[s.handled];
    exists i :: ListsRow(r.packets, i, id) && (MarkPosted(s, id) || ReloadedWhileHeld(s, r.user, r.packets, i))
  }

  ghost predicate Spoiled(events: seq<Event>, id: nat) {
    events != [] && var front := events[..|events| - 1];
    Spoiled(front, id) || Spoils(Run(Initial(), front), events[|events| - 1], id)
  }

  lemma MarkStays(s: State, e: Event, id: nat)
    requires Enabled(s, e) && MarkPosted(s, id)
    ensures MarkPosted(Step(s, e), id)
  {
    assert s.main.posted <= Step(s, e).main.posted by {
      hide Decode, Encode, DeliverAll;
    }
    hide Step;
  }

  /** Such an event has the deletion posted. */
  lemma SpoilsPosts(s: State, e: Event, id: nat)
    requires RowInv(s) && Spoils(s, e, id)
    ensures Enabled(s, e) && MarkPosted(Step(s, e), id)
  {
    if MarkPosted(s, id) {
      MarkStays(s, e, id);
    } else {
      var r := s.replies[s.handled];
      assert ResultOk(r.user, r.packets, s.hist.issued);
      ReadableResult(s, r.user, r.packets);
      hide RowInv, Decode, DeliverAll, NeedsAckDoc, AllTaken;
      var i :| ListsRow(r.packets, i, id) && ReloadedWhileHeld(s, r.user, r.packets, i);
      UnackedRemovalIff(s.main.pendingAckIds, r.user, Online(s.main, r.user), r.packets, i);
      var t := Step(s, e);
      assert t.main.posted[|s.main.posted|].MarkDelivered? && id in t.main.posted[|s.main.posted|].ids;
    }
  }

  predicate HeldAs(m: Main, user: UserId, msgId: MsgId, id: nat) {
    msgId in Held(m.pendingAckIds, user) && Held(m.pendingAckIds, user)[msgId] == id
  }

  lemma EntryIsOk(s: State, u: UserId, m: MsgId)
    requires RowInv(s) && m in Held(s.main.pendingAckIds, u)
    ensures EntryOk(s.hist.issued, s.main.sent, u, m, Held(s.main.pendingAckIds, u)[m])
  {
  }

  lemma OneEntryPerRow(issued: seq<Row>, sent: seq<Handoff>, u: UserId, m: MsgId, u': UserId, m': MsgId, id: nat)
    requires EntryOk(issued, sent, u, m, id) && EntryOk(issued, sent, u', m', id)
    ensures u == u' && m == m'
  {
  }

  /** Acknowledging posts the deletion of the one row whose entry it removes. */
  lemma AckSparesOthers(s: State, user: UserId, msgId: MsgId, u: UserId, m: MsgId, id: nat)
    requires RowInv(s)
    requires var t := Step(s, AckArrived(user, msgId)); HeldAs(t.main, u, m, id) && MarkPosted(t, id)
    ensures HeldAs(s.main, u, m, id) && MarkPosted(s, id)
  {
    hide Decode, RowInv, EntryOk;
    var t := Step(s, AckArrived(user, msgId));
    EntryIsOk(s, u, m);
    if user != "" && msgId != "" && msgId in Held(s.main.pendingAckIds, user) {
      EntryIsOk(s, user, msgId);
      var gone := s.main.pendingAckIds[user][msgId];
      if gone == id { OneEntryPerRow(s.hist.issued, s.main.sent, u, m, user, msgId, id); }
      MarkedMore(t.main.posted, |s.main.posted|, id);
      MarkedLonger(s.main.posted, t.main.posted, |s.main.posted|, id);
    }
  }

  /** A msgId that was not held before is held for the first row that uses it. */
  lemma NewEntryIsUnshadowed(before: map<MsgId, nat>, packets: seq<QueuedPacket>, m: MsgId, i: nat)
    requires AllReadable(packets) && InIdOrder(packets) && i < |packets|
    requires m !in before && m in PassAll(before, Items(packets)).held
    requires packets[i].id == PassAll(before, Items(packets)).held[m]
    ensures !Shadowed(before, Items(packets), i)
  {
    hide PassAll, Decode;
    var items := Items(packets);
    HeldAfter(before, items);
    var j := FirstMention(items, m);
    UnshadowedIsSent(before, items, j);
    assert packets[j].id == packets[i].id;
  }

  lemma ReportedIff(before: map<MsgId, nat>, packets: seq<QueuedPacket>, i: nat)
    requires AllReadable(packets) && InIdOrder(packets) && i < |packets|
    ensures packets[i].id in PassAll(before, Items(packets)).removable <==> Removable(before, Items(packets), i)
  {
    hide PassAll, Decode;
    var items := Items(packets);
    if Removable(before, items, i) { RemovableIsReported(before, items, i); }
    if packets[i].id in PassAll(before, items).removable {
      ReportedIsRemovable(before, items, packets[i].id);
      var k :| 0 <= k < |items| && items[k].id == packets[i].id && Removable(before, items, k);
      assert k == i;
    }
  }

  /** An entry that a load result makes: its row is listed, and the same result does not report the row. */
  lemma NewEntryListed(pending: Pending, user: UserId, packets: seq<QueuedPacket>, m: MsgId) returns (i: nat)
    requires AllReadable(packets) && InIdOrder(packets)
    requires var p := DeliverAll(pending, user, true, packets); m in Held(p.pending, user) && m !in Held(pending, user)
    ensures var p := DeliverAll(pending, user, true, packets);
            ListsRow(packets, i, Held(p.pending, user)[m]) && Held(p.pending, user)[m] !in p.removable
  {
    hide Decode, DeliverAll, PassAll;
    var before, items := Held(pending, user), Items(packets);
    LoopIsPass(pending, user, packets);
    NewEntriesWereSent(before, items, m);
    var id := PassAll(before, items).held[m];
    i :| 0 <= i < |items| && items[i].id == id && items[i].NeedsAck() && items[i].packet.msgId == m;
    NewEntryIsUnshadowed(before, packets, m, i);
    ReportedIff(before, packets, i);
  }

  lemma ListedEntry(issued: seq<Row>, sent: seq<Handoff>, user: UserId, q: QueuedPacket, u: UserId, m: MsgId)
    requires WasIssued(Row(q.id, Parcel(user, q.doc)), issued) && EntryOk(issued, sent, u, m, q.id)
    ensures u == user && NeedsAckDoc(q.doc) && PacketIn(q.doc).msgId == m
  {
  }

  /** A row reported by a load result although it is held: the result lists it, and its msgId was held before. */
  lemma ReportedWhileHeld(s: State, user: UserId, packets: seq<QueuedPacket>, u: UserId, m: MsgId, id: nat) returns (i: nat)
    requires RowInv(s) && ResultOk(user, packets, s.hist.issued) && AllReadable(packets)
    requires HeldAs(s.main, u, m, id)
    requires id in DeliverAll(s.main.pendingAckIds, user, Online(s.main, user), packets).removable
    ensures ListsRow(packets, i, id) && ReloadedWhileHeld(s, user, packets, i)
  {
    hide RowInv, Decode, DeliverAll, EntryOk, WasIssued, NeedsAckDoc, AllTaken, Online;
    i := ReportedPosition(s.main.pendingAckIds, user, Online(s.main, user), packets, id);
    assert packets[i] in packets;
    EntryIsOk(s, u, m);
    ListedEntry(s.hist.issued, s.main.sent, user, packets[i], u, m);
  }

  lemma ReplySparesOthers(s: State, u: UserId, m: MsgId, id: nat)
    requires RowInv(s) && s.handled < |s.replies|
    requires var t := Step(s, ReplyHandled); HeldAs(t.main, u, m, id) && MarkPosted(t, id)
    ensures (HeldAs(s.main, u, m, id) && MarkPosted(s, id)) || Spoils(s, ReplyHandled, id)
  {
    hide Decode, DeliverAll, PassAll;
    var t := Step(s, ReplyHandled);
    var reply := s.replies[s.handled];
    if reply.OfflineLoaded? && reply.packets != [] {
      var user, packets, pending := reply.user, reply.packets, s.main.pendingAckIds;
      var online := Online(s.main, user);
      assert ResultOk(user, packets, s.hist.issued);
      ReadableResult(s, user, packets);
      LoadedMarks(s, user, packets, id);
      hide RowInv, NeedsAckDoc, AllTaken;
      if HeldAs(s.main, u, m, id) {
        if !MarkPosted(s, id) { var i := ReportedWhileHeld(s, user, packets, u, m, id); }
      } else {
        NewOnlyOnline(pending, user, online, packets, u, m);
        var i := NewEntryListed(pending, user, packets, m);
      }
    }
  }

  /** The marks posted by a load result are those of the rows it reports. */
  lemma LoadedMarks(s: State, user: UserId, packets: seq<QueuedPacket>, id: nat)
    requires packets != []
    ensures var m := OnOfflineLoaded(s.main, user, packets);
            MarkedIn(m.posted, |m.posted|, id) <==>
            MarkPosted(s, id) || id in DeliverAll(s.main.pendingAckIds, user, Online(s.main, user), packets).removable
  {
    hide Decode, DeliverAll;
    var m := OnOfflineLoaded(s.main, user, packets);
    MarkedLonger(s.main.posted, m.posted, |s.main.posted|, id);
    if m.posted != s.main.posted { MarkedMore(m.posted, |s.main.posted|, id); }
  }

  lemma NewOnlyOnline(pending: Pending, user: UserId, online: bool, packets: seq<QueuedPacket>, u: UserId, m: MsgId)
    requires AllReadable(packets)
    requires var after := Held(DeliverAll(pending, user, online, packets).pending, u);
             m in after && !(m in Held(pending, u) && Held(pending, u)[m] == after[m])
    ensures online && u == user && m !in Held(pending, user)
  {
    hide Decode, DeliverAll, PassAll;
    if u != user { OtherUsersKept(pending, user, online, packets, u); }
    if online {
      LoopIsPass(pending, user, packets);
      HeldAfter(Held(pending, user), Items(packets));
    } else {
      DeliveredOffline(pending, user, packets);
    }
  }

  /** The other events make no entry and post no deletion. */
  lemma OthersSpareEntries(s: State, e: Event, u: UserId, m: MsgId, id: nat)
    requires Enabled(s, e) && !e.AckArrived? && !e.ReplyHandled?
    requires var t := Step(s, e); HeldAs(t.main, u, m, id) && MarkPosted(t, id)
    ensures HeldAs(s.main, u, m, id) && MarkPosted(s, id)
  {
    hide Decode, Encode;
    var t := Step(s, e);
    MarkedLonger(s.main.posted, t.main.posted, |s.main.posted|, id);
    if |t.main.posted| > |s.main.posted| { MarkedMore(t.main.posted, |s.main.posted|, id); }
  }

  lemma EntrySpoiled(s: State, e: Event, u: UserId, m: MsgId, id: nat)
    requires RowInv(s) && Enabled(s, e)
    requires var t := Step(s, e); HeldAs(t.main, u, m, id) && MarkPosted(t, id)
    ensures (HeldAs(s.main, u, m, id) && MarkPosted(s, id)) || Spoils(s, e, id)
  {
    match e
    case AckArrived(user, msgId) => AckSparesOthers(s, user, msgId, u, m, id);
    case ReplyHandled => ReplySparesOthers(s, u, m, id);
    case _ => OthersSpareEntries(s, e, u, m, id);
  }

  lemma {:induction false} SpoiledIsMarked(events: seq<Event>, id: nat)
    requires Spoiled(events, id)
    ensures MarkPosted(Run(Initial(), events), id)
  {
    hide RowInv, Step, Spoils, MarkPosted;
    var front, e := events[..|events| - 1], events[|events| - 1];
    var s := Run(Initial(), front);
    LedgerHolds(front);
    if Spoiled(front, id) {
      SpoiledIsMarked(front, id);
      if Enabled(s, e) { MarkStays(s, e, id); }
    } else {
      SpoilsPosts(s, e, id);
    }
  }

  lemma {:induction false} MarkedEntryIsSpoiled(events: seq<Event>, u: UserId, m: MsgId, id: nat)
    requires var s := Run(Initial(), events); HeldAs(s.main, u, m, id) && MarkPosted(s, id)
    ensures Spoiled(events, id)
  {
    hide RowInv, Step, Spoils, MarkPosted, HeldAs;
    if events == [] {
      NothingHeldYet(u, m, id);
    } else {
      var front, e := events[..|events| - 1], events[|events| - 1];
      var s := Run(Initial(), front);
      LedgerHolds(front);
      if Enabled(s, e) { EntrySpoiled(s, e, u, m, id); }
      if HeldAs(s.main, u, m, id) && MarkPosted(s, id) { MarkedEntryIsSpoiled(front, u, m, id); }
    }
  }

  lemma NothingHeldYet(u: UserId, m: MsgId, id: nat)
    ensures !HeldAs(Initial().main, u, m, id)
  {
  }

  /** A pending entry's row is gone, or its deletion is on its way, exactly when some load result listing the row
      was handled while its msgId was held already or while its deletion was posted already. */
  lemma EntryOutlivesRowIff(events: seq<Event>, u: UserId, m: MsgId)
    requires m in Held(Run(Initial(), events).main.pendingAckIds, u)
    ensures var s := Run(Initial(), events);
            var id := Held(s.main.pendingAckIds, u)[m];
            && (MarkPosted(s, id) <==> Spoiled(events, id))
            && (s.consumed == |s.main.posted| ==>
                  1 <= id <= |s.hist.issued| && (s.hist.issued[id - 1] !in s.table.rows <==> Spoiled(events, id)))
  {
    hide Run, RowInv, RowsUntilMarked, Decode, Spoiled, MarkPosted;
    var s := Run(Initial(), events);
    var id := Held(s.main.pendingAckIds, u)[m];
    if MarkPosted(s, id) { MarkedEntryIsSpoiled(events, u, m, id); }
    if Spoiled(events, id) { SpoiledIsMarked(events, id); }
    RowsUntilMarkedEver(events);
    EntryIsOk(s, u, m);
    EntryRow(s, u, m, id);
    if s.consumed == |s.main.posted| { GoneIsMarked(s, s.hist.issued[id - 1]); }
  }

  lemma EntryRow(s: State, u: UserId, m: MsgId, id: nat)
    requires RowInv(s) && EntryOk(s.hist.issued, s.main.sent, u, m, id)
    ensures 1 <= id <= |s.hist.issued| && s.hist.issued[id - 1].id == id
  {
  }

  lemma GoneIsMarked(s: State, r: Row)
    requires RowsUntilMarked(s) && s.consumed == |s.main.posted| && r in s.hist.issued
    ensures r !in s.table.rows <==> MarkPosted(s, r.id)
  {
  }

  /** Once everything posted has been served and handled, the rows left for an online user are exactly those that
      wait for the user's ack and that no load result listed while they were held or marked for deletion. */
  lemma QuiescentRowsExactly(events: seq<Event>, r: Row)
    requires var s := Run(Initial(), events);
             && s.consumed == |s.main.posted| && s.handled == |s.replies|
             && Online(s.main, r.parcel.recipient) && r in s.hist.issued
    ensures var s := Run(Initial(), events);
            r in s.table.rows <==> AwaitsAck(s.main, r) && !Spoiled(events, r.id)
  {
    hide Run, Decode, Spoiled, MarkPosted, Readable;
    var s := Run(Initial(), events);
    RowsUntilMarkedEver(events);
    GoneIsMarked(s, r);
    if r in s.table.rows {
      QuiescentRowsAwaitAcks(events, r);
      if Spoiled(events, r.id) { SpoiledIsMarked(events, r.id); }
    } else if AwaitsAck(s.main, r) {
      MarkedEntryIsSpoiled(events, r.parcel.recipient, PacketIn(r.parcel.doc).msgId, r.id);
    }
  }

  // ---------------------------------------------------------------- what holds of rows and entries throughout

  /** No load result ever takes the undecodable or the empty-msgId branch: all rows are the server's own. */
  lemma QueuedPacketsDecode(events: seq<Event>, i: nat, q: QueuedPacket)
    requires var s := Run(Initial(), events);
             i < |s.replies| && s.replies[i].OfflineLoaded? && q in s.replies[i].packets
    ensures Decode(q.doc).Decoded? && Decode(q.doc).packet.msgId != ""
  {
    LedgerHolds(events);
    var s := Run(Initial(), events);
    hide Decode, Run;
    assert WasIssued(Row(q.id, Parcel(s.replies[i].user, q.doc)), s.hist.issued);
    assert Readable(q.doc);
  }

  lemma DeletedRowHanded(s: State, r: Row)
    requires RowInv(s) && r in s.hist.deleted
    ensures RowHanded(s.hist.issued, s.main.sent, r.id)
  {
  }

  /** A row is deleted only after a packet with its msgId was routed for its recipient. */
  lemma DeletedWasHandedOver(events: seq<Event>, r: Row)
    requires r in Run(Initial(), events).hist.deleted
    ensures Readable(r.parcel.doc)
    ensures HandedOver(Run(Initial(), events).main.sent, r.parcel.recipient, PacketIn(r.parcel.doc).msgId)
  {
    hide Decode, Run, RowInv;
    LedgerHolds(events);
    DeletedWasIssued(Run(Initial(), events), r);
    DeletedRowHanded(Run(Initial(), events), r);
  }

  /** Every pending entry (user, m) -> id names a row of that user whose msgId is m and which was sent. */
  lemma EntryNamesSentRow(events: seq<Event>, user: UserId, m: MsgId)
    requires m in Held(Run(Initial(), events).main.pendingAckIds, user)
    ensures var s := Run(Initial(), events);
            var id := Held(s.main.pendingAckIds, user)[m];
            && 1 <= id <= |s.hist.issued| && s.hist.issued[id - 1].id == id && s.hist.issued[id - 1].parcel.recipient == user
            && Readable(s.hist.issued[id - 1].parcel.doc) && PacketIn(s.hist.issued[id - 1].parcel.doc).msgId == m
            && PacketHandedOver(s.main.sent, user, PacketIn(s.hist.issued[id - 1].parcel.doc))
  {
    LedgerHolds(events);
    var s := Run(Initial(), events);
    hide Decode, Run;
    assert EntryOk(s.hist.issued, s.main.sent, user, m, s.main.pendingAckIds[user][m]);
  }
}
