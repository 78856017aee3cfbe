/** A disconnect forgets what was handed over but not acknowledged, so that the next login brings it again. */
module Reconnects {
  import opened Packets
  import opened Wire
  import opened OfflineModel
  import opened DeliveryLoop
  import opened OfflineProtocol
  import opened OfflineLedger
  import opened NoStrandedMessage
  import opened QuiescentQueue
  import opened HandoffOwners

  // ---------------------------------------------------------------- entries are younger than the last disconnect

  /** The event takes away a connection that is authenticated as the user. */
  predicate Drops(s: State, e: Event, u: UserId) {
    e.Disconnected? && u != "" && e.conn in s.main.connections && s.main.connections[e.conn] == u
  }

  /** How many hand-offs there had been at the last such event. */
  ghost function SentBeforeDrop(events: seq<Event>, u: UserId): nat {
    if events == [] then 0
    else
      var front := events[..|events| - 1];
      if Drops(Run(Initial(), front), events[|events| - 1], u) then |Run(Initial(), front).main.sent| else SentBeforeDrop(front, u)
  }

  ghost predicate HandedSince(sent: seq<Handoff>, since: nat, u: UserId, p: Packet) {
    exists k :: since <= k < |sent| && sent[k].user == u && sent[k].packet == p
  }

  lemma OnlyRepliesMakeEntries(s: State, e: Event, u: UserId, m: MsgId, id: nat)
    requires Enabled(s, e) && !e.ReplyHandled? && HeldAs(Step(s, e).main, u, m, id)
    ensures HeldAs(s.main, u, m, id) && !Drops(s, e, u)
  {
    hide Decode, Encode;
  }

  lemma ReplyMakesOnlySent(s: State, u: UserId, m: MsgId, id: nat)
    requires RowInv(s) && s.handled < |s.replies|
    requires HeldAs(Step(s, ReplyHandled).main, u, m, id) && !HeldAs(s.main, u, m, id)
    ensures 1 <= id <= |s.hist.issued| && Readable(s.hist.issued[id - 1].parcel.doc)
    ensures HandedSince(Step(s, ReplyHandled).main.sent, |s.main.sent|, u, PacketIn(s.hist.issued[id - 1].parcel.doc))
  {
    hide Decode, DeliverAll;
    var reply := s.replies[s.handled];
    var packets, pending := reply.packets, s.main.pendingAckIds;
    assert ResultOk(reply.user, packets, s.hist.issued);
    ReadableResult(s, reply.user, packets);
    NewOnlyOnline(pending, reply.user, Online(s.main, reply.user), packets, u, m);
    var (conn, owner) := Target(s.main, u);
    NewEntryOk(s.hist.issued, pending, u, packets, conn, owner, [], m);
    hide RowInv, EntryOk, ResultOk;
    var more := Handoffs(conn, owner, u, DeliverAll(pending, u, true, packets).sent);
    var p := PacketIn(s.hist.issued[id - 1].parcel.doc);
    assert [] + more == more;
    EntryPacket(s.hist.issued, more, u, m, id);
    var k :| 0 <= k < |more| && more[k].user == u && more[k].packet == p;
    assert Step(s, ReplyHandled).main.sent == s.main.sent + more;
    assert Step(s, ReplyHandled).main.sent[|s.main.sent| + k] == more[k];
  }

  lemma EntryPacket(issued: seq<Row>, sent: seq<Handoff>, u: UserId, m: MsgId, id: nat)
    requires EntryOk(issued, sent, u, m, id)
    ensures 1 <= id <= |issued| && Readable(issued[id - 1].parcel.doc) && PacketHandedOver(sent, u, PacketIn(issued[id - 1].parcel.doc))
  {
  }

  lemma SentGrows(s: State, e: Event)
    requires Enabled(s, e)
    ensures s.main.sent <= Step(s, e).main.sent && s.hist.issued <= Step(s, e).hist.issued
  {
    hide Decode, Encode, DeliverAll;
  }

  /** The packet of row `id` was handed over for the user by hand-off `since` or later. */
  ghost predicate RowHandedSince(s: State, since: nat, u: UserId, id: nat) {
    && 1 <= id <= |s.hist.issued| && Readable(s.hist.issued[id - 1].parcel.doc)
    && HandedSince(s.main.sent, since, u, PacketIn(s.hist.issued[id - 1].parcel.doc))
  }

  lemma StaysHandedSince(s: State, e: Event, since: nat, u: UserId, id: nat)
    requires Enabled(s, e) && RowHandedSince(s, since, u, id)
    ensures RowHandedSince(Step(s, e), since, u, id)
  {
    SentGrows(s, e);
    hide Step, Decode;
  }

  lemma EarlierSince(s: State, since: nat, earlier: nat, u: UserId, id: nat)
    requires RowHandedSince(s, since, u, id) && earlier <= since
    ensures RowHandedSince(s, earlier, u, id)
  {
  }

  lemma EntryStep(s: State, e: Event, since: nat, u: UserId, m: MsgId, id: nat)
    requires RowInv(s) && Enabled(s, e) && HeldAs(Step(s, e).main, u, m, id) && since <= |s.main.sent|
    requires HeldAs(s.main, u, m, id) ==> RowHandedSince(s, since, u, id)
    ensures RowHandedSince(Step(s, e), since, u, id) && !Drops(s, e, u)
  {
    hide Step, RowInv, Decode;
    if !e.ReplyHandled? { OnlyRepliesMakeEntries(s, e, u, m, id); }
    if HeldAs(s.main, u, m, id) {
      StaysHandedSince(s, e, since, u, id);
    } else {
      SentGrows(s, e);
      ReplyMakesOnlySent(s, u, m, id);
      EarlierSince(Step(s, e), |s.main.sent|, since, u, id);
    }
  }

  /** In every run each pending entry stems from a hand-off of its row's packet made after the last disconnect of a
      connection of that user. */
  lemma {:induction false} EntrySentSinceDrop(events: seq<Event>, u: UserId, m: MsgId)
    requires m in Held(Run(Initial(), events).main.pendingAckIds, u)
    ensures var s := Run(Initial(), events);
            RowHandedSince(s, SentBeforeDrop(events, u), u, Held(s.main.pendingAckIds, u)[m])
  {
    hide Step, RowInv, Decode, RowHandedSince, Drops;
    if events != [] {
      var front, e := events[..|events| - 1], events[|events| - 1];
      var s, t := Run(Initial(), front), Run(Initial(), events);
      var id := Held(t.main.pendingAckIds, u)[m];
      LedgerHolds(front);
      DropBounds(front, u);
      if HeldAs(s.main, u, m, id) { EntrySentSinceDrop(front, u, m); }
      if Enabled(s, e) { EntryStep(s, e, SentBeforeDrop(front, u), u, m, id); } else { NotEnabledDropsNobody(s, e, u); }
    }
  }

  lemma NotEnabledDropsNobody(s: State, e: Event, u: UserId)
    requires !Enabled(s, e)
    ensures !Drops(s, e, u)
  {
  }

  lemma {:induction false} DropBounds(events: seq<Event>, u: UserId)
    ensures SentBeforeDrop(events, u) <= |Run(Initial(), events).main.sent|
  {
    hide Step;
    if events != [] {
      var front, e := events[..|events| - 1], events[|events| - 1];
      DropBounds(front, u);
      if Enabled(Run(Initial(), front), e) { SentGrows(Run(Initial(), front), e); }
    }
  }

  // ---------------------------------------------------------------- the next load result brings it again

  /** The event handles a load result of the user while the user is online. */
  predicate LoadsOnline(s: State, e: Event, u: UserId) {
    e.ReplyHandled? && s.handled < |s.replies| && s.replies[s.handled].OfflineLoaded? && s.replies[s.handled].user == u && Online(s.main, u)
  }

  /** Event `n` drops the user, and no load result was handled for the user online since. */
  ghost predicate DroppedSince(events: seq<Event>, n: nat, u: UserId) {
    && n < |events| && Drops(Run(Initial(), events[..n]), events[n], u)
    && forall x :: n < x < |events| ==> !LoadsOnline(Run(Initial(), events[..x]), events[x], u)
  }

  lemma DropForgets(s: State, e: Event, u: UserId)
    requires Drops(s, e, u)
    ensures Enabled(s, e) && Held(Step(s, e).main.pendingAckIds, u) == map[] && !Online(Step(s, e).main, u)
  {
  }

  lemma StaysForgotten(s: State, e: Event, u: UserId)
    requires RowInv(s) && Enabled(s, e) && Held(s.main.pendingAckIds, u) == map[] && !LoadsOnline(s, e, u)
    ensures Held(Step(s, e).main.pendingAckIds, u) == map[]
  {
    hide Decode, Encode, DeliverAll;
    if e.ReplyHandled? && s.replies[s.handled].OfflineLoaded? && s.replies[s.handled].packets != [] {
      var reply := s.replies[s.handled];
      ReadableResult(s, reply.user, reply.packets);
      if reply.user == u {
        DeliveredOffline(s.main.pendingAckIds, u, reply.packets);
      } else {
        OtherUsersKept(s.main.pendingAckIds, reply.user, Online(s.main, reply.user), reply.packets, u);
      }
    }
  }

  /** Until then nothing is held for the user. */
  lemma {:induction false} NothingHeldSinceDrop(events: seq<Event>, n: nat, u: UserId)
    requires DroppedSince(events, n, u)
    ensures Held(Run(Initial(), events).main.pendingAckIds, u) == map[]
  {
    hide Step, RowInv, Drops, LoadsOnline;
    var last := |events| - 1;
    var front, e := events[..last], events[last];
    LedgerHolds(front);
    if n == last {
      DropForgets(Run(Initial(), front), e, u);
    } else {
      forall x | 0 <= x < last ensures front[..x] == events[..x] && front[x] == events[x] {
      }
      NothingHeldSinceDrop(front, n, u);
      if Enabled(Run(Initial(), front), e) { StaysForgotten(Run(Initial(), front), e, u); }
    }
  }

  ghost predicate HandedAnew(s: State, t: State, u: UserId, m: MsgId) {
    exists k :: |s.main.sent| <= k < |t.main.sent| && t.main.sent[k].user == u && t.main.sent[k].packet.msgId == m
  }

  /** The row itself is handed over and held, and no deletion of it is posted. */
  ghost predicate RowHandedAnew(s: State, t: State, u: UserId, q: QueuedPacket)
    requires NeedsAckDoc(q.doc)
  {
    && HandedSince(t.main.sent, |s.main.sent|, u, PacketIn(q.doc)) && HeldAs(t.main, u, PacketIn(q.doc).msgId, q.id)
    && (MarkPosted(t, q.id) <==> MarkPosted(s, q.id))
  }

  /** The first load result handled for a user who is back online hands over every row that it lists and that needs an
      ack, or an earlier one with the same msgId; the row that is handed over is held, and not reported. */
  lemma ReconnectResends(events: seq<Event>, n: nat, u: UserId, i: nat)
    requires DroppedSince(events, n, u)
    requires var s := Run(Initial(), events);
             && LoadsOnline(s, ReplyHandled, u) && i < |s.replies[s.handled].packets|
             && NeedsAckDoc(s.replies[s.handled].packets[i].doc)
    ensures var s := Run(Initial(), events);
            var packets := s.replies[s.handled].packets;
            var m := PacketIn(packets[i].doc).msgId;
            && HandedAnew(s, Step(s, ReplyHandled), u, m)
            && (!UsedEarlier(packets, i, m) ==> RowHandedAnew(s, Step(s, ReplyHandled), u, packets[i]))
  {
    hide Run, Step, Drops, DroppedSince, Decode, RowInv, HandedAnew, RowHandedAnew, UsedEarlier;
    NothingHeldSinceDrop(events, n, u);
    LedgerHolds(events);
    var s := Run(Initial(), events);
    ResendsMsgId(s, u, i);
    if !UsedEarlier(s.replies[s.handled].packets, i, PacketIn(s.replies[s.handled].packets[i].doc).msgId) { ResendsRow(s, u, i); }
  }

  lemma ResultReadable(s: State, u: UserId)
    requires RowInv(s) && LoadsOnline(s, ReplyHandled, u)
    ensures AllReadable(s.replies[s.handled].packets) && InIdOrder(s.replies[s.handled].packets)
  {
    assert ResultOk(u, s.replies[s.handled].packets, s.hist.issued);
    ReadableResult(s, u, s.replies[s.handled].packets);
  }

  lemma LoadMain(s: State, u: UserId)
    requires LoadsOnline(s, ReplyHandled, u)
    ensures Step(s, ReplyHandled).main == OnOfflineLoaded(s.main, u, s.replies[s.handled].packets)
  {
    hide OnOfflineLoaded;
  }

  lemma ResendsMsgId(s: State, u: UserId, i: nat)
    requires RowInv(s) && LoadsOnline(s, ReplyHandled, u) && Held(s.main.pendingAckIds, u) == map[]
    requires i < |s.replies[s.handled].packets| && NeedsAckDoc(s.replies[s.handled].packets[i].doc)
    ensures HandedAnew(s, Step(s, ReplyHandled), u, PacketIn(s.replies[s.handled].packets[i].doc).msgId)
  {
    hide RowInv, Decode, Step, DeliverAll, PassAll, OnOfflineLoaded;
    ResultReadable(s, u);
    LoadMain(s, u);
    var packets := s.replies[s.handled].packets;
    LoopIsPass(s.main.pendingAckIds, u, packets);
    var j := FirstUser(packets, i);
    UnshadowedIsSent(map[], Items(packets), j);
    SentLater(s, u, packets, DeliverAll(s.main.pendingAckIds, u, true, packets).sent, Items(packets)[j].packet);
  }

  lemma ResendsRow(s: State, u: UserId, i: nat)
    requires RowInv(s) && LoadsOnline(s, ReplyHandled, u) && Held(s.main.pendingAckIds, u) == map[]
    requires i < |s.replies[s.handled].packets| && NeedsAckDoc(s.replies[s.handled].packets[i].doc)
    requires !UsedEarlier(s.replies[s.handled].packets, i, PacketIn(s.replies[s.handled].packets[i].doc).msgId)
    ensures RowHandedAnew(s, Step(s, ReplyHandled), u, s.replies[s.handled].packets[i])
  {
    hide RowInv, Decode, Step, DeliverAll, PassAll, UsedEarlier;
    ResultReadable(s, u);
    LoadMain(s, u);
    var packets := s.replies[s.handled].packets;
    LoopIsPass(s.main.pendingAckIds, u, packets);
    var j := FirstUser(packets, i);
    UnshadowedIsSent(map[], Items(packets), i);
    SentLater(s, u, packets, DeliverAll(s.main.pendingAckIds, u, true, packets).sent, Items(packets)[i].packet);
    LoadedMarks(s, u, packets, packets[i].id);
    ReportedIff(map[], packets, i);
    hide HandedSince, MarkedIn;
  }

  /** The first row of the result with the msgId of row `i`. */
  lemma FirstUser(packets: seq<QueuedPacket>, i: nat) returns (j: nat)
    requires AllReadable(packets) && i < |packets| && NeedsAckDoc(packets[i].doc)
    ensures j <= i && Items(packets)[j].NeedsAck() && Items(packets)[j].packet.msgId == PacketIn(packets[i].doc).msgId
    ensures !Shadowed(map[], Items(packets), j)
    ensures !UsedEarlier(packets, i, PacketIn(packets[i].doc).msgId) ==> j == i
  {
    hide Decode;
    var items, m := Items(packets), PacketIn(packets[i].doc).msgId;
    assert items[..i + 1][i].NeedsAck();
    j := FirstMention(items[..i + 1], m);
    assert items[..i + 1][..j] == items[..j];
  }

  lemma SentLater(s: State, u: UserId, packets: seq<QueuedPacket>, sent: seq<Packet>, p: Packet)
    requires Online(s.main, u) && sent == DeliverAll(s.main.pendingAckIds, u, true, packets).sent && p in sent && packets != []
    ensures HandedSince(OnOfflineLoaded(s.main, u, packets).sent, |s.main.sent|, u, p)
    ensures |s.main.sent| <= |OnOfflineLoaded(s.main, u, packets).sent|
  {
    hide DeliverAll, Decode;
    var k :| 0 <= k < |sent| && sent[k] == p;
    assert OnOfflineLoaded(s.main, u, packets).sent[|s.main.sent| + k] ==
           Handoff(Target(s.main, u).0, Target(s.main, u).1, u, p);
  }

  // ---------------------------------------------------------------- the reconnect, as a run

  function Reconnect(conn: ConnId, next: ConnId, u: UserId, members: MembersResult): seq<Event> {
    [Disconnected(conn), Connected(next), LoggedIn(next, u), DatabaseStep(members)]
  }

  /** Nothing is on its way between the threads. */
  predicate Settled(s: State) {
    s.consumed == |s.main.posted| && s.handled == |s.replies|
  }

  /** No other row of the user in the table has this row's msgId. */
  ghost predicate OnlyRow(rows: seq<Row>, r: Row)
    requires NeedsAckDoc(r.parcel.doc)
  {
    forall x :: x in rows && x != r && x.parcel.recipient == r.parcel.recipient && NeedsAckDoc(x.parcel.doc) ==>
      PacketIn(x.parcel.doc).msgId != PacketIn(r.parcel.doc).msgId
  }

  /** Back online and about to handle the load result, with the table as it was. */
  ghost predicate BackOnline(s: State, t: State, next: ConnId, u: UserId) {
    && t.table == s.table && t.main.sent == s.main.sent && Target(t.main, u) == (next, u) && Online(t.main, u)
    && t.handled == |s.replies| && t.replies == s.replies + [OfflineLoaded(u, Select(s.table.rows, u))]
    && (forall id :: MarkPosted(t, id) ==> MarkPosted(s, id))
  }

  lemma ReconnectSteps(s: State, conn: ConnId, next: ConnId, u: UserId, members: MembersResult)
    requires Settled(s) && Drops(s, Disconnected(conn), u) && next != "" && next !in s.hist.usedConns
    ensures BackOnline(s, Run(s, Reconnect(conn, next, u, members)), next, u)
  {
    hide Run, Select, Decode, Encode;
    var a := Step(s, Disconnected(conn));
    var b := Step(Step(a, Connected(next)), LoggedIn(next, u));
    assert b.main.posted == s.main.posted + [LoadOffline(u)] && b.main.connections[next] == u && b.main.userMap[u] == next;
    FourEvents(s, Disconnected(conn), Connected(next), LoggedIn(next, u), DatabaseStep(members));
    forall id | MarkedIn(b.main.posted, |b.main.posted|, id) ensures MarkPosted(s, id) {
      MarkedMore(b.main.posted, |s.main.posted|, id);
      MarkedLonger(s.main.posted, b.main.posted, |s.main.posted|, id);
    }
  }

  lemma ReconnectDrops(events: seq<Event>, conn: ConnId, next: ConnId, u: UserId, members: MembersResult)
    requires Drops(Run(Initial(), events), Disconnected(conn), u)
    ensures DroppedSince(events + Reconnect(conn, next, u, members), |events|, u)
  {
    hide Run;
    var all := events + Reconnect(conn, next, u, members);
    assert all[..|events|] == events;
    forall x | |events| < x < |all| ensures !LoadsOnline(Run(Initial(), all[..x]), all[x], u) {
      assert all[x] == Reconnect(conn, next, u, members)[x - |events|];
    }
  }

  lemma ListedOnce(s: State, r: Row) returns (i: nat)
    requires RowInv(s) && r in s.table.rows && NeedsAckDoc(r.parcel.doc) && OnlyRow(s.table.rows, r)
    ensures var packets := Select(s.table.rows, r.parcel.recipient);
            && i < |packets| && packets[i] == QueuedPacket(r.id, r.parcel.doc)
            && !UsedEarlier(packets, i, PacketIn(r.parcel.doc).msgId)
  {
    hide Decode;
    var u, rows := r.parcel.recipient, s.table.rows;
    var packets := Select(rows, u);
    SelectAscending(rows, u);
    hide RowInv, Select;
    assert QueuedPacket(r.id, r.parcel.doc) in packets;
    i :| 0 <= i < |packets| && packets[i] == QueuedPacket(r.id, r.parcel.doc);
    forall j | 0 <= j < i && NeedsAckDoc(packets[j].doc) ensures PacketIn(packets[j].doc).msgId != PacketIn(r.parcel.doc).msgId {
      assert packets[j] in packets;
      assert Row(packets[j].id, Parcel(u, packets[j].doc)) in rows;
    }
  }

  /** In every settled state of every run: a row that waits for its ack when its user's connection goes away is handed
      over again on the user's next connection; it stays in the table, held, with no deletion posted. */
  lemma ReconnectRun(events: seq<Event>, conn: ConnId, next: ConnId, u: UserId, r: Row, members: MembersResult)
    requires var s := Run(Initial(), events);
             && Settled(s) && Drops(s, Disconnected(conn), u) && next != "" && next !in s.hist.usedConns
             && r in s.table.rows && r.parcel.recipient == u && NeedsAckDoc(r.parcel.doc) && OnlyRow(s.table.rows, r)
    ensures var s := Run(Initial(), events);
            var t := Run(Initial(), events + (Reconnect(conn, next, u, members) + [ReplyHandled]));
            && (exists k :: |s.main.sent| <= k < |t.main.sent| && t.main.sent[k] == Handoff(next, u, u, PacketIn(r.parcel.doc)))
            && r in t.table.rows && AwaitsAck(t.main, r) && !MarkPosted(t, r.id)
  {
    hide Run, RowInv, RowsUntilMarked, Decode, Drops, DroppedSince, MarkPosted, Select, OnlyRow, Step;
    var s := Run(Initial(), events);
    var back := events + Reconnect(conn, next, u, members);
    var b := Run(Initial(), back);
    ReconnectSteps(s, conn, next, u, members);
    RunTogether(Initial(), events, Reconnect(conn, next, u, members));
    RunTogether(Initial(), back, [ReplyHandled]);
    assert events + (Reconnect(conn, next, u, members) + [ReplyHandled]) == back + [ReplyHandled];
    OneEvent(b, ReplyHandled);
    RowsUntilMarkedEver(events);
    NotMarked(s, r);
    var i := ListedOnce(s, r);
    ReconnectDrops(events, conn, next, u, members);
    assert b.replies[b.handled] == OfflineLoaded(u, Select(s.table.rows, u));
    ReconnectResends(back, |events|, u, i);
    RowAfterReconnect(s, b, next, u, r);
  }

  lemma NotMarked(s: State, r: Row)
    requires RowInv(s) && RowsUntilMarked(s) && Settled(s) && r in s.table.rows
    ensures !MarkPosted(s, r.id)
  {
    hide Decode;
    assert WasIssued(r, s.hist.issued);
  }

  lemma RowAfterReconnect(s: State, b: State, next: ConnId, u: UserId, r: Row)
    requires BackOnline(s, b, next, u) && b.handled < |b.replies| && r in s.table.rows && r.parcel.recipient == u
    requires NeedsAckDoc(r.parcel.doc) && !MarkPosted(s, r.id)
    requires RowHandedAnew(b, Step(b, ReplyHandled), u, QueuedPacket(r.id, r.parcel.doc))
    ensures var t := Step(b, ReplyHandled);
            && (exists k :: |s.main.sent| <= k < |t.main.sent| && t.main.sent[k] == Handoff(next, u, u, PacketIn(r.parcel.doc)))
            && r in t.table.rows && AwaitsAck(t.main, r) && !MarkPosted(t, r.id)
  {
    var t := Step(b, ReplyHandled);
    OthersKeepRows(b, ReplyHandled);
    hide Step, Decode, MarkPosted;
    var k :| |b.main.sent| <= k < |t.main.sent| && t.main.sent[k].user == u && t.main.sent[k].packet == PacketIn(r.parcel.doc);
    NewHandoffs(b, ReplyHandled, k);
    assert t.main.sent[k] == Handoff(next, u, u, PacketIn(r.parcel.doc));
  }
}
