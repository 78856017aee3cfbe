/** Where every queued packet is at any time, and what a deletion needs. */
module OfflineLedger {
  import opened Packets
  import opened Wire
  import opened OfflineModel
  import opened DeliveryLoop
  import opened OfflineProtocol

  // ---------------------------------------------------------------- conservation

  function ParcelsOf(rows: seq<Row>): multiset<Parcel> {
    if rows == [] then multiset{}
    else ParcelsOf(rows[..|rows| - 1]) + multiset{rows[|rows| - 1].parcel}
  }

  function QueuedBy(request: DbRequest): multiset<Parcel> {
    if request.QueueOffline? then multiset{request.parcel} else multiset{}
  }

  /** The parcels of the enqueue requests that are still in the channel. */
  function InFlight(posted: seq<DbRequest>, consumed: nat): multiset<Parcel> {
    if |posted| <= consumed then multiset{}
    else InFlight(posted[..|posted| - 1], consumed) + QueuedBy(posted[|posted| - 1])
  }

  /** Every packet given to enqueueIfOffline is exactly one of: handed over at once, in flight, a row, a deleted row. */
  ghost predicate Conserved(s: State) {
    multiset(s.hist.submitted) ==
      multiset(s.hist.direct) + InFlight(s.main.posted, s.consumed) + ParcelsOf(s.table.rows) + ParcelsOf(s.hist.deleted)
  }

  /** The parcels of the hand-offs. */
  function HandedParcels(sent: seq<Handoff>): multiset<Parcel> {
    if sent == [] then multiset{}
    else
      HandedParcels(sent[..|sent| - 1]) + multiset{ParcelOf(sent[|sent| - 1])}
  }

  function ParcelOf(h: Handoff): Parcel {
    Parcel(h.user, Encode(h.packet))
  }

  /** Handed over at once means: each by a hand-off of its own, to the connection found for the recipient. */
  ghost predicate DirectHanded(direct: seq<Parcel>, sent: seq<Handoff>) {
    multiset(direct) <= HandedParcels(sent)
  }

  lemma {:induction false} MoreHanded(sent: seq<Handoff>, more: seq<Handoff>)
    ensures HandedParcels(sent) <= HandedParcels(sent + more)
  {
    hide ParcelOf;
    if more == [] {
      assert sent + more == sent;
    } else {
      var n := |more| - 1;
      assert (sent + more)[..|sent| + n] == sent + more[..n];
      MoreHanded(sent, more[..n]);
    }
  }

  lemma {:induction false} InFlightServed(posted: seq<DbRequest>, consumed: nat)
    requires consumed < |posted|
    ensures InFlight(posted, consumed) == InFlight(posted, consumed + 1) + QueuedBy(posted[consumed])
  {
    if consumed + 1 < |posted| {
      InFlightServed(posted[..|posted| - 1], consumed);
    }
  }

  lemma ParcelsPlusOne(rows: seq<Row>, r: Row)
    ensures ParcelsOf(rows + [r]) == ParcelsOf(rows) + multiset{r.parcel}
  {
  }

  lemma {:induction false} ParcelsAppend(rows: seq<Row>, more: seq<Row>)
    ensures ParcelsOf(rows + more) == ParcelsOf(rows) + ParcelsOf(more)
  {
    if more == [] {
      assert rows + more == rows;
    } else {
      var n := |more| - 1;
      assert rows + more == (rows + more[..n]) + [more[n]];
      ParcelsPlusOne(rows + more[..n], more[n]);
      ParcelsAppend(rows, more[..n]);
    }
  }

  /** Deletion splits the table; no row is lost or doubled. */
  lemma {:induction false} ParcelsSplit(rows: seq<Row>, ids: seq<nat>)
    ensures ParcelsOf(rows) == ParcelsOf(Keep(rows, ids, false)) + ParcelsOf(Keep(rows, ids, true))
  {
    if rows != [] {
      var n := |rows| - 1;
      ParcelsSplit(rows[..n], ids);
      ParcelsPlusOne(Keep(rows[..n], ids, rows[n].id in ids), rows[n]);
    }
  }

  lemma Regroup(all: multiset<Parcel>, direct: multiset<Parcel>, left: multiset<Parcel>, served: multiset<Parcel>,
                rows: multiset<Parcel>, deleted: multiset<Parcel>, rows': multiset<Parcel>, deleted': multiset<Parcel>)
    requires all == direct + (left + served) + rows + deleted
    requires rows' + deleted' == rows + deleted + served
    ensures all == direct + left + rows' + deleted'
  {
    forall x ensures all[x] == (direct + left + rows' + deleted')[x] {
      assert (rows' + deleted')[x] == (rows + deleted + served)[x];
    }
  }

  lemma ConservedServed(s: State, t: State)
    requires Conserved(s) && s.consumed < |s.main.posted| && t.main == s.main && t.consumed == s.consumed + 1
    requires t.hist.submitted == s.hist.submitted && t.hist.direct == s.hist.direct
    requires ParcelsOf(t.table.rows) + ParcelsOf(t.hist.deleted) ==
             ParcelsOf(s.table.rows) + ParcelsOf(s.hist.deleted) + QueuedBy(s.main.posted[s.consumed])
    ensures Conserved(t)
  {
    InFlightServed(s.main.posted, s.consumed);
    Regroup(multiset(s.hist.submitted), multiset(s.hist.direct),
            InFlight(s.main.posted, s.consumed + 1), QueuedBy(s.main.posted[s.consumed]),
            ParcelsOf(s.table.rows), ParcelsOf(s.hist.deleted), ParcelsOf(t.table.rows), ParcelsOf(t.hist.deleted));
  }

  lemma RowsInserted(table: Table, deleted: seq<Row>, parcel: Parcel)
    ensures ParcelsOf(Insert(table, parcel).rows) + ParcelsOf(deleted) ==
            ParcelsOf(table.rows) + ParcelsOf(deleted) + multiset{parcel}
  {
  }

  lemma RowsDeleted(table: Table, deleted: seq<Row>, ids: seq<nat>)
    ensures ParcelsOf(Delete(table, ids).rows) + ParcelsOf(deleted + Keep(table.rows, ids, true)) ==
            ParcelsOf(table.rows) + ParcelsOf(deleted)
  {
    ParcelsSplit(table.rows, ids);
    ParcelsAppend(deleted, Keep(table.rows, ids, true));
  }

  lemma ConservedDatabase(s: State, members: MembersResult)
    requires Conserved(s) && s.consumed < |s.main.posted|
    ensures Conserved(DatabaseStepped(s, members))
  {
    hide Conserved, InFlight, ParcelsOf, Insert, Delete;
    match s.main.posted[s.consumed] {
      case QueueOffline(parcel) => RowsInserted(s.table, s.hist.deleted, parcel);
      case MarkDelivered(ids) => RowsDeleted(s.table, s.hist.deleted, ids);
      case _ =>
    }
    ConservedServed(s, DatabaseStepped(s, members));
  }

  lemma ConservedPost(s: State, t: State, request: DbRequest)
    requires Conserved(s) && s.consumed <= |s.main.posted| && t.main.posted == s.main.posted + [request]
    requires t.consumed == s.consumed && t.table.rows == s.table.rows && t.hist.deleted == s.hist.deleted
    requires t.hist.direct == s.hist.direct
    requires multiset(t.hist.submitted) == multiset(s.hist.submitted) + QueuedBy(request)
    ensures Conserved(t)
  {
  }

  lemma ConservedSubmit(s: State, recipient: UserId, packet: Packet)
    requires Conserved(s) && s.consumed <= |s.main.posted| && packet.msgId != ""
    ensures Conserved(Step(s, Submit(recipient, packet)))
  {
    hide Decode, Encode;
    var parcel := Parcel(recipient, Encode(packet));
    if !Online(s.main, recipient) {
      ConservedPost(s, Step(s, Submit(recipient, packet)), QueueOffline(parcel));
    }
  }

  /** Every other handler posts at most one request, and never an enqueue. */
  lemma ConservedOther(s: State, e: Event)
    requires Conserved(s) && s.consumed <= |s.main.posted| && Enabled(s, e) && !e.Submit? && !e.DatabaseStep?
    ensures Conserved(Step(s, e))
  {
    hide Decode, DeliverAll, Conserved, InFlight, ParcelsOf;
    var t := Step(s, e);
    if |t.main.posted| > |s.main.posted| {
      ConservedPost(s, t, t.main.posted[|s.main.posted|]);
    } else {
      ConservedSame(s, t);
    }
  }

  lemma ConservedSame(s: State, t: State)
    requires Conserved(s) && t.main.posted == s.main.posted && t.consumed == s.consumed && t.table == s.table
    requires t.hist.submitted == s.hist.submitted && t.hist.direct == s.hist.direct && t.hist.deleted == s.hist.deleted
    ensures Conserved(t)
  {
  }

  lemma ConservedStep(s: State, e: Event)
    requires Conserved(s) && s.consumed <= |s.main.posted| && Enabled(s, e)
    ensures Conserved(Step(s, e))
  {
    hide Decode, Encode, Conserved;
    match e
    case Submit(recipient, packet) => ConservedSubmit(s, recipient, packet);
    case DatabaseStep(members) => ConservedDatabase(s, members);
    case _ => ConservedOther(s, e);
  }

  lemma DirectHandedStep(s: State, e: Event)
    requires DirectHanded(s.hist.direct, s.main.sent) && Enabled(s, e)
    ensures DirectHanded(Step(s, e).hist.direct, Step(s, e).main.sent)
  {
    DirectGrows(s, e);
    hide Step;
    var t := Step(s, e);
    var n := |s.main.sent|;
    if t.hist.direct == s.hist.direct {
      assert t.main.sent == s.main.sent + t.main.sent[n..];
      MoreHanded(s.main.sent, t.main.sent[n..]);
    } else {
      assert t.main.sent[..n] == s.main.sent;
    }
  }

  /** A parcel joins the ones handed over at once together with a hand-off of its own. */
  lemma DirectGrows(s: State, e: Event)
    requires Enabled(s, e)
    ensures var t := Step(s, e);
            && s.main.sent <= t.main.sent
            && (t.hist.direct == s.hist.direct
                || (|t.main.sent| == |s.main.sent| + 1 && t.hist.direct == s.hist.direct + [ParcelOf(t.main.sent[|s.main.sent|])]))
  {
    hide Decode, Encode, DeliverAll;
  }

  /** In every run, no queued packet is lost or doubled, and a row is deleted only after a packet with its
      msgId was routed for its recipient. */
  lemma {:induction false} LedgerHolds(events: seq<Event>)
    ensures var s := Run(Initial(), events);
            RowInv(s) && Conserved(s) && DirectHanded(s.hist.direct, s.main.sent)
  {
    if events != [] {
      var before := Run(Initial(), events[..|events| - 1]);
      var e := events[|events| - 1];
      LedgerHolds(events[..|events| - 1]);
      if Enabled(before, e) {
        RowInvStep(before, e);
        ConservedStep(before, e);
        DirectHandedStep(before, e);
      }
    }
  }

  // ---------------------------------------------------------------- deletion and acknowledgement

  /** Another row of the same recipient with the same msgId was sent and held pending instead. */
  ghost predicate TwinHeld(hist: History, sent: seq<Handoff>, user: UserId, m: MsgId, id: nat) {
    exists other :: other != id && (user, m, other) in hist.held && EntryOk(hist.issued, sent, user, m, other)
  }

  /** Nothing but an ack, a twin, or a load result that listed it while it waited for its ack excuses removing a
      receive_message row. */
  ghost predicate Excused(hist: History, sent: seq<Handoff>, id: nat) {
    1 <= id <= |hist.issued| && NeedsAckDoc(hist.issued[id - 1].parcel.doc) ==>
      var user := hist.issued[id - 1].parcel.recipient;
      var m := PacketIn(hist.issued[id - 1].parcel.doc).msgId;
      id in hist.reloaded || (user, m) in hist.acked || TwinHeld(hist, sent, user, m, id)
  }

  ghost predicate AllExcused(ids: seq<nat>, hist: History, sent: seq<Handoff>) {
    forall id :: id in ids ==> Excused(hist, sent, id)
  }

  ghost predicate RemovalsExcused(s: State) {
    && (forall i :: 0 <= i < |s.main.posted| && s.main.posted[i].MarkDelivered? ==>
          AllExcused(s.main.posted[i].ids, s.hist, s.main.sent))
    && (forall r :: r in s.hist.deleted ==> Excused(s.hist, s.main.sent, r.id))
  }

  ghost predicate EntriesRecorded(pending: Pending, hist: History) {
    forall u, m :: m in Held(pending, u) ==> (u, m, Held(pending, u)[m]) in hist.held
  }

  ghost predicate Grows(hist: History, sent: seq<Handoff>, hist': History, sent': seq<Handoff>) {
    && hist.issued <= hist'.issued && hist.acked <= hist'.acked && hist.reloaded <= hist'.reloaded
    && hist.held <= hist'.held && sent <= sent'
  }

  lemma StaysExcused(hist: History, sent: seq<Handoff>, hist': History, sent': seq<Handoff>, id: nat)
    requires Excused(hist, sent, id) && Grows(hist, sent, hist', sent') && id <= |hist.issued|
    ensures Excused(hist', sent', id)
  {
    hide Decode;
    if 1 <= id <= |hist.issued| && NeedsAckDoc(hist.issued[id - 1].parcel.doc) {
      var user := hist.issued[id - 1].parcel.recipient;
      var m := PacketIn(hist.issued[id - 1].parcel.doc).msgId;
      if TwinHeld(hist, sent, user, m, id) {
        var other :| other != id && (user, m, other) in hist.held && EntryOk(hist.issued, sent, user, m, other);
        assert sent' == sent + sent'[|sent|..];
        MoreHandedOver(sent, sent'[|sent|..]);
        assert EntryOk(hist'.issued, sent', user, m, other);
      }
    }
  }

  lemma TwinIsHeld(before: map<MsgId, nat>, items: seq<Item>, i: nat) returns (j: nat)
    requires i < |items| && Shadowed(before, items, i) && items[i].packet.msgId !in before
    ensures j < i && items[j].NeedsAck() && items[j].packet.msgId == items[i].packet.msgId
    ensures var s := PassAll(before, items);
            && items[j].packet in s.sent
            && items[j].packet.msgId in s.held && s.held[items[j].packet.msgId] == items[j].id
  {
    j := FirstMention(items[..i], items[i].packet.msgId);
    assert items[..i][..j] == items[..j] && items[..i][j] == items[j];
    UnshadowedIsSent(before, items, j);
  }

  /** A row whose msgId an earlier row of the same result uses, and that one was sent and held. */
  lemma EarlierTwinExcuses(hist: History, sent: seq<Handoff>, user: UserId, packets: seq<QueuedPacket>, i: nat, j: nat)
    requires ResultOk(user, packets, hist.issued) && AllReadable(packets) && j < i < |packets|
    requires NeedsAckDoc(packets[j].doc) && PacketIn(packets[j].doc).msgId == PacketIn(packets[i].doc).msgId
    requires PacketHandedOver(sent, user, PacketIn(packets[j].doc))
    requires (user, PacketIn(packets[j].doc).msgId, packets[j].id) in hist.held
    ensures Excused(hist, sent, packets[i].id)
  {
    hide Decode, PacketHandedOver;
    assert packets[i] in packets && WasIssued(Row(packets[i].id, Parcel(user, packets[i].doc)), hist.issued);
    assert packets[j] in packets && WasIssued(Row(packets[j].id, Parcel(user, packets[j].doc)), hist.issued);
    assert EntryOk(hist.issued, sent, user, PacketIn(packets[i].doc).msgId, packets[j].id);
  }

  lemma NotPendingIsOnline(before: map<MsgId, nat>, packets: seq<QueuedPacket>, i: nat, online: bool)
    requires i < |packets| && NeedsAckDoc(packets[i].doc) && PacketIn(packets[i].doc).msgId !in before
    requires !online ==> AllTaken(before, packets, i + 1)
    ensures online
  {
  }

  /** A reported row whose msgId was not pending is reported next to an earlier row that is held instead. */
  lemma ReportedBesideTwin(s: State, user: UserId, packets: seq<QueuedPacket>, conn: ConnId, owner: UserId, i: nat)
    requires RowInv(s) && ResultOk(user, packets, s.hist.issued) && AllReadable(packets)
    requires i < |packets| && Removable(Held(s.main.pendingAckIds, user), Items(packets), i)
    requires NeedsAckDoc(packets[i].doc) && PacketIn(packets[i].doc).msgId !in Held(s.main.pendingAckIds, user)
    ensures var p := DeliverAll(s.main.pendingAckIds, user, true, packets);
            Excused(Loaded(s.hist, user, packets, Held(s.main.pendingAckIds, user), Held(p.pending, user)),
                    s.main.sent + Handoffs(conn, owner, user, p.sent), packets[i].id)
  {
    hide Decode, DeliverAll, RowInv, PassAll, FindByUserId, Handoffs, InIdOrder, HeldItself;
    var before := Held(s.main.pendingAckIds, user);
    var p := DeliverAll(s.main.pendingAckIds, user, true, packets);
    LoopIsPass(s.main.pendingAckIds, user, packets);
    var items := Items(packets);
    var j := TwinIsHeld(before, items, i);
    SentIsHandedOver(s.main.sent, conn, owner, user, p.sent, items[j].packet);
    EarlierTwinExcuses(Loaded(s.hist, user, packets, before, Held(p.pending, user)), s.main.sent + Handoffs(conn, owner, user, p.sent), user, packets, i, j);
  }

  /** A reported row whose msgId was pending is held itself, or another row with its msgId is. */
  lemma ReportedWhilePending(s: State, user: UserId, packets: seq<QueuedPacket>, after: map<MsgId, nat>, more: seq<Handoff>, i: nat)
    requires RowInv(s) && ResultOk(user, packets, s.hist.issued) && EntriesRecorded(s.main.pendingAckIds, s.hist)
    requires i < |packets| && NeedsAckDoc(packets[i].doc) && PacketIn(packets[i].doc).msgId in Held(s.main.pendingAckIds, user)
    ensures Excused(Loaded(s.hist, user, packets, Held(s.main.pendingAckIds, user), after), s.main.sent + more, packets[i].id)
  {
    hide Decode;
    var before := Held(s.main.pendingAckIds, user);
    var m := PacketIn(packets[i].doc).msgId;
    assert packets[i] in packets && WasIssued(Row(packets[i].id, Parcel(user, packets[i].doc)), s.hist.issued);
    if before[m] == packets[i].id {
      assert HeldItself(before, packets[i]);
    } else {
      assert EntryOk(s.hist.issued, s.main.sent, user, m, before[m]);
      hide RowInv;
      MoreHandedOver(s.main.sent, more);
      assert EntryOk(s.hist.issued, s.main.sent + more, user, m, before[m]);
    }
  }

  /** The ids one handled load result reports are excused. */
  lemma ReportedExcused(s: State, user: UserId, packets: seq<QueuedPacket>, id: nat)
    requires RowInv(s) && ResultOk(user, packets, s.hist.issued) && EntriesRecorded(s.main.pendingAckIds, s.hist)
    requires id in DeliverAll(s.main.pendingAckIds, user, Online(s.main, user), packets).removable
    requires packets != []
    ensures var main := OnOfflineLoaded(s.main, user, packets);
            Excused(Loaded(s.hist, user, packets, Held(s.main.pendingAckIds, user), Held(main.pendingAckIds, user)), main.sent, id)
  {
    ReadableResult(s, user, packets);
    hide Decode, DeliverAll, RowInv, AllTaken, Removable, Excused, Loaded, EntriesRecorded;
    var before := Held(s.main.pendingAckIds, user);
    var main := OnOfflineLoaded(s.main, user, packets);
    var i := ReportedPosition(s.main.pendingAckIds, user, Online(s.main, user), packets, id);
    var hist := Loaded(s.hist, user, packets, before, Held(main.pendingAckIds, user));
    if !NeedsAckDoc(packets[i].doc) {
      NoAckNeeded(s, user, packets, i, hist, main.sent);
    } else if PacketIn(packets[i].doc).msgId in before {
      ReportedWhilePending(s, user, packets, Held(main.pendingAckIds, user), main.sent[|s.main.sent|..], i);
      assert main.sent == s.main.sent + main.sent[|s.main.sent|..];
    } else {
      NotPendingIsOnline(before, packets, i, Online(s.main, user));
      ReportedBesideTwin(s, user, packets, Target(s.main, user).0, Target(s.main, user).1, i);
    }
  }

  lemma NoAckNeeded(s: State, user: UserId, packets: seq<QueuedPacket>, i: nat, hist: History, sent: seq<Handoff>)
    requires ResultOk(user, packets, s.hist.issued) && i < |packets| && !NeedsAckDoc(packets[i].doc) && hist.issued == s.hist.issued
    ensures Excused(hist, sent, packets[i].id)
  {
    hide Decode;
    assert packets[i] in packets && WasIssued(Row(packets[i].id, Parcel(user, packets[i].doc)), s.hist.issued);
  }

  /** Handlers that neither serve a request nor report a row keep removals excused. */
  lemma RemovalsStayExcused(s: State, t: State)
    requires RowInv(s) && RemovalsExcused(s) && Grows(s.hist, s.main.sent, t.hist, t.main.sent)
    requires s.main.posted <= t.main.posted
    requires forall i :: |s.main.posted| <= i < |t.main.posted| && t.main.posted[i].MarkDelivered? ==>
               AllExcused(t.main.posted[i].ids, t.hist, t.main.sent)
    requires forall r :: r in t.hist.deleted ==> r in s.hist.deleted || Excused(t.hist, t.main.sent, r.id)
    ensures RemovalsExcused(t)
  {
    hide Decode, Excused;
    forall i | 0 <= i < |t.main.posted| && t.main.posted[i].MarkDelivered?
      ensures AllExcused(t.main.posted[i].ids, t.hist, t.main.sent)
    {
      if i < |s.main.posted| {
        assert AllExcused(s.main.posted[i].ids, s.hist, s.main.sent);
        assert AllHanded(s.main.posted[i].ids, s.hist.issued, s.main.sent);
        forall id | id in t.main.posted[i].ids ensures Excused(t.hist, t.main.sent, id) {
          assert RowHanded(s.hist.issued, s.main.sent, id);
          StaysExcused(s.hist, s.main.sent, t.hist, t.main.sent, id);
        }
      }
    }
    forall r | r in t.hist.deleted ensures Excused(t.hist, t.main.sent, r.id) {
      if r in s.hist.deleted {
        assert RowHanded(s.hist.issued, s.main.sent, r.id);
        StaysExcused(s.hist, s.main.sent, t.hist, t.main.sent, r.id);
      }
    }
  }

  lemma ExcusedAck(s: State, user: UserId, msgId: MsgId)
    requires RowInv(s) && RemovalsExcused(s)
    ensures RemovalsExcused(Step(s, AckArrived(user, msgId)))
  {
    hide Decode;
    var t := Step(s, AckArrived(user, msgId));
    if msgId in Held(s.main.pendingAckIds, user) {
      var id := s.main.pendingAckIds[user][msgId];
      assert EntryOk(s.hist.issued, s.main.sent, user, msgId, id);
      assert Excused(t.hist, t.main.sent, id);
    }
    RemovalsStayExcused(s, t);
  }

  lemma ExcusedReply(s: State)
    requires RowInv(s) && RemovalsExcused(s) && EntriesRecorded(s.main.pendingAckIds, s.hist) && s.handled < |s.replies|
    ensures RemovalsExcused(Step(s, ReplyHandled))
  {
    hide Decode, DeliverAll, Excused;
    var t := Step(s, ReplyHandled);
    var reply := s.replies[s.handled];
    if reply.OfflineLoaded? && reply.packets != [] {
      var p := DeliverAll(s.main.pendingAckIds, reply.user, Online(s.main, reply.user), reply.packets);
      forall id | id in p.removable ensures Excused(t.hist, t.main.sent, id) {
        ReportedExcused(s, reply.user, reply.packets, id);
      }
    }
    RemovalsStayExcused(s, t);
  }

  lemma ExcusedDatabase(s: State, members: MembersResult)
    requires RowInv(s) && RemovalsExcused(s) && s.consumed < |s.main.posted|
    ensures RemovalsExcused(DatabaseStepped(s, members))
  {
    hide Decode, Excused;
    var t := DatabaseStepped(s, members);
    var request := s.main.posted[s.consumed];
    if request.MarkDelivered? {
      assert AllExcused(request.ids, s.hist, s.main.sent) && AllHanded(request.ids, s.hist.issued, s.main.sent);
      forall r | r in Keep(s.table.rows, request.ids, true) ensures Excused(t.hist, t.main.sent, r.id) {
        assert RowHanded(s.hist.issued, s.main.sent, r.id);
        StaysExcused(s.hist, s.main.sent, t.hist, t.main.sent, r.id);
      }
    }
    RemovalsStayExcused(s, t);
  }

  lemma ExcusedStep(s: State, e: Event)
    requires RowInv(s) && RemovalsExcused(s) && EntriesRecorded(s.main.pendingAckIds, s.hist) && Enabled(s, e)
    ensures RemovalsExcused(Step(s, e))
  {
    hide Decode, Encode, Excused;
    match e
    case AckArrived(user, msgId) => ExcusedAck(s, user, msgId);
    case DatabaseStep(members) => ExcusedDatabase(s, members);
    case ReplyHandled => ExcusedReply(s);
    case _ => RemovalsStayExcused(s, Step(s, e));
  }

  lemma LoadedRecords(s: State, user: UserId, packets: seq<QueuedPacket>)
    requires EntriesRecorded(s.main.pendingAckIds, s.hist)
    ensures var main := OnOfflineLoaded(s.main, user, packets);
            EntriesRecorded(main.pendingAckIds, Loaded(s.hist, user, packets, Held(s.main.pendingAckIds, user), Held(main.pendingAckIds, user)))
  {
    hide Decode, DeliverAll, HeldItself;
    var main := OnOfflineLoaded(s.main, user, packets);
    var hist := Loaded(s.hist, user, packets, Held(s.main.pendingAckIds, user), Held(main.pendingAckIds, user));
    forall u, m | m in Held(main.pendingAckIds, u) ensures (u, m, Held(main.pendingAckIds, u)[m]) in hist.held {
      if u != user { OtherUsersKept(s.main.pendingAckIds, user, Online(s.main, user), packets, u); }
    }
  }

  lemma EntriesRecordedStep(s: State, e: Event)
    requires EntriesRecorded(s.main.pendingAckIds, s.hist) && Enabled(s, e)
    ensures EntriesRecorded(Step(s, e).main.pendingAckIds, Step(s, e).hist)
  {
    hide Decode, Encode, OnOfflineLoaded, Loaded;
    if e.ReplyHandled? && s.replies[s.handled].OfflineLoaded? {
      LoadedRecords(s, s.replies[s.handled].user, s.replies[s.handled].packets);
    } else {
      var t := Step(s, e);
      forall u, m | m in Held(t.main.pendingAckIds, u) ensures (u, m, Held(t.main.pendingAckIds, u)[m]) in t.hist.held {
        assert m in Held(s.main.pendingAckIds, u) && Held(s.main.pendingAckIds, u)[m] == Held(t.main.pendingAckIds, u)[m];
      }
    }
  }

  lemma {:induction false} RemovalsExcusedEver(events: seq<Event>)
    ensures var s := Run(Initial(), events); RemovalsExcused(s) && EntriesRecorded(s.main.pendingAckIds, s.hist)
  {
    hide Step, RowInv, RemovalsExcused, EntriesRecorded;
    if events == [] {
      NothingRemovedYet();
    } else {
      var front := events[..|events| - 1];
      RemovalsExcusedEver(front);
      LedgerHolds(front);
      if Enabled(Run(Initial(), front), events[|events| - 1]) {
        ExcusedStep(Run(Initial(), front), events[|events| - 1]);
        EntriesRecordedStep(Run(Initial(), front), events[|events| - 1]);
      }
    }
  }

  lemma NothingRemovedYet()
    ensures RemovalsExcused(Initial()) && EntriesRecorded(Initial().main.pendingAckIds, Initial().hist)
  {
  }

  lemma DeletedWasIssued(s: State, r: Row)
    requires RowInv(s) && r in s.hist.deleted
    ensures 1 <= r.id <= |s.hist.issued| && s.hist.issued[r.id - 1] == r
  {
    assert RowHanded(s.hist.issued, s.main.sent, r.id);
  }

  /** A receive_message row is deleted only after its recipient acknowledged its msgId, because another row of that
      recipient with the same msgId was sent and held pending instead, or after a load result listed it while it
      waited for its ack. */
  lemma DeletionNeedsAck(events: seq<Event>, r: Row)
    requires r in Run(Initial(), events).hist.deleted && NeedsAckDoc(r.parcel.doc)
    ensures var s := Run(Initial(), events);
            var m := PacketIn(r.parcel.doc).msgId;
            || (r.parcel.recipient, m) in s.hist.acked || TwinHeld(s.hist, s.main.sent, r.parcel.recipient, m, r.id)
            || r.id in s.hist.reloaded
  {
    hide Decode, Run, RowInv;
    LedgerHolds(events);
    RemovalsExcusedEver(events);
    DeletedWasIssued(Run(Initial(), events), r);
  }

  ghost predicate UsedEarlier(packets: seq<QueuedPacket>, i: nat, m: MsgId)
    requires i <= |packets|
  {
    exists j :: 0 <= j < i && NeedsAckDoc(packets[j].doc) && PacketIn(packets[j].doc).msgId == m
  }

  lemma UsedEarlierIsMentioned(packets: seq<QueuedPacket>, i: nat, m: MsgId)
    requires AllReadable(packets) && i <= |packets|
    ensures Mentioned(Items(packets)[..i], m) <==> UsedEarlier(packets, i, m)
  {
    hide Decode;
    var items := Items(packets);
    forall j | 0 <= j < i ensures items[..i][j] == Item(packets[j].id, PacketIn(packets[j].doc)) && Readable(packets[j].doc) {
    }
    if UsedEarlier(packets, i, m) {
      var j :| 0 <= j < i && NeedsAckDoc(packets[j].doc) && PacketIn(packets[j].doc).msgId == m;
      assert items[..i][j].NeedsAck() && items[..i][j].packet.msgId == m;
    }
    if Mentioned(items[..i], m) {
      var j :| 0 <= j < |items[..i]| && items[..i][j].NeedsAck() && items[..i][j].packet.msgId == m;
      assert NeedsAckDoc(packets[j].doc);
    }
  }

  /** Exactly when handling a load result removes a row that still needs its ack. For a user who is online: its
      msgId was already pending, or an earlier row of the same result uses it. For a user who is offline by now:
      it and every row before it need an ack and have their msgId pending. */
  lemma UnackedRemovalIff(pending: Pending, user: UserId, online: bool, packets: seq<QueuedPacket>, i: nat)
    requires AllReadable(packets) && InIdOrder(packets)
    requires i < |packets| && NeedsAckDoc(packets[i].doc)
    ensures packets[i].id in DeliverAll(pending, user, online, packets).removable <==>
            var m := PacketIn(packets[i].doc).msgId;
            if online then m in Held(pending, user) || UsedEarlier(packets, i, m)
            else AllTaken(Held(pending, user), packets, i + 1)
  {
    hide Decode, DeliverAll, PassAll;
    var before, items := Held(pending, user), Items(packets);
    if online {
      LoopIsPass(pending, user, packets);
      UsedEarlierIsMentioned(packets, i, PacketIn(packets[i].doc).msgId);
      if Shadowed(before, items, i) { RemovableIsReported(before, items, i); }
      if packets[i].id in PassAll(before, items).removable {
        ReportedIsRemovable(before, items, packets[i].id);
        var k :| 0 <= k < |items| && items[k].id == packets[i].id && Removable(before, items, k);
        assert k == i;
      }
    } else {
      hide NeedsAckDoc;
      DeliveredOffline(pending, user, packets);
      if TakenRow(before, packets, packets[i].id) {
        var k :| 0 <= k < |packets| && packets[k].id == packets[i].id && AllTaken(before, packets, k + 1);
        assert k == i;
      }
    }
  }
}
