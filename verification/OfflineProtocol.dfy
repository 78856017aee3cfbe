/** Offline delivery as a transition system over two threads.

    The main thread runs one handler at a time; the database thread serves requests in the order in
    which they were posted, and its replies are handled in order. Channels keep what has passed
    through them: requests up to `consumed` are served, replies up to `handled` are handled. */
module OfflineProtocol {
  import opened Packets
  import opened Wire
  import opened OfflineModel
  import opened DeliveryLoop

  /** What happened so far; no handler reads it. */
  datatype History = History(
    usedConns: set<ConnId>,               // connection ids handed out
    logins: set<(ConnId, UserId)>,        // which session authenticated as which user
    submitted: seq<Parcel>,               // every call of enqueueIfOffline
    direct: seq<Parcel>,                  // those handed to a session at once
    issued: seq<Row>,                     // every row ever inserted
    deleted: seq<Row>,                    // every row ever deleted
    acked: set<(UserId, MsgId)>,          // message_received_ack packets handled
    reloaded: set<nat>,                   // rows listed in a load result while their own entry was pending
    held: set<(UserId, MsgId, nat)>)      // every pending entry ever made

  datatype State = State(main: Main, table: Table, consumed: nat, replies: seq<DbReply>, handled: nat, hist: History)

  datatype Event =
    | Connected(conn: ConnId)
    | Disconnected(conn: ConnId)
    | LoggedIn(conn: ConnId, user: UserId)
    | Submit(recipient: UserId, packet: Packet)
    | AckArrived(user: UserId, msgId: MsgId)
    | Signal(request: DbRequest)                 // another service posts a request
    | DatabaseStep(members: MembersResult)       // `members`: what a member query would find
    | ReplyHandled

  function Initial(): State {
    State(Main(map[], map[], map[], [], []), Table([], 1), 0, [], 0,
          History({}, {}, [], [], [], [], {}, {}, {}))
  }

  /** Connection ids are fresh and not empty, packets come from known sessions, a login has a user id,
      the server's packets have a msgId, and only the other services' requests are posted by `Signal`. */
  predicate Enabled(s: State, e: Event) {
    match e
    case Connected(conn) => conn != "" && conn !in s.hist.usedConns
    case Disconnected(_) => true
    case LoggedIn(conn, user) => conn in s.main.connections && user != ""
    case Submit(_, packet) => packet.msgId != ""
    case AckArrived(_, _) => true
    case Signal(request) => request.StoreMessage? || request.LoadGroupMembers?
    case DatabaseStep(_) => s.consumed < |s.main.posted|
    case ReplyHandled => s.handled < |s.replies|
  }

  function DatabaseStepped(s: State, members: MembersResult): State
    requires s.consumed < |s.main.posted|
  {
    var t := s.(consumed := s.consumed + 1);
    match s.main.posted[s.consumed]
    case QueueOffline(parcel) =>
      t.(table := Insert(s.table, parcel), hist := s.hist.(issued := s.hist.issued + [Row(s.table.nextId, parcel)]))
    case LoadOffline(user) =>
      t.(replies := s.replies + [OfflineLoaded(user, Select(s.table.rows, user))])
    case MarkDelivered(ids) =>
      t.(table := Delete(s.table, ids), hist := s.hist.(deleted := s.hist.deleted + Keep(s.table.rows, ids, true)))
    case StoreMessage(_) => t
    case LoadGroupMembers(groupId, token) =>
      t.(replies := s.replies + [GroupMembersLoaded(members.(groupId := groupId, token := token))])
  }

  function Step(s: State, e: Event): State
    requires Enabled(s, e)
  {
    match e
    case Connected(conn) =>
      s.(main := Attach(s.main, conn), hist := s.hist.(usedConns := s.hist.usedConns + {conn}))
    case Disconnected(conn) =>
      s.(main := Detach(s.main, conn))
    case LoggedIn(conn, user) =>
      s.(main := Login(s.main, conn, user), hist := s.hist.(logins := s.hist.logins + {(conn, user)}))
    case Submit(recipient, packet) =>
      var parcel := Parcel(recipient, Encode(packet));
      s.(main := EnqueueIfOffline(s.main, recipient, packet),
         hist := s.hist.(submitted := s.hist.submitted + [parcel],
                         direct := if Online(s.main, recipient) then s.hist.direct + [parcel] else s.hist.direct))
    case AckArrived(user, msgId) =>
      s.(main := ReceivedAck(s.main, user, msgId), hist := s.hist.(acked := s.hist.acked + {(user, msgId)}))
    case Signal(request) =>
      s.(main := Post(s.main, request))
    case DatabaseStep(members) =>
      DatabaseStepped(s, members)
    case ReplyHandled =>
      var t := s.(handled := s.handled + 1);
      match s.replies[s.handled]
      case GroupMembersLoaded(_) => t
      case OfflineLoaded(user, packets) =>
        var main := OnOfflineLoaded(s.main, user, packets);
        t.(main := main, hist := Loaded(s.hist, user, packets, Held(s.main.pendingAckIds, user), Held(main.pendingAckIds, user)))
  }

  function Loaded(hist: History, user: UserId, packets: seq<QueuedPacket>, before: map<MsgId, nat>, after: map<MsgId, nat>): History {
    hist.(reloaded := hist.reloaded + set q | q in packets && HeldItself(before, q) :: q.id,
          held := hist.held + set m | m in after :: (user, m, after[m]))
  }

  /** The row waits for its ack under its own id. */
  predicate HeldItself(before: map<MsgId, nat>, q: QueuedPacket) {
    NeedsAckDoc(q.doc) && PacketIn(q.doc).msgId in before && before[PacketIn(q.doc).msgId] == q.id
  }

  /** A run. An event that cannot happen in the state it meets is skipped. */
  function Run(s: State, events: seq<Event>): State {
    if events == [] then s
    else
      var before := Run(s, events[..|events| - 1]);
      var e := events[|events| - 1];
      if Enabled(before, e) then Step(before, e) else before
  }

  lemma {:induction false} RunTogether(s: State, a: seq<Event>, b: seq<Event>)
    ensures Run(s, a + b) == Run(Run(s, a), b)
  {
    hide Step;
    if b == [] {
      assert a + b == a;
    } else {
      var n := |b| - 1;
      assert (a + b)[..|a| + n] == a + b[..n];
      RunTogether(s, a, b[..n]);
    }
  }

  lemma OneEvent(s: State, e: Event)
    requires Enabled(s, e)
    ensures Run(s, [e]) == Step(s, e)
  {
  }

  /** A run, seen from its first event. */
  lemma RunFrom(s: State, e: Event, rest: seq<Event>)
    requires Enabled(s, e)
    ensures Run(s, [e] + rest) == Run(Step(s, e), rest)
  {
    hide Step;
    RunTogether(s, [e], rest);
    OneEvent(s, e);
  }

  lemma ThreeEvents(s: State, a: Event, b: Event, c: Event)
    requires Enabled(s, a) && Enabled(Step(s, a), b) && Enabled(Step(Step(s, a), b), c)
    ensures Run(s, [a, b, c]) == Step(Step(Step(s, a), b), c)
  {
    hide Step, Run, Enabled;
    RunFrom(s, a, [b] + [c]);
    RunFrom(Step(s, a), b, [c]);
    OneEvent(Step(Step(s, a), b), c);
    assert [a, b, c] == [a] + ([b] + [c]);
  }

  lemma FourEvents(s: State, a: Event, b: Event, c: Event, d: Event)
    requires Enabled(s, a) && Enabled(Step(s, a), b) && Enabled(Step(Step(s, a), b), c) && Enabled(Step(Step(Step(s, a), b), c), d)
    ensures Run(s, [a, b, c, d]) == Step(Step(Step(Step(s, a), b), c), d)
  {
    hide Step, Run, Enabled;
    RunFrom(s, a, [b, c, d]);
    ThreeEvents(Step(s, a), b, c, d);
    assert [a, b, c, d] == [a] + [b, c, d];
  }

  // ---------------------------------------------------------------- invariant: rows, entries, hand-offs

  predicate IsRow(issued: seq<Row>, id: nat, user: UserId) {
    1 <= id <= |issued| && issued[id - 1].parcel.recipient == user
  }

  ghost predicate HandedOver(sent: seq<Handoff>, user: UserId, m: MsgId) {
    exists k :: 0 <= k < |sent| && sent[k].user == user && sent[k].packet.msgId == m
  }

  ghost predicate PacketHandedOver(sent: seq<Handoff>, user: UserId, p: Packet) {
    exists k :: 0 <= k < |sent| && sent[k].user == user && sent[k].packet == p
  }

  /** Rows are numbered 1, 2, ...; the table holds issued rows in id order, and all of them are readable. */
  ghost predicate TableOk(table: Table, issued: seq<Row>) {
    && table.nextId == |issued| + 1
    && (forall i :: 0 <= i < |issued| ==> issued[i].id == i + 1 && Readable(issued[i].parcel.doc))
    && (forall r :: r in table.rows ==> WasIssued(r, issued))
    && Ascending(table.rows)
  }

  predicate WasIssued(r: Row, issued: seq<Row>) {
    1 <= r.id <= |issued| && issued[r.id - 1] == r
  }

  ghost predicate Ascending(rows: seq<Row>) {
    forall i, j :: 0 <= i < j < |rows| ==> rows[i].id < rows[j].id
  }

  ghost predicate RequestsReadable(posted: seq<DbRequest>) {
    forall i :: 0 <= i < |posted| && posted[i].QueueOffline? ==> Readable(posted[i].parcel.doc)
  }

  /** A load result lists issued rows of its user, each once. */
  ghost predicate ResultOk(user: UserId, packets: seq<QueuedPacket>, issued: seq<Row>) {
    && (forall q :: q in packets ==> WasIssued(Row(q.id, Parcel(user, q.doc)), issued))
    && InIdOrder(packets)
  }

  ghost predicate InIdOrder(packets: seq<QueuedPacket>) {
    forall i, j :: 0 <= i < j < |packets| ==> packets[i].id < packets[j].id
  }

  ghost predicate RepliesOk(replies: seq<DbReply>, issued: seq<Row>) {
    forall i :: 0 <= i < |replies| && replies[i].OfflineLoaded? ==> ResultOk(replies[i].user, replies[i].packets, issued)
  }

  /** A pending entry (user, m) -> id names a row of that user whose msgId is m, and its packet was sent. */
  ghost predicate EntryOk(issued: seq<Row>, sent: seq<Handoff>, user: UserId, m: MsgId, id: nat) {
    && IsRow(issued, id, user)
    && NeedsAckDoc(issued[id - 1].parcel.doc)
    && PacketIn(issued[id - 1].parcel.doc).msgId == m
    && PacketHandedOver(sent, user, PacketIn(issued[id - 1].parcel.doc))
  }

  ghost predicate PendingOk(pending: Pending, issued: seq<Row>, sent: seq<Handoff>) {
    forall u, m :: u in pending && m in pending[u] ==> EntryOk(issued, sent, u, m, pending[u][m])
  }

  /** A packet with the row's msgId was routed for its recipient. */
  ghost predicate RowHanded(issued: seq<Row>, sent: seq<Handoff>, id: nat) {
    && 1 <= id <= |issued| && Readable(issued[id - 1].parcel.doc)
    && HandedOver(sent, issued[id - 1].parcel.recipient, PacketIn(issued[id - 1].parcel.doc).msgId)
  }

  ghost predicate MarksOk(posted: seq<DbRequest>, issued: seq<Row>, sent: seq<Handoff>) {
    forall i :: 0 <= i < |posted| && posted[i].MarkDelivered? ==> AllHanded(posted[i].ids, issued, sent)
  }

  ghost predicate AllHanded(ids: seq<nat>, issued: seq<Row>, sent: seq<Handoff>) {
    forall id :: id in ids ==> RowHanded(issued, sent, id)
  }

  ghost predicate DeletedOk(deleted: seq<Row>, issued: seq<Row>, sent: seq<Handoff>) {
    forall r :: r in deleted ==> RowHanded(issued, sent, r.id) && issued[r.id - 1] == r
  }

  ghost predicate ConnectionsOk(m: Main, hist: History) {
    && "" !in hist.usedConns
    && m.connections.Keys <= hist.usedConns
    && (forall u :: u in m.userMap ==> (m.userMap[u], u) in hist.logins)
    && (forall l :: l in hist.logins ==> l.0 in hist.usedConns && l.1 != "")
    && (forall k :: 0 <= k < |m.sent| ==> (m.sent[k].conn, m.sent[k].user) in hist.logins)
  }

  ghost predicate RowInv(s: State) {
    && s.consumed <= |s.main.posted| && s.handled <= |s.replies|
    && ConnectionsOk(s.main, s.hist)
    && TableOk(s.table, s.hist.issued)
    && RequestsReadable(s.main.posted)
    && RepliesOk(s.replies, s.hist.issued)
    && PendingOk(s.main.pendingAckIds, s.hist.issued, s.main.sent)
    && MarksOk(s.main.posted, s.hist.issued, s.main.sent)
    && DeletedOk(s.hist.deleted, s.hist.issued, s.main.sent)
  }

  // What was true of shorter logs stays true of longer ones.

  lemma MoreHandedOver(sent: seq<Handoff>, more: seq<Handoff>)
    ensures forall u, p :: PacketHandedOver(sent, u, p) ==> PacketHandedOver(sent + more, u, p)
    ensures forall u, m :: HandedOver(sent, u, m) ==> HandedOver(sent + more, u, m)
  {
    forall u, p | PacketHandedOver(sent, u, p)
      ensures PacketHandedOver(sent + more, u, p)
    {
      var k :| 0 <= k < |sent| && sent[k].user == u && sent[k].packet == p;
      assert (sent + more)[k] == sent[k];
    }
    forall u, m | HandedOver(sent, u, m)
      ensures HandedOver(sent + more, u, m)
    {
      var k :| 0 <= k < |sent| && sent[k].user == u && sent[k].packet.msgId == m;
      assert (sent + more)[k] == sent[k];
    }
  }

  lemma MoreSent(sent: seq<Handoff>, more: seq<Handoff>, pending: Pending, posted: seq<DbRequest>, issued: seq<Row>, deleted: seq<Row>)
    requires PendingOk(pending, issued, sent) && MarksOk(posted, issued, sent) && DeletedOk(deleted, issued, sent)
    ensures PendingOk(pending, issued, sent + more) && MarksOk(posted, issued, sent + more) && DeletedOk(deleted, issued, sent + more)
  {
    hide Decode;
    MoreHandedOver(sent, more);
    forall i | 0 <= i < |posted| && posted[i].MarkDelivered?
      ensures AllHanded(posted[i].ids, issued, sent + more)
    {
      assert AllHanded(posted[i].ids, issued, sent);
      forall id | id in posted[i].ids ensures RowHanded(issued, sent + more, id) {
        assert RowHanded(issued, sent, id);
      }
    }
  }

  lemma MoreIssuedMarks(issued: seq<Row>, row: Row, posted: seq<DbRequest>, sent: seq<Handoff>)
    requires MarksOk(posted, issued, sent)
    ensures MarksOk(posted, issued + [row], sent)
  {
  }

  lemma MoreIssuedEntries(issued: seq<Row>, row: Row, pending: Pending, deleted: seq<Row>, replies: seq<DbReply>, sent: seq<Handoff>)
    requires PendingOk(pending, issued, sent) && DeletedOk(deleted, issued, sent) && RepliesOk(replies, issued)
    ensures PendingOk(pending, issued + [row], sent)
    ensures DeletedOk(deleted, issued + [row], sent)
    ensures RepliesOk(replies, issued + [row])
  {
  }

  lemma {:induction false} SelectAscending(rows: seq<Row>, user: UserId)
    requires Ascending(rows)
    ensures InIdOrder(Select(rows, user))
  {
    if rows != [] {
      var n := |rows| - 1;
      SelectAscending(rows[..n], user);
      var front := Select(rows[..n], user);
      forall i | 0 <= i < |front| ensures front[i].id < rows[n].id {
        assert front[i] in front;
        var r := Row(front[i].id, Parcel(user, front[i].doc));
        var k :| 0 <= k < |rows[..n]| && rows[..n][k] == r;
        assert rows[k].id < rows[n].id;
      }
      assert Select(rows, user) == front || Select(rows, user) == front + [QueuedPacket(rows[n].id, rows[n].parcel.doc)];
    }
  }

  lemma {:induction false} KeepAscending(rows: seq<Row>, ids: seq<nat>, wanted: bool)
    requires Ascending(rows)
    ensures Ascending(Keep(rows, ids, wanted))
  {
    if rows != [] {
      var n := |rows| - 1;
      KeepAscending(rows[..n], ids, wanted);
      var front := Keep(rows[..n], ids, wanted);
      forall i | 0 <= i < |front| ensures front[i].id < rows[n].id {
        assert front[i] in front;
        assert front[i] in rows[..n];
      }
    }
  }

  lemma RowInvInsert(s: State, parcel: Parcel, t: State)
    requires RowInv(s) && s.consumed < |s.main.posted| && s.main.posted[s.consumed] == QueueOffline(parcel)
    requires t.main == s.main && t.consumed == s.consumed + 1 && t.table == Insert(s.table, parcel)
    requires t.replies == s.replies && t.handled == s.handled
    requires t.hist == s.hist.(issued := s.hist.issued + [Row(s.table.nextId, parcel)])
    ensures RowInv(t)
  {
    hide Decode;
    var row := Row(s.table.nextId, parcel);
    MoreIssuedMarks(s.hist.issued, row, s.main.posted, s.main.sent);
    MoreIssuedEntries(s.hist.issued, row, s.main.pendingAckIds, s.hist.deleted, s.replies, s.main.sent);
    TableOkInsert(s.table, s.hist.issued, parcel);
  }

  lemma TableOkInsert(table: Table, issued: seq<Row>, parcel: Parcel)
    requires TableOk(table, issued) && Readable(parcel.doc)
    ensures TableOk(Insert(table, parcel), issued + [Row(table.nextId, parcel)])
  {
    forall i | 0 <= i < |table.rows| ensures table.rows[i].id < table.nextId {
      assert table.rows[i] in table.rows;
      assert WasIssued(table.rows[i], issued);
    }
    forall r | r in table.rows + [Row(table.nextId, parcel)]
      ensures WasIssued(r, issued + [Row(table.nextId, parcel)])
    {
      if r in table.rows { assert WasIssued(r, issued); }
    }
  }

  lemma RowInvDelete(s: State, ids: seq<nat>, t: State)
    requires RowInv(s) && s.consumed < |s.main.posted| && s.main.posted[s.consumed] == MarkDelivered(ids)
    requires t.main == s.main && t.consumed == s.consumed + 1 && t.table == Delete(s.table, ids)
    requires t.replies == s.replies && t.handled == s.handled
    requires t.hist == s.hist.(deleted := s.hist.deleted + Keep(s.table.rows, ids, true))
    ensures RowInv(t)
  {
    KeepAscending(s.table.rows, ids, false);
    assert TableOk(t.table, t.hist.issued);
    assert AllHanded(ids, s.hist.issued, s.main.sent);
    MoreDeleted(s, ids);
    hide Decode, TableOk, RowHanded, HandedOver, ConnectionsOk, RepliesOk, PendingOk, MarksOk, DeletedOk;
  }

  lemma MoreDeleted(s: State, ids: seq<nat>)
    requires TableOk(s.table, s.hist.issued) && AllHanded(ids, s.hist.issued, s.main.sent)
    requires DeletedOk(s.hist.deleted, s.hist.issued, s.main.sent)
    ensures DeletedOk(s.hist.deleted + Keep(s.table.rows, ids, true), s.hist.issued, s.main.sent)
  {
  }

  lemma RowInvDatabase(s: State, members: MembersResult)
    requires RowInv(s) && s.consumed < |s.main.posted|
    ensures RowInv(DatabaseStepped(s, members))
  {
    var t := DatabaseStepped(s, members);
    match s.main.posted[s.consumed]
    case QueueOffline(parcel) => RowInvInsert(s, parcel, t);
    case LoadOffline(user) =>
      SelectAscending(s.table.rows, user);
      forall q | q in Select(s.table.rows, user)
        ensures WasIssued(Row(q.id, Parcel(user, q.doc)), s.hist.issued)
      {
        assert Row(q.id, Parcel(user, q.doc)) in s.table.rows;
      }
      assert ResultOk(user, Select(s.table.rows, user), s.hist.issued);
    case MarkDelivered(ids) => RowInvDelete(s, ids, t);
    case StoreMessage(_) =>
    case LoadGroupMembers(_, _) =>
  }

  lemma RowInvSubmit(s: State, recipient: UserId, packet: Packet)
    requires RowInv(s) && packet.msgId != ""
    ensures RowInv(Step(s, Submit(recipient, packet)))
  {
    EncodedIsReadable(packet);
    match FindByUserId(s.main, recipient)
    case None =>
    case Some(conn) =>
      MoreSent(s.main.sent, [Handoff(conn, s.main.connections[conn], recipient, packet)], s.main.pendingAckIds, s.main.posted, s.hist.issued, s.hist.deleted);
  }

  lemma EntryHanded(issued: seq<Row>, sent: seq<Handoff>, user: UserId, m: MsgId, id: nat)
    requires EntryOk(issued, sent, user, m, id)
    ensures HandedOver(sent, user, m) && RowHanded(issued, sent, id)
  {
  }

  lemma PostedMark(posted: seq<DbRequest>, ids: seq<nat>, issued: seq<Row>, sent: seq<Handoff>)
    requires MarksOk(posted, issued, sent) && RequestsReadable(posted) && AllHanded(ids, issued, sent)
    ensures MarksOk(posted + [MarkDelivered(ids)], issued, sent) && RequestsReadable(posted + [MarkDelivered(ids)])
  {
  }

  lemma RowInvAck(s: State, user: UserId, msgId: MsgId)
    requires RowInv(s)
    ensures RowInv(Step(s, AckArrived(user, msgId)))
  {
    hide Decode;
    if msgId in Held(s.main.pendingAckIds, user) {
      var id := s.main.pendingAckIds[user][msgId];
      assert EntryOk(s.hist.issued, s.main.sent, user, msgId, id);
      EntryHanded(s.hist.issued, s.main.sent, user, msgId, id);
      PostedMark(s.main.posted, [id], s.hist.issued, s.main.sent);
      FewerEntries(s.main.pendingAckIds, Step(s, AckArrived(user, msgId)).main.pendingAckIds, s.hist.issued, s.main.sent);
    }
  }

  lemma FewerEntries(pending: Pending, fewer: Pending, issued: seq<Row>, sent: seq<Handoff>)
    requires PendingOk(pending, issued, sent)
    requires forall u, m :: u in fewer && m in fewer[u] ==> u in pending && m in pending[u] && pending[u][m] == fewer[u][m]
    ensures PendingOk(fewer, issued, sent)
  {
  }

  lemma ReadableResult(s: State, user: UserId, packets: seq<QueuedPacket>)
    requires TableOk(s.table, s.hist.issued) && ResultOk(user, packets, s.hist.issued)
    ensures AllReadable(packets)
  {
  }

  lemma NewEntryOk(issued: seq<Row>, pending: Pending, user: UserId, packets: seq<QueuedPacket>, conn: ConnId, owner: UserId, sent: seq<Handoff>, m: MsgId)
    requires ResultOk(user, packets, issued) && AllReadable(packets)
    requires var p := DeliverAll(pending, user, true, packets);
             m in Held(p.pending, user) && m !in Held(pending, user)
    ensures var p := DeliverAll(pending, user, true, packets);
            EntryOk(issued, sent + Handoffs(conn, owner, user, p.sent), user, m, Held(p.pending, user)[m])
  {
    hide Decode, DeliverAll;
    var p := DeliverAll(pending, user, true, packets);
    var items := Items(packets);
    LoopIsPass(pending, user, packets);
    NewEntriesWereSent(Held(pending, user), items, m);
    var i :| 0 <= i < |items| && items[i].id == Held(p.pending, user)[m] && items[i].NeedsAck()
             && items[i].packet.msgId == m && items[i].packet in p.sent;
    assert packets[i] in packets;
    assert WasIssued(Row(packets[i].id, Parcel(user, packets[i].doc)), issued);
    SentIsHandedOver(sent, conn, owner, user, p.sent, items[i].packet);
  }

  lemma OldEntryKept(pending: Pending, user: UserId, packets: seq<QueuedPacket>, u: UserId, m: MsgId)
    requires AllReadable(packets)
    requires u != user || m in Held(pending, user)
    requires m in Held(DeliverAll(pending, user, true, packets).pending, u)
    ensures m in Held(pending, u) && Held(pending, u)[m] == Held(DeliverAll(pending, user, true, packets).pending, u)[m]
  {
    if u != user {
      OtherUsersKept(pending, user, true, packets, u);
    } else {
      LoopIsPass(pending, user, packets);
      HeldAfter(Held(pending, user), Items(packets));
    }
  }

  lemma EntriesAfterDelivery(s: State, user: UserId, packets: seq<QueuedPacket>, conn: ConnId, owner: UserId)
    requires RowInv(s) && ResultOk(user, packets, s.hist.issued) && FindByUserId(s.main, user) == Some(conn)
    ensures var p := DeliverAll(s.main.pendingAckIds, user, true, packets);
            PendingOk(p.pending, s.hist.issued, s.main.sent + Handoffs(conn, owner, user, p.sent))
  {
    hide Decode, DeliverAll;
    var issued, pending := s.hist.issued, s.main.pendingAckIds;
    var p := DeliverAll(pending, user, true, packets);
    var more := Handoffs(conn, owner, user, p.sent);
    ReadableResult(s, user, packets);
    MoreSent(s.main.sent, more, pending, s.main.posted, issued, s.hist.deleted);
    forall u, m | u in p.pending && m in p.pending[u]
      ensures EntryOk(issued, s.main.sent + more, u, m, p.pending[u][m])
    {
      if u == user && m !in Held(pending, user) {
        NewEntryOk(issued, pending, user, packets, conn, owner, s.main.sent, m);
      } else {
        OldEntryKept(pending, user, packets, u, m);
        assert EntryOk(issued, s.main.sent + more, u, m, pending[u][m]);
      }
    }
  }

  lemma SentIsHandedOver(sent: seq<Handoff>, conn: ConnId, owner: UserId, user: UserId, packets: seq<Packet>, p: Packet)
    requires p in packets
    ensures PacketHandedOver(sent + Handoffs(conn, owner, user, packets), user, p)
    ensures HandedOver(sent + Handoffs(conn, owner, user, packets), user, p.msgId)
  {
    var k :| 0 <= k < |packets| && packets[k] == p;
    assert (sent + Handoffs(conn, owner, user, packets))[|sent| + k] == Handoff(conn, owner, user, p);
  }

  lemma RemovableHanded(s: State, user: UserId, packets: seq<QueuedPacket>, conn: ConnId, owner: UserId, id: nat)
    requires RowInv(s) && ResultOk(user, packets, s.hist.issued) && FindByUserId(s.main, user) == Some(conn)
    requires id in DeliverAll(s.main.pendingAckIds, user, true, packets).removable
    ensures var p := DeliverAll(s.main.pendingAckIds, user, true, packets);
            RowHanded(s.hist.issued, s.main.sent + Handoffs(conn, owner, user, p.sent), id)
  {
    hide Decode, DeliverAll, PassAll, Handoffs;
    var pending := s.main.pendingAckIds;
    ReadableResult(s, user, packets);
    LoopIsPass(pending, user, packets);
    var items := Items(packets);
    ReportedIsRemovable(Held(pending, user), items, id);
    var i :| 0 <= i < |items| && items[i].id == id && Removable(Held(pending, user), items, i);
    RemovableRowHanded(s, user, packets, conn, owner, i);
  }

  lemma RemovableRowHanded(s: State, user: UserId, packets: seq<QueuedPacket>, conn: ConnId, owner: UserId, i: nat)
    requires RowInv(s) && ResultOk(user, packets, s.hist.issued) && FindByUserId(s.main, user) == Some(conn)
    requires AllReadable(packets) && i < |packets| && Removable(Held(s.main.pendingAckIds, user), Items(packets), i)
    ensures var p := DeliverAll(s.main.pendingAckIds, user, true, packets);
            RowHanded(s.hist.issued, s.main.sent + Handoffs(conn, owner, user, p.sent), packets[i].id)
  {
    hide Decode, DeliverAll, PassAll, Handoffs, RowInv, FindByUserId;
    var before, items := Held(s.main.pendingAckIds, user), Items(packets);
    var p := DeliverAll(s.main.pendingAckIds, user, true, packets);
    LoopIsPass(s.main.pendingAckIds, user, packets);
    assert packets[i] in packets && WasIssued(Row(packets[i].id, Parcel(user, packets[i].doc)), s.hist.issued);
    if items[i].NeedsAck() {
      ShadowedIsHeld(before, items, i);
      EntriesAfterDelivery(s, user, packets, conn, owner);
      HeldIsHanded(p.pending, s.hist.issued, s.main.sent + Handoffs(conn, owner, user, p.sent), user, items[i].packet.msgId);
    } else {
      UnshadowedIsSent(before, items, i);
      SentIsHandedOver(s.main.sent, conn, owner, user, p.sent, PacketIn(packets[i].doc));
    }
  }

  lemma {:induction false} ShadowedIsHeld(before: map<MsgId, nat>, items: seq<Item>, i: nat)
    requires i < |items| && Shadowed(before, items, i)
    ensures items[i].packet.msgId in PassAll(before, items).held
  {
    hide PassAll;
    HeldAfter(before, items);
    assert Mentioned(items, items[i].packet.msgId);
  }

  lemma HeldIsHanded(pending: Pending, issued: seq<Row>, sent: seq<Handoff>, user: UserId, m: MsgId)
    requires PendingOk(pending, issued, sent) && m in Held(pending, user)
    ensures HandedOver(sent, user, m)
  {
  }

  lemma RowInvLoadedOnline(s: State, user: UserId, packets: seq<QueuedPacket>, conn: ConnId, owner: UserId, s': State)
    requires RowInv(s) && ResultOk(user, packets, s.hist.issued) && Target(s.main, user) == (conn, owner)
    requires FindByUserId(s.main, user) == Some(conn)
    requires packets != []
    requires s'.main == OnOfflineLoaded(s.main, user, packets) && s'.table == s.table && s'.consumed == s.consumed
    requires s'.replies == s.replies && s'.handled <= |s.replies|
    requires s'.hist.(reloaded := s.hist.reloaded, held := s.hist.held) == s.hist
    ensures RowInv(s')
  {
    hide Decode;
    var p := DeliverAll(s.main.pendingAckIds, user, true, packets);
    var more := Handoffs(conn, owner, user, p.sent);
    EntriesAfterDelivery(s, user, packets, conn, owner);
    MoreSent(s.main.sent, more, s.main.pendingAckIds, s.main.posted, s.hist.issued, s.hist.deleted);
    forall id | id in p.removable
      ensures RowHanded(s.hist.issued, s.main.sent + more, id)
    {
      RemovableHanded(s, user, packets, conn, owner, id);
    }
    PostedMark(s.main.posted, p.removable, s.hist.issued, s.main.sent + more);
  }

  lemma OfflineEntries(s: State, user: UserId, packets: seq<QueuedPacket>)
    requires RowInv(s) && ResultOk(user, packets, s.hist.issued) && AllReadable(packets)
    ensures PendingOk(DeliverAll(s.main.pendingAckIds, user, false, packets).pending, s.hist.issued, s.main.sent)
  {
    hide Decode;
    var pending := s.main.pendingAckIds;
    var p := DeliverAll(pending, user, false, packets);
    DeliveredOffline(pending, user, packets);
    forall u, m | u in p.pending && m in p.pending[u]
      ensures u in pending && m in pending[u] && pending[u][m] == p.pending[u][m]
    {
      if u != user { OtherUsersKept(pending, user, false, packets, u); }
      assert m in Held(pending, u);
    }
    FewerEntries(pending, p.pending, s.hist.issued, s.main.sent);
  }

  lemma OfflineMarks(s: State, user: UserId, packets: seq<QueuedPacket>)
    requires RowInv(s) && ResultOk(user, packets, s.hist.issued) && AllReadable(packets)
    ensures AllHanded(DeliverAll(s.main.pendingAckIds, user, false, packets).removable, s.hist.issued, s.main.sent)
  {
    hide Decode;
    var pending := s.main.pendingAckIds;
    DeliveredOffline(pending, user, packets);
    forall id | id in DeliverAll(pending, user, false, packets).removable
      ensures RowHanded(s.hist.issued, s.main.sent, id)
    {
      var i :| 0 <= i < |packets| && packets[i].id == id && AllTaken(Held(pending, user), packets, i + 1);
      assert packets[i] in packets && NeedsAckDoc(packets[i].doc);
      assert WasIssued(Row(id, Parcel(user, packets[i].doc)), s.hist.issued);
      HeldIsHanded(pending, s.hist.issued, s.main.sent, user, PacketIn(packets[i].doc).msgId);
    }
  }

  lemma HandledOffline(m: Main, user: UserId, packets: seq<QueuedPacket>)
    requires !Online(m, user) && AllReadable(packets) && packets != []
    ensures var p := DeliverAll(m.pendingAckIds, user, false, packets);
            OnOfflineLoaded(m, user, packets) ==
            m.(pendingAckIds := p.pending,
               posted := if p.removable == [] then m.posted else m.posted + [MarkDelivered(p.removable)])
  {
    hide Decode, DeliverAll;
    DeliveredOffline(m.pendingAckIds, user, packets);
    assert m.sent + HandoffsFor(m, user, []) == m.sent;
  }

  lemma RowInvLoadedOffline(s: State, user: UserId, packets: seq<QueuedPacket>, s': State)
    requires RowInv(s) && ResultOk(user, packets, s.hist.issued) && !Online(s.main, user)
    requires packets != []
    requires s'.main == OnOfflineLoaded(s.main, user, packets) && s'.table == s.table && s'.consumed == s.consumed
    requires s'.replies == s.replies && s'.handled <= |s.replies|
    requires s'.hist.(reloaded := s.hist.reloaded, held := s.hist.held) == s.hist
    ensures RowInv(s')
  {
    hide Decode, DeliverAll;
    ReadableResult(s, user, packets);
    OfflineEntries(s, user, packets);
    OfflineMarks(s, user, packets);
    HandledOffline(s.main, user, packets);
    PostedMark(s.main.posted, DeliverAll(s.main.pendingAckIds, user, false, packets).removable, s.hist.issued, s.main.sent);
    hide OnOfflineLoaded, PendingOk, MarksOk, TableOk, DeletedOk, RepliesOk, RequestsReadable;
  }

  lemma RowInvReply(s: State)
    requires RowInv(s) && s.handled < |s.replies|
    ensures RowInv(Step(s, ReplyHandled))
  {
    match s.replies[s.handled]
    case GroupMembersLoaded(_) =>
    case OfflineLoaded(user, packets) =>
      if packets != [] {
        match FindByUserId(s.main, user)
        case None => RowInvLoadedOffline(s, user, packets, Step(s, ReplyHandled));
        case Some(conn) => RowInvLoadedOnline(s, user, packets, conn, s.main.connections[conn], Step(s, ReplyHandled));
      }
  }

  lemma RowInvSession(s: State, e: Event)
    requires RowInv(s) && Enabled(s, e) && (e.Connected? || e.Disconnected? || e.LoggedIn? || e.Signal?)
    ensures RowInv(Step(s, e))
  {
  }

  lemma RowInvStep(s: State, e: Event)
    requires RowInv(s) && Enabled(s, e)
    ensures RowInv(Step(s, e))
  {
    match e
    case Submit(recipient, packet) => RowInvSubmit(s, recipient, packet);
    case AckArrived(user, msgId) => RowInvAck(s, user, msgId);
    case DatabaseStep(members) => RowInvDatabase(s, members);
    case ReplyHandled => RowInvReply(s);
    case Connected(_) => RowInvSession(s, e);
    case Disconnected(_) => RowInvSession(s, e);
    case LoggedIn(_, _) => RowInvSession(s, e);
    case Signal(_) => RowInvSession(s, e);
  }
}
