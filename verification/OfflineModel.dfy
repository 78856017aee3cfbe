/** What the handlers of the session manager, the message router, the offline manager and the
    offline queue compute, on values. The classes that update their fields in place are proved
    against these functions. */
module OfflineModel {
  import opened Packets
  import opened Wire

  type Pending = map<UserId, map<MsgId, nat>>

  /** The part of the main thread that offline delivery uses. `sent` and `posted` only grow:
      what was handed to a session, and what was signalled to the message store. */
  datatype Main = Main(
    connections: map<ConnId, UserId>,  // user id of each attached session, "" before authentication
    userMap: map<UserId, ConnId>,
    pendingAckIds: Pending,
    sent: seq<Handoff>,
    posted: seq<DbRequest>)

  // ---------------------------------------------------------------- sessions and routing

  function FindByUserId(m: Main, user: UserId): (found: Option<ConnId>)
    ensures found.Some? ==> found.value in m.connections
  {
    var conn := if user in m.userMap then m.userMap[user] else "";
    if conn == "" || conn !in m.connections then None else Some(conn)
  }

  predicate Online(m: Main, user: UserId) {
    FindByUserId(m, user).Some?
  }

  function Attach(m: Main, conn: ConnId): Main {
    m.(connections := m.connections[conn := ""])
  }

  /** Detaching forgets the user of the session, whichever connection `userMap` names for that user. */
  function Detach(m: Main, conn: ConnId): Main {
    if conn !in m.connections then m
    else
      var user := m.connections[conn];
      var gone := m.(connections := m.connections - {conn});
      if user == "" then gone
      else gone.(userMap := m.userMap - {user}, pendingAckIds := m.pendingAckIds - {user})
  }

  function Authenticate(m: Main, conn: ConnId, user: UserId): Main {
    if conn !in m.connections then m
    else m.(connections := m.connections[conn := user], userMap := m.userMap[user := conn])
  }

  function Post(m: Main, request: DbRequest): Main {
    m.(posted := m.posted + [request])
  }

  /** Authentication succeeded: the session is marked and the queued packets are asked for. */
  function Login(m: Main, conn: ConnId, user: UserId): Main {
    Post(Authenticate(m, conn, user), LoadOffline(user))
  }

  function Route(m: Main, user: UserId, packet: Packet): Main {
    match FindByUserId(m, user)
    case None => m
    case Some(conn) => m.(sent := m.sent + [Handoff(conn, m.connections[conn], user, packet)])
  }

  function EnqueueIfOffline(m: Main, user: UserId, packet: Packet): Main {
    if Online(m, user) then Route(m, user, packet)
    else Post(m, QueueOffline(Parcel(user, Encode(packet))))
  }

  // ---------------------------------------------------------------- acknowledgements

  function Held(pending: Pending, user: UserId): map<MsgId, nat> {
    if user in pending then pending[user] else map[]
  }

  function ReceivedAck(m: Main, user: UserId, msgId: MsgId): Main {
    if user == "" || msgId == "" || msgId !in Held(m.pendingAckIds, user) then m
    else
      var rest := m.pendingAckIds[user] - {msgId};
      Post(m.(pendingAckIds := if rest == map[] then m.pendingAckIds - {user} else m.pendingAckIds[user := rest]),
           MarkDelivered([m.pendingAckIds[user][msgId]]))
  }

  // ---------------------------------------------------------------- delivery of a load result

  datatype Progress = Progress(pending: Pending, removable: seq<nat>, sent: seq<Packet>, stopped: bool)

  /** One round of the delivery loop. */
  function DeliverOne(p: Progress, user: UserId, online: bool, q: QueuedPacket): Progress {
    if p.stopped then p
    else
      match Decode(q.doc)
      case Failed(_) => p.(removable := p.removable + [q.id])
      case Decoded(packet) =>
        if packet.msgId == "" then p.(removable := p.removable + [q.id])
        else if packet.cmd == ReceiveMessage then
          var byMsgId := Held(p.pending, user);
          if packet.msgId in byMsgId then
            p.(pending := p.pending[user := byMsgId], removable := p.removable + [q.id])
          else if online then
            p.(pending := p.pending[user := byMsgId[packet.msgId := q.id]], sent := p.sent + [packet])
          else
            p.(pending := p.pending[user := byMsgId], stopped := true)
        else if online then p.(removable := p.removable + [q.id], sent := p.sent + [packet])
        else p.(stopped := true)
  }

  function DeliverAll(pending: Pending, user: UserId, online: bool, packets: seq<QueuedPacket>): Progress {
    if packets == [] then Progress(pending, [], [], false)
    else DeliverOne(DeliverAll(pending, user, online, packets[..|packets| - 1]), user, online, packets[|packets| - 1])
  }

  function Handoffs(conn: ConnId, owner: UserId, user: UserId, packets: seq<Packet>): seq<Handoff> {
    seq(|packets|, i requires 0 <= i < |packets| => Handoff(conn, owner, user, packets[i]))
  }

  /** The session that hand-offs for a user go to, and the user it is authenticated as. */
  function Target(m: Main, user: UserId): (ConnId, UserId) {
    match FindByUserId(m, user)
    case None => ("", "")
    case Some(conn) => (conn, m.connections[conn])
  }

  function HandoffsFor(m: Main, user: UserId, packets: seq<Packet>): seq<Handoff> {
    Handoffs(Target(m, user).0, Target(m, user).1, user, packets)
  }

  function OnOfflineLoaded(m: Main, user: UserId, packets: seq<QueuedPacket>): Main {
    if packets == [] then m
    else
      var p := DeliverAll(m.pendingAckIds, user, Online(m, user), packets);
      var delivered := m.(pendingAckIds := p.pending, sent := m.sent + HandoffsFor(m, user, p.sent));
      if p.removable == [] then delivered else Post(delivered, MarkDelivered(p.removable))
  }

  // ---------------------------------------------------------------- the table on the database thread

  datatype Table = Table(rows: seq<Row>, nextId: nat)

  function Insert(t: Table, parcel: Parcel): Table {
    Table(t.rows + [Row(t.nextId, parcel)], t.nextId + 1)
  }

  /** SELECT id, packet_json ... WHERE recipient_user_id = user ORDER BY id ASC. */
  function Select(rows: seq<Row>, user: UserId): (found: seq<QueuedPacket>)
    ensures forall q :: q in found <==> Row(q.id, Parcel(user, q.doc)) in rows
  {
    if rows == [] then []
    else
      var front := Select(rows[..|rows| - 1], user);
      var last := rows[|rows| - 1];
      assert rows == rows[..|rows| - 1] + [last];
      if last.parcel.recipient == user then front + [QueuedPacket(last.id, last.parcel.doc)] else front
  }

  /** The rows that a predicate keeps, in order. */
  function Keep(rows: seq<Row>, ids: seq<nat>, wanted: bool): (kept: seq<Row>)
    ensures forall r :: r in kept <==> r in rows && (r.id in ids) == wanted
  {
    if rows == [] then []
    else
      var front := Keep(rows[..|rows| - 1], ids, wanted);
      var last := rows[|rows| - 1];
      assert rows == rows[..|rows| - 1] + [last];
      if (last.id in ids) == wanted then front + [last] else front
  }

  function Delete(t: Table, ids: seq<nat>): Table {
    t.(rows := Keep(t.rows, ids, false))
  }
}
