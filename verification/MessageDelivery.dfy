/** What the message delivery service and the group management service compute, on values.

    A handler's effects outside the service are listed as events of the offline protocol, in the order in which
    the handler causes them. */
module MessageDelivery {
  import opened Packets
  import opened Wire
  import opened Text
  import opened IdempotencyWindow
  import OfflineProtocol

  type Effect = e: OfflineProtocol.Event | e.Submit? || (e.Signal? && (e.request.StoreMessage? || e.request.LoadGroupMembers?))
    witness OfflineProtocol.Signal(LoadGroupMembers("", ""))

  const MAX_CONTENT_CHARS := 4096
  const MAX_CONTENT_UTF8_BYTES := 16 * 1024
  const PROTOCOL_VERSION := "1.2"
  const MESSAGE_PREFIX := "grpmsg_"
  const NOTIFY_PREFIX := "grp_notify_"

  /** `expectedSessionId` is the hash computed from the two user ids; SHA-256 is not modelled. */
  datatype SendParams = SendParams(
    msgId: MsgId, sessionType: string, sessionId: string, content: string, senderUserId: UserId,
    senderNickname: string, recipientUserId: UserId, senderSession: ConnId, expectedSessionId: string)

  datatype PendingGroupMessage = PendingGroupMessage(
    receiveMsg: Packet, requestKey: Key, senderUserId: UserId, groupId: string, serverId: MsgId,
    clientMsgId: MsgId, senderSession: ConnId)

  datatype PendingNotification = PendingNotification(packet: Packet, targetUserId: UserId, groupName: string)

  /** One emission of ackReady. `sender` and `token` record which request and which reply caused it. */
  datatype Ack = Ack(session: ConnId, msgId: MsgId, code: int, message: string, serverId: MsgId,
                     sender: UserId, token: Option<Token>)

  datatype Service = Service(window: Window, inFlight: set<Key>, pendingGroup: map<Token, PendingGroupMessage>, acks: seq<Ack>)

  datatype Outcome = Outcome(service: Service, effects: seq<Effect>, inserted: Option<Insertion>)

  /** Readings of the clock in the order in which a handler takes them, and the formatted time. */
  datatype Clock = Clock(t0: int, t1: int, t2: int, timestamp: string)

  predicate TooLarge(content: string) {
    Utf16Size(content) > MAX_CONTENT_CHARS || Utf8Size(content) > MAX_CONTENT_UTF8_BYTES
  }

  /** The byte limit never decides: a text within the character limit is within it too. */
  lemma CharacterLimitDecides(content: string)
    ensures TooLarge(content) <==> Utf16Size(content) > MAX_CONTENT_CHARS
  {
    Utf8PerUnit(content);
  }

  function ReceivePacket(p: SendParams, sessionType: string, serverId: MsgId, timestamp: string): Packet {
    Packet(ReceiveMessage, serverId, PROTOCOL_VERSION, timestamp,
           map["sessionType" := JString(sessionType), "sessionId" := JString(p.sessionId),
               "senderUserId" := JString(p.senderUserId), "senderNickname" := JString(p.senderNickname),
               "content" := JString(p.content)],
           0, "")
  }

  // ---------------------------------------------------------------- fan-out

  /** The recipients of a fan-out; an empty `exclude` excludes nobody. */
  function Recipients(users: seq<UserId>, exclude: UserId): seq<UserId> {
    if users == [] then []
    else
      var front, last := Recipients(users[..|users| - 1], exclude), users[|users| - 1];
      if exclude != "" && last == exclude then front else front + [last]
  }

  function SubmitAll(users: seq<UserId>, packet: Packet): (effects: seq<Effect>)
    ensures |effects| == |users|
    ensures forall i :: 0 <= i < |users| ==> effects[i] == OfflineProtocol.Submit(users[i], packet)
  {
    seq(|users|, i requires 0 <= i < |users| => OfflineProtocol.Submit(users[i], packet))
  }

  // ---------------------------------------------------------------- send_message

  function Answer(v: Service, p: SendParams, code: int, message: string, serverId: MsgId): Service {
    v.(acks := v.acks + [Ack(p.senderSession, p.msgId, code, message, serverId, p.senderUserId, None)])
  }

  function ProcessSendMessage(v: Service, p: SendParams, clock: Clock, serverId: MsgId, token: Token): Outcome {
    var u := v.(window := Prune(v.window, clock.t0));
    var key := RequestKeyFor(p.senderUserId, p.msgId);
    if key in u.window.cache then
      var e := u.window.cache[key];
      Outcome(Answer(u, p, e.code, e.message, e.serverId), [], None)
    else if TooLarge(p.content) then
      Outcome(Answer(u, p, 413, "Message too large", ""), [], None)
    else if p.sessionType == "private" && p.sessionId != p.expectedSessionId then
      Outcome(Answer(u, p, 400, "sessionId hash mismatch", ""), [], None)
    else if p.sessionType == "private" then
      var entry := Entry(200, "", serverId, clock.t1);
      var store := StoreRequest(p.msgId, p.sessionId, p.senderUserId, p.content, clock.timestamp, serverId);
      var packet := ReceivePacket(p, "private", serverId, clock.timestamp);
      Outcome(
        Answer(u.(window := Prune(Remember(u.window, key, entry), clock.t2)), p, 200, "", serverId),
        [OfflineProtocol.Signal(StoreMessage(store))] + SubmitAll([p.recipientUserId], packet),
        Some(Insertion(key, entry, Some(Acceptance(store, [p.recipientUserId], packet)))))
    else if key in u.inFlight then
      Outcome(u, [], None)
    else
      var pending := PendingGroupMessage(ReceivePacket(p, "group", serverId, clock.timestamp), key, p.senderUserId,
                                         p.sessionId, serverId, p.msgId, p.senderSession);
      Outcome(
        u.(inFlight := u.inFlight + {key}, pendingGroup := u.pendingGroup[token := pending]),
        [OfflineProtocol.Signal(LoadGroupMembers(p.sessionId, token))],
        None)
  }

  // ---------------------------------------------------------------- the member list arrives

  function Reply(v: Service, p: PendingGroupMessage, token: Token, code: int, message: string, serverId: MsgId): Service {
    v.(acks := v.acks + [Ack(p.senderSession, p.clientMsgId, code, message, serverId, p.senderUserId, Some(token))])
  }

  function WithGroupName(packet: Packet, name: string): Packet {
    if name == "" then packet else packet.(payload := packet.payload["groupName" := JString(name)])
  }

  /** The answer to a group send, once its token and key are no longer pending. */
  function Settled(u: Service, p: PendingGroupMessage, r: MembersResult, clock: Clock): Outcome {
    if !r.success then
      Outcome(Reply(u, p, r.token, if r.errorCode > 0 then r.errorCode else 500, r.errorMessage, ""), [], None)
    else if p.senderUserId !in r.members then
      var entry := Entry(403, "Sender is not a member of group", "", clock.t1);
      Outcome(
        Reply(u.(window := Prune(Remember(u.window, p.requestKey, entry), clock.t2)), p, r.token, 403, entry.message, ""),
        [], Some(Insertion(p.requestKey, entry, None)))
    else
      var entry := Entry(200, "", p.serverId, clock.t1);
      var packet := WithGroupName(p.receiveMsg, Trim(r.groupName));
      var store := StoreRequest(p.clientMsgId, p.groupId, p.senderUserId, TextField(packet.payload, "content", ""),
                                packet.timestampUtc, p.serverId);
      var recipients := Recipients(r.members, p.senderUserId);
      Outcome(
        Reply(u.(window := Prune(Remember(u.window, p.requestKey, entry), clock.t2)), p, r.token, 200, "", p.serverId),
        [OfflineProtocol.Signal(StoreMessage(store))] + SubmitAll(recipients, packet),
        Some(Insertion(p.requestKey, entry, Some(Acceptance(store, recipients, packet)))))
  }

  function OnGroupMembersForMessage(v: Service, r: MembersResult, clock: Clock): Outcome {
    if r.token !in v.pendingGroup then Outcome(v, [], None)
    else
      var p := v.pendingGroup[r.token];
      Settled(v.(pendingGroup := v.pendingGroup - {r.token}, inFlight := v.inFlight - {p.requestKey}), p, r, clock)
  }

  // ---------------------------------------------------------------- membership notifications

  type Notifications = map<Token, PendingNotification>

  function EffectiveName(n: PendingNotification, r: MembersResult): string {
    if Trim(n.groupName) == "" then Trim(r.groupName) else Trim(n.groupName)
  }

  function NotifyRecipients(n: PendingNotification, r: MembersResult): seq<UserId> {
    r.members + (if n.targetUserId != "" && n.targetUserId !in r.members then [n.targetUserId] else [])
  }

  function OnGroupMembersForNotify(pending: Notifications, r: MembersResult): (Notifications, seq<Effect>) {
    if r.token == "" || r.token !in pending then (pending, [])
    else
      var n := pending[r.token];
      (pending - {r.token},
       if !r.success then [] else SubmitAll(NotifyRecipients(n, r), WithGroupName(n.packet, EffectiveName(n, r))))
  }

  // ---------------------------------------------------------------- exactness of the fan-out

  ghost predicate NoDuplicates(users: seq<UserId>) {
    forall i, j :: 0 <= i < j < |users| ==> users[i] != users[j]
  }

  /** Every member but the sender receives exactly one packet, and nobody else does. */
  lemma {:induction false} RecipientsExact(members: seq<UserId>, sender: UserId)
    requires NoDuplicates(members)
    ensures NoDuplicates(Recipients(members, sender))
    ensures forall u :: u in Recipients(members, sender) <==> u in members && (u != sender || sender == "")
  {
    if members != [] {
      var n := |members| - 1;
      RecipientsExact(members[..n], sender);
      assert members == members[..n] + [members[n]];
      assert members[n] !in members[..n];
    }
  }

  /** A membership change reaches each member and the user removed or gone, each once. */
  lemma NotifyRecipientsExact(n: PendingNotification, r: MembersResult)
    requires NoDuplicates(r.members)
    ensures NoDuplicates(NotifyRecipients(n, r))
    ensures forall u :: u in NotifyRecipients(n, r) <==> u in r.members || (u == n.targetUserId && u != "")
  {
  }

  /** The token prefixes keep the two services apart. */
  lemma PrefixesDiffer(token: Token)
    requires StartsWith(token, MESSAGE_PREFIX)
    ensures !StartsWith(token, NOTIFY_PREFIX)
  {
    assert token[3] == MESSAGE_PREFIX[3];
    assert MESSAGE_PREFIX[3] != NOTIFY_PREFIX[3];
  }
}
