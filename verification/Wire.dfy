/** Messages that cross the boundary between the main thread and the database thread. */
module Wire {
  import opened Packets

  type UserId = string
  type ConnId = string
  type MsgId = string
  type Token = string

  datatype Option<+T> = None | Some(value: T)

  /** A packet addressed to one user, in the form in which it is queued. */
  datatype Parcel = Parcel(recipient: UserId, doc: Document)

  /** A row of the table offline_queue. */
  datatype Row = Row(id: nat, parcel: Parcel)

  /** One (id, packet_json) pair of a load result. */
  datatype QueuedPacket = QueuedPacket(id: nat, doc: Document)

  datatype StoreRequest = StoreRequest(msgId: MsgId, sessionId: string, senderUserId: UserId,
                                       content: string, timestamp: string, serverId: MsgId)

  datatype MembersResult = MembersResult(groupId: string, groupName: string, members: seq<UserId>,
                                         token: Token, success: bool, errorCode: int, errorMessage: string)

  /** Signals from the main thread to the message store. */
  datatype DbRequest =
    | QueueOffline(parcel: Parcel)
    | LoadOffline(user: UserId)
    | MarkDelivered(ids: seq<nat>)
    | StoreMessage(store: StoreRequest)
    | LoadGroupMembers(groupId: string, token: Token)

  /** Signals from the message store to the main thread. */
  datatype DbReply =
    | OfflineLoaded(user: UserId, packets: seq<QueuedPacket>)
    | GroupMembersLoaded(result: MembersResult)

  /** One call of `sendPacket` on the session that the router found for `user`; `owner` is the user that session
      is authenticated as at that moment. */
  datatype Handoff = Handoff(conn: ConnId, owner: UserId, user: UserId, packet: Packet)
}
