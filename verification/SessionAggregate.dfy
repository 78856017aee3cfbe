/** The session aggregate: last message and unread counter, updated in place. */
module SessionAggregate {
  import opened Wire
  import CS = ClientStore

  datatype State = State(sessionId: string, kind: CS.Kind, owner: UserId, name: string, peer: UserId,
                         lastContent: string, lastAt: Option<int>, unread: nat)

  /** One received message; an invalid timestamp does not occur, the caller substitutes the clock. */
  datatype Message = Message(sender: UserId, content: string, at: int)

  function ProcessIncoming(s: State, m: Message): State {
    s.(lastContent := m.content,
       lastAt := if s.lastAt.None? || m.at > s.lastAt.value then Some(m.at) else s.lastAt,
       unread := if m.sender != s.owner then s.unread + 1 else s.unread)
  }

  function ProcessAll(s: State, messages: seq<Message>): State {
    if messages == [] then s else ProcessIncoming(ProcessAll(s, messages[..|messages| - 1]), messages[|messages| - 1])
  }

  class Session {
    const sessionId: string
    const kind: CS.Kind
    const ownerUserId: UserId
    var sessionName: string
    var peerUserId: UserId
    var lastMessageContent: string
    var lastMessageAt: Option<int>
    var unreadCount: nat

    ghost function View(): State reads this {
      State(sessionId, kind, ownerUserId, sessionName, peerUserId, lastMessageContent, lastMessageAt, unreadCount)
    }

    /** The columns of the table sessions. */
    function Row(): CS.Session reads this { CS.Session(kind, sessionName, peerUserId, unreadCount) }

    constructor (sessionId: string, kind: CS.Kind, ownerUserId: UserId, sessionName: string, peerUserId: UserId,
                 lastMessageContent: string, lastMessageAt: Option<int>, unreadCount: int)
      ensures View() == State(sessionId, kind, ownerUserId, sessionName, peerUserId, lastMessageContent, lastMessageAt,
                              if unreadCount < 0 then 0 else unreadCount)
    {
      this.sessionId, this.kind, this.ownerUserId := sessionId, kind, ownerUserId;
      this.sessionName, this.peerUserId := sessionName, peerUserId;
      this.lastMessageContent, this.lastMessageAt := lastMessageContent, lastMessageAt;
      this.unreadCount := if unreadCount < 0 then 0 else unreadCount;
    }

    method ProcessIncomingMessage(senderId: UserId, content: string, timestamp: int)
      modifies this
      ensures View() == ProcessIncoming(old(View()), Message(senderId, content, timestamp))
    {
      lastMessageContent := content;
      if lastMessageAt.None? || timestamp > lastMessageAt.value {
        lastMessageAt := Some(timestamp);
      }
      if senderId != ownerUserId {
        unreadCount := unreadCount + 1;
      }
    }

    method MarkRead()
      modifies this
      ensures View() == old(View()).(unread := 0)
    {
      unreadCount := 0;
    }

    method UpdateMetadata(sessionName: string, peerUserId: UserId)
      modifies this
      ensures View() == old(View()).(name := sessionName, peer := if peerUserId == "" then old(this.peerUserId) else peerUserId)
    {
      this.sessionName := sessionName;
      if peerUserId != "" {
        this.peerUserId := peerUserId;
      }
    }
  }

  // ---------------------------------------------------------------- many messages

  function FromOthers(messages: seq<Message>, owner: UserId): nat {
    if messages == [] then 0
    else FromOthers(messages[..|messages| - 1], owner) + if messages[|messages| - 1].sender != owner then 1 else 0
  }

  /** After any messages in any order: the time shown is the latest one seen, the text is the last one received,
      and the counter grew by the messages of others. */
  lemma {:induction false} ProcessedAll(s: State, messages: seq<Message>)
    ensures var t := ProcessAll(s, messages);
            && t.unread == s.unread + FromOthers(messages, s.owner)
            && t.owner == s.owner && t.sessionId == s.sessionId && t.name == s.name && t.peer == s.peer
            && t.lastContent == (if messages == [] then s.lastContent else messages[|messages| - 1].content)
            && (t.lastAt.None? <==> s.lastAt.None? && messages == [])
            && (forall m :: m in messages ==> m.at <= t.lastAt.value)
            && (s.lastAt.Some? ==> s.lastAt.value <= t.lastAt.value)
            && (t.lastAt == s.lastAt || exists m :: m in messages && t.lastAt == Some(m.at))
  {
    if messages != [] {
      var n := |messages| - 1;
      ProcessedAll(s, messages[..n]);
      assert messages == messages[..n] + [messages[n]];
    }
  }
}
