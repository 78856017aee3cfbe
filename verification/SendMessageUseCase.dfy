/** Sending on the client: message rows, pending_acks rows and ack timers, updated in place. */
module SendMessages {
  import opened Wire
  import opened Text
  import opened Outbox

  class SendMessageUseCase {
    var messages: seq<ChatMessage>
    var pendingAcks: set<MsgId>
    var pendingMessages: map<MsgId, nat>
    var runningTimers: map<nat, MsgId>
    var nextTimer: nat
    var sends: seq<SendText>

    ghost function View(): State reads this {
      State(messages, pendingAcks, pendingMessages, runningTimers, nextTimer, sends)
    }

    constructor (messages: seq<ChatMessage>, pendingAcks: set<MsgId>)
      ensures View() == State(messages, pendingAcks, map[], map[], 0, [])
    {
      this.messages, this.pendingAcks := messages, pendingAcks;
      pendingMessages, runningTimers, nextTimer, sends := map[], map[], 0, [];
    }

    method StartAckTimer(msgId: MsgId)
      modifies this`pendingMessages, this`runningTimers, this`nextTimer
      ensures View() == Outbox.StartAckTimer(old(View()), msgId)
    {
      var timer := nextTimer;
      nextTimer := nextTimer + 1;
      runningTimers := runningTimers[timer := msgId];
      pendingMessages := pendingMessages[msgId := timer];
    }

    method StopAckTimer(msgId: MsgId)
      modifies this`pendingMessages, this`runningTimers
      ensures View() == Outbox.StopAckTimer(old(View()), msgId)
    {
      if msgId in pendingMessages {
        runningTimers := runningTimers - {pendingMessages[msgId]};
        pendingMessages := pendingMessages - {msgId};
      }
    }

    method UpdateMessageStatus(msgId: MsgId, status: Status, serverId: MsgId)
      modifies this`messages
      ensures View() == old(View()).(messages := UpdateStatus(old(messages), msgId, status, serverId))
    {
      messages := UpdateStatus(messages, msgId, status, serverId);
    }

    method FailMessage(msgId: MsgId, removePendingAck: bool)
      modifies this
      ensures var failed := Outbox.FailMessage(old(View()), msgId);
              View() == if removePendingAck then failed else failed.(pendingAcks := old(pendingAcks))
    {
      StopAckTimer(msgId);
      UpdateMessageStatus(msgId, Failed, "");
      if removePendingAck {
        pendingAcks := pendingAcks - {msgId};
      }
    }

    method SendText(m: ChatMessage, sessionType: string, recipientUserId: UserId)
      modifies this`sends
      ensures View() == old(View()).(sends := old(sends) + [Outbox.SendText(m.msgId, m.senderId, m.sessionId, m.content, sessionType, recipientUserId)])
    {
      sends := sends + [Outbox.SendText(m.msgId, m.senderId, m.sessionId, m.content, sessionType, recipientUserId)];
    }

    /** Hands a message to the network, or fails it when its group is not synced or its recipient is missing. */
    method Deliver(m: ChatMessage, info: SessionInfo, self: UserId)
      modifies this
      ensures View() == Dispatch(old(View()), m, info, self)
    {
      var isGroup := (info.known && info.groupSession) || info.groupStored;
      if isGroup {
        if !info.groupStored {
          FailMessage(m.msgId, true);
          return;
        }
        SendText(m, "group", "");
      } else {
        var recipientUserId := if info.known then info.peerUserId else "";
        if recipientUserId == "" || recipientUserId == self {
          FailMessage(m.msgId, true);
          return;
        }
        SendText(m, "private", recipientUserId);
      }
    }

    /** `info` is what the session and group tables say about the session, `from` the user id or "me". */
    method SendMessage(sessionId: string, content: string, from: UserId, msgId: MsgId, info: SessionInfo)
      modifies this
      ensures View() == Outbox.SendMessage(old(View()), sessionId, content, from, msgId, info)
    {
      var trimmed := Trim(content);
      if trimmed == "" || sessionId == "" {
        return;
      }
      var isGroup := (info.known && info.groupSession) || info.groupStored;
      if isGroup && !info.groupStored {
        return;
      }
      var msg := ChatMessage(msgId, sessionId, from, trimmed, Sending, "", false);
      messages := messages + [msg];
      pendingAcks := pendingAcks + {msgId};
      StartAckTimer(msgId);
      Deliver(msg, info, from);
    }

    method ResendMessage(sessionId: string, msgId: MsgId, info: SessionInfo, self: UserId)
      modifies this
      ensures View() == Outbox.ResendMessage(old(View()), sessionId, msgId, info, self)
    {
      if msgId == "" || sessionId == "" {
        return;
      }
      var fetched := FetchForSession(messages, sessionId, RESEND_SEARCH_LIMIT);
      var found := FindFetched(fetched, msgId);
      if found.None? || found.value.content == "" {
        return;
      }
      UpdateMessageStatus(msgId, Sending, "");
      pendingAcks := pendingAcks + {msgId};
      StartAckTimer(msgId);
      Deliver(found.value, info, self);
    }

    method FindFetched(fetched: seq<ChatMessage>, msgId: MsgId) returns (target: Option<ChatMessage>)
      ensures target == FindMessage(fetched, msgId)
    {
      for i := 0 to |fetched|
        invariant FindMessage(fetched, msgId) == FindMessage(fetched[i..], msgId)
      {
        if fetched[i].msgId == msgId {
          return Some(fetched[i]);
        }
        assert fetched[i..][1..] == fetched[i + 1..];
      }
      target := None;
    }

    method RecoverPendingMessages(sessionId: string, info: SessionInfo, self: UserId)
      modifies this
      ensures View() == Outbox.RecoverPendingMessages(old(View()), sessionId, info, self)
    {
      var pending := FetchPending(messages, pendingAcks);
      for i := 0 to |pending|
        invariant View() == RecoverAll(old(View()), pending[..i], sessionId, info, self)
      {
        assert pending[..i + 1][..i] == pending[..i];
        var msg := pending[i];
        if msg.sessionId != sessionId {
          continue;
        }
        StartAckTimer(msg.msgId);
        Deliver(msg, info, self);
      }
      assert pending[..|pending|] == pending;
    }

    method OnAckReceived(msgId: MsgId, serverId: MsgId)
      modifies this
      ensures View() == Outbox.OnAckReceived(old(View()), msgId, serverId)
    {
      if msgId !in pendingMessages {
        return;
      }
      StopAckTimer(msgId);
      UpdateMessageStatus(msgId, Delivered, serverId);
      pendingAcks := pendingAcks - {msgId};
    }

    method OnAckFailed(msgId: MsgId, code: int)
      modifies this
      ensures View() == Outbox.OnAckFailed(old(View()), msgId, code)
    {
      StopAckTimer(msgId);
      UpdateMessageStatus(msgId, Failed, "");
      if code > 0 && code < 500 {
        pendingAcks := pendingAcks - {msgId};
      }
    }

    /** The timeout handler of a timer that was running. */
    method OnTimeout(timer: nat)
      requires timer in runningTimers
      modifies this
      ensures View() == Outbox.OnTimeout(old(View()), timer)
    {
      var msgId := runningTimers[timer];
      runningTimers := runningTimers - {timer};
      pendingMessages := pendingMessages - {msgId};
      UpdateMessageStatus(msgId, Failed, "");
    }
  }
}
