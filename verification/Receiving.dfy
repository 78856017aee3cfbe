/** Where received messages are stored, how long they stay there, and which session is entered. */
module Receiving {
  import opened Wire
  import opened Text
  import opened ClientStore
  import opened GroupSync
  import opened UnreadCache
  import opened UnreadAgreement

  // ---------------------------------------------------------------- one message

  /** The session of a message; without one it belongs to the conversation with its sender. */
  function Home(m: Incoming): string {
    if m.sessionId == "" then m.from else m.sessionId
  }

  /** The message could be inserted, has a session, a sender and a text, and is not one's own private message. */
  predicate TakenIn(c: Client, m: Incoming, inserted: bool) {
    && inserted && Home(m) != "" && m.from != "" && m.content != ""
    && (m.from == c.self != "" ==> m.sessionType == "group")
  }

  function GroupName(s: Store, id: string): string {
    if id in s.groups then s.groups[id].name else ""
  }

  /** The name under which the message's session is shown. */
  predicate ShownAs(c: Client, m: Incoming, name: string) {
    if m.sessionType == "group" then IsTitle(name, Home(m), GroupName(c.store, Home(m)), m.groupName)
    else name == if m.senderNickname == "" then m.from else m.senderNickname
  }

  /** The session after the message: a known one keeps its kind, and its peer unless the message names one. */
  predicate SessionHolds(c: Client, m: Incoming, after: Session) {
    var peer := if m.sessionType != "group" && m.from != c.self then m.from else "";
    var known := if Home(m) in c.store.sessions then Some(c.store.sessions[Home(m)]) else None;
    && ShownAs(c, m, after.name)
    && after.kind == (if known.Some? then known.value.kind else if m.sessionType == "group" then GroupChat else Private)
    && after.peer == (if peer != "" then peer else if known.Some? then known.value.peer else "")
    && after.unread == (if Home(m) == c.current.id then 0
                        else (if known.Some? then known.value.unread else 0) + if m.from != c.self then 1 else 0)
  }

  /** A message that is taken in is stored under its session, with its sender's nickname and an unknown group; its
      session exists and is shown first; nothing else in the tables changes. */
  ghost predicate StoredUnderHome(c: Client, t: Client, m: Incoming, msgId: MsgId) {
    && t.store.messages == c.store.messages[msgId := Home(m)] && t.store.pendingAcks == c.store.pendingAcks
    && Home(m) in t.store.sessions && SessionHolds(c, m, t.store.sessions[Home(m)])
    && (forall id :: id != Home(m) ==> LoadSession(t.store, id) == LoadSession(c.store, id))
    && t.store.groups.Keys == c.store.groups.Keys + (if m.sessionType == "group" then {Home(m)} else {})
    && (forall id :: id in c.store.groups ==> t.store.groups[id] == c.store.groups[id])
    && (Trim(m.senderNickname) != "" && Trim(m.from) != "" ==>
          t.store.nicknames == c.store.nicknames[Trim(m.from) := Trim(m.senderNickname)])
    && t.list != [] && t.list[0].sessionId == Home(m)
    && t.current.id == c.current.id && t.self == c.self
  }

  lemma TakenInIff(c: Client, m: Incoming, inserted: bool)
    ensures TakenIn(c, m, inserted) <==> Announced(c, m, inserted).Some?
    ensures TakenIn(c, m, inserted) ==>
              var a := Announced(c, m, inserted).value;
              && a.sessionId == Home(m) && a.kind == (if m.sessionType == "group" then GroupChat else Private)
              && ShownAs(c, m, a.displayName)
  {
    hide Trim, SessionAfterMessage;
  }

  lemma UpsertFirst(list: seq<Item>, item: Item, incrementUnread: bool)
    requires item.sessionId != ""
    ensures var u := Upsert(list, item, incrementUnread); u != [] && u[0].sessionId == item.sessionId
  {
  }

  lemma SessionStored(c: Client, m: Incoming, msgId: MsgId)
    requires NoEmptyIds(c.store) && Home(m) != ""
    ensures var t := KeepMessage(c, m, msgId);
            && Home(m) in t.sessions && SessionHolds(c, m, t.sessions[Home(m)])
            && forall id :: id != Home(m) ==> LoadSession(t, id) == LoadSession(c.store, id)
  {
    hide Trim;
  }

  lemma TablesStored(c: Client, m: Incoming, msgId: MsgId)
    requires NoEmptyIds(c.store) && Home(m) != ""
    ensures var t := KeepMessage(c, m, msgId);
            && t.messages == c.store.messages[msgId := Home(m)] && t.pendingAcks == c.store.pendingAcks
            && t.groups.Keys == c.store.groups.Keys + (if m.sessionType == "group" then {Home(m)} else {})
            && (forall id :: id in c.store.groups ==> t.groups[id] == c.store.groups[id])
            && (Trim(m.senderNickname) != "" && Trim(m.from) != "" ==> t.nicknames == c.store.nicknames[Trim(m.from) := Trim(m.senderNickname)])
  {
    hide Trim, SessionAfterMessage, NameFor, NameForGroup;
    MessageStored(c.store, m, msgId, NameFor(c.store, m));
    hide WithMessage;
  }

  lemma MessageStored(s: Store, m: Incoming, msgId: MsgId, displayName: string)
    requires Home(m) != ""
    ensures var t := WithMessage(s, m, msgId, displayName);
            && t.messages == s.messages[msgId := Home(m)] && t.pendingAcks == s.pendingAcks && t.sessions == s.sessions
            && t.groups.Keys == s.groups.Keys + (if m.sessionType == "group" then {Home(m)} else {})
            && (forall id :: id in s.groups ==> t.groups[id] == s.groups[id])
            && (Trim(m.senderNickname) != "" && Trim(m.from) != "" ==> t.nicknames == s.nicknames[Trim(m.from) := Trim(m.senderNickname)])
  {
    NicknameStored(s.(messages := s.messages[msgId := SessionOf(m)]), m);
    hide Trim, Introduced;
  }

  lemma NicknameStored(s: Store, m: Incoming)
    ensures var t := Introduced(s, m);
            && t == s.(nicknames := t.nicknames)
            && (Trim(m.senderNickname) != "" && Trim(m.from) != "" ==> t.nicknames == s.nicknames[Trim(m.from) := Trim(m.senderNickname)])
  {
    hide Trim;
  }

  /** Exactly the messages that can be taken in are stored; any other changes nothing. */
  lemma ReceiveOutcome(c: Client, m: Incoming, msgId: MsgId, inserted: bool)
    requires NoEmptyIds(c.store)
    ensures var t := OnIncomingMessage(c, m, msgId, inserted);
            if TakenIn(c, m, inserted) then StoredUnderHome(c, t, m, msgId) else t == c
  {
    TakenInIff(c, m, inserted);
    hide Trim, KeepMessage, NameFor, Upsert, Announced;
    if TakenIn(c, m, inserted) {
      SessionStored(c, m, msgId);
      TablesStored(c, m, msgId);
      var a := Announced(c, m, inserted).value;
      UpsertFirst(c.list, Item(a.sessionId, a.displayName, 0, a.kind), a.incrementUnread);
      hide SessionHolds, ShownAs;
    }
  }

  // ---------------------------------------------------------------- how long it stays

  /** The event deletes the session, or synchronizes a list that no longer names its group. */
  predicate Removes(c: Client, e: Event, id: string) {
    || (e.Deleted? && e.sessionId == id)
    || (e.Synced? && id in c.store.groups && forall x :: x in e.entries ==> x.groupId != id)
  }

  /** What becomes of a stored message under one event. */
  lemma MessageUnder(c: Client, e: Event, msgId: MsgId)
    requires NoEmptyIds(c.store) && msgId in c.store.messages && c.store.messages[msgId] != ""
    requires !(e.Received? && e.msgId == msgId && e.inserted)
    ensures var t := Act(c, e).store;
            && (msgId in t.messages <==> !Removes(c, e, c.store.messages[msgId]))
            && (msgId in t.messages ==> t.messages[msgId] == c.store.messages[msgId])
  {
    LoadKeepsMessages(Before(c, e), OrderOf(e));
    hide LoadSessions, EnsureSessions, Trim, ResolveName, ApplyEntries;
    match e
    case Received(m, id, inserted) => ReceiveOutcome(c, m, id, inserted);
    case Synced(entries, _) => SyncedMessages(c, entries, msgId);
    case Switched(id, reloaded) => SwitchKeepsMessages(c, id, DisplayName(c.list, id), reloaded);
    case ChatStarted(user, nickname, id, reloaded, _) =>
      var displayName := if Trim(nickname) == "" then user else Trim(nickname);
      SwitchKeepsMessages(c.(store := WithMetadata(c.store, id, Private, displayName, user)), id, displayName, reloaded);
    case FriendReady(_, id, order, reloaded) =>
      var loaded := LoadSessions(Before(c, e), order);
      SwitchKeepsMessages(loaded, id, DisplayName(loaded.list, id), reloaded);
    case _ =>
  }

  lemma LoadKeepsMessages(c: Client, order: Option<seq<string>>)
    ensures order.Some? ==> LoadSessions(c, order.value).store.messages == c.store.messages
  {
    hide EnsureSessions;
    if order.Some? { assert EnsureSessions(c.store).messages == c.store.messages by { EnsureKeepsMessages(c.store); } }
  }

  lemma EnsureKeepsMessages(s: Store)
    ensures EnsureSessions(s).messages == s.messages
  {
  }

  lemma SwitchKeepsMessages(c: Client, id: string, hint: string, reloaded: Option<seq<string>>)
    ensures SwitchTo(c, id, hint, reloaded).store.messages == c.store.messages
  {
    hide LoadSessions, Trim;
    LoadKeepsMessages(MovedTo(c, id, hint), reloaded);
  }

  lemma SyncedMessages(c: Client, entries: seq<Entry>, msgId: MsgId)
    requires NoEmptyIds(c.store) && msgId in c.store.messages && c.store.messages[msgId] != ""
    ensures var t := Synchronize(c, entries).store;
            var id := c.store.messages[msgId];
            && (msgId in t.messages <==> !(id in c.store.groups && forall x :: x in entries ==> x.groupId != id))
            && (msgId in t.messages ==> t.messages[msgId] == id)
  {
    SyncPerGroup(c.store, entries);
    hide ApplyGroupList, ApplyEntries, Trim, SyncedTo;
  }

  ghost predicate RemovedLater(c: Client, events: seq<Event>, n: nat, id: string) {
    exists k :: n < k < |events| && Removes(After(c, events[..k]), events[k], id)
  }

  /** In every run a message that was taken in stays stored, under its session, exactly until its session is deleted or
      a synchronized list no longer names its group. Message ids are new. */
  lemma {:induction false} StaysUnderHome(c: Client, events: seq<Event>, n: nat)
    requires CacheInv(c) && Runs(c, events) && n < |events| && events[n].Received?
    requires TakenIn(After(c, events[..n]), events[n].message, events[n].inserted)
    requires forall k :: n < k < |events| && events[k].Received? && events[k].inserted ==> events[k].msgId != events[n].msgId
    ensures var messages := After(c, events).store.messages;
            && (events[n].msgId in messages <==> !RemovedLater(c, events, n, Home(events[n].message)))
            && (events[n].msgId in messages ==> messages[events[n].msgId] == Home(events[n].message))
  {
    hide Act, Removes, CacheInv, Possible;
    var last := |events| - 1;
    var front := events[..last];
    var before, e, id := After(c, front), events[last], events[n].msgId;
    CacheInvEver(c, front);
    RealIds(before);
    forall k | 0 <= k <= last ensures front[..k] == events[..k] {
    }
    if n == last {
      ReceiveOutcome(before, e.message, e.msgId, e.inserted);
      ActReceived(before, e);
    } else {
      StaysUnderHome(c, front, n);
      RemovedSnoc(c, events, n, Home(events[n].message));
      if id in before.store.messages {
        MessageUnder(before, e, id);
      } else {
        GoneStaysGone(before, e, id);
      }
    }
  }

  lemma RealIds(c: Client)
    requires CacheInv(c)
    ensures NoEmptyIds(c.store)
  {
  }

  lemma ActReceived(c: Client, e: Event)
    requires e.Received?
    ensures Act(c, e) == OnIncomingMessage(c, e.message, e.msgId, e.inserted)
  {
    hide OnIncomingMessage;
  }

  lemma RemovedSnoc(c: Client, events: seq<Event>, n: nat, id: string)
    requires n < |events| - 1
    ensures var last := |events| - 1;
            RemovedLater(c, events, n, id) <==>
            RemovedLater(c, events[..last], n, id) || Removes(After(c, events[..last]), events[last], id)
  {
    hide Removes, After;
    var last := |events| - 1;
    forall k | 0 <= k < last ensures events[..last][..k] == events[..k] && events[..last][k] == events[k] {
    }
  }

  lemma GoneStaysGone(c: Client, e: Event, msgId: MsgId)
    requires NoEmptyIds(c.store) && msgId !in c.store.messages && !(e.Received? && e.msgId == msgId && e.inserted)
    ensures msgId !in Act(c, e).store.messages
  {
    LoadKeepsMessages(Before(c, e), OrderOf(e));
    hide LoadSessions, EnsureSessions, Trim, ResolveName, ApplyEntries;
    match e
    case Received(m, id, inserted) => ReceiveOutcome(c, m, id, inserted);
    case Synced(entries, _) => SyncPerGroup(c.store, entries);
    case Switched(id, reloaded) => SwitchKeepsMessages(c, id, DisplayName(c.list, id), reloaded);
    case ChatStarted(user, nickname, id, reloaded, _) =>
      var displayName := if Trim(nickname) == "" then user else Trim(nickname);
      SwitchKeepsMessages(c.(store := WithMetadata(c.store, id, Private, displayName, user)), id, displayName, reloaded);
    case FriendReady(_, id, order, reloaded) =>
      var loaded := LoadSessions(Before(c, e), order);
      SwitchKeepsMessages(loaded, id, DisplayName(loaded.list, id), reloaded);
    case _ =>
  }

  // ---------------------------------------------------------------- entering a session

  /** Switching makes the session the current one, under its name, and reads it; messages and groups stay. */
  lemma SwitchOutcome(c: Client, id: string, hint: string, reloaded: Option<seq<string>>)
    requires id != c.current.id
    ensures var t := SwitchTo(c, id, hint, reloaded);
            var group := LoadGroup(c.store, id).Some? || (LoadSession(c.store, id).Some? && LoadSession(c.store, id).value.kind == GroupChat);
            && t.current.id == id && t.current.kind == (if group then GroupChat else Private)
            && (if group then IsTitle(t.current.name, id, if id == "" then "" else GroupName(c.store, id), hint)
                else t.current.name == if hint == "" then id else hint)
            && (LoadSession(c.store, id).Some? ==> id in t.store.sessions && t.store.sessions[id].unread == 0)
            && t.store.messages == c.store.messages && t.store.groups == c.store.groups && t.store.pendingAcks == c.store.pendingAcks
            && t.self == c.self
  {
    hide Trim;
    var moved := MovedTo(c, id, hint);
    if reloaded.Some? { LoadKeepsTables(moved, reloaded.value); }
    hide LoadSessions;
  }

  lemma LoadKeepsTables(c: Client, order: seq<string>)
    ensures var t := LoadSessions(c, order);
            && t.store.messages == c.store.messages && t.store.groups == c.store.groups && t.store.pendingAcks == c.store.pendingAcks
            && t.current == c.current && t.self == c.self && t.store.nicknames == c.store.nicknames
  {
  }

  /** A private chat that is started is stored with the other user as its peer, and entered. */
  lemma ChatOutcome(c: Client, user: UserId, nickname: string, id: string, reloaded: Option<seq<string>>)
    requires id != "" && user != ""
    ensures var t := StartPrivateChat(c, user, nickname, id, reloaded);
            && t.current.id == id && id in t.store.sessions
            && (LoadGroup(c.store, id).None? ==> t.store.sessions[id].peer == user)
            && (id !in c.store.sessions && LoadGroup(c.store, id).None? ==> t.store.sessions[id].kind == Private)
  {
    hide Trim, GroupTitle;
    var displayName := if Trim(nickname) == "" then user else Trim(nickname);
    var saved := c.(store := WithMetadata(c.store, id, Private, displayName, user));
    assert LoadGroup(saved.store, id) == LoadGroup(c.store, id);
    if id != c.current.id { SwitchOutcome(saved, id, displayName, reloaded); }
    hide LoadSessions;
  }

  /** Deleting a session removes it with its messages, and leaves it if it is current; every other session stays. */
  lemma DeleteOutcome(c: Client, id: string)
    requires id != ""
    ensures var t := DeleteSession(c, id);
            && id !in t.store.sessions && (forall x :: x in t.store.messages ==> t.store.messages[x] != id)
            && (forall x :: x in c.store.messages && c.store.messages[x] != id ==> x in t.store.messages && t.store.messages[x] == c.store.messages[x])
            && (forall x :: x in t.store.pendingAcks <==> x in c.store.pendingAcks && !(x in c.store.messages && c.store.messages[x] == id))
            && (forall other :: other != id ==> LoadSession(t.store, other) == LoadSession(c.store, other))
            && t.store.groups == c.store.groups && t.list == c.list
            && t.current == if c.current.id == id then Current("", Private, "") else c.current
  {
  }
}
