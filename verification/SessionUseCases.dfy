/** Switching sessions and receiving messages on the client. A signal is a call of the slot it is connected to. */
module SessionUseCases {
  import opened Wire
  import opened Text
  import opened ClientStore
  import opened GroupSync
  import UC = UnreadCache
  import opened SessionAggregate
  import opened SessionList
  import opened ClientServices

  class SwitchSessionUseCase {
    const db: LocalDatabase
    const model: SessionListModel
    const sync: SessionSyncUseCase
    var currentSessionId: string
    var currentSessionName: string
    var currentSessionType: Kind

    /** What this use case, the tables and the list model hold, for the user `self`. */
    ghost function View(self: UserId): UC.Client reads this, db, model {
      UC.Client(self, db.View(), UC.Current(currentSessionId, currentSessionType, currentSessionName), model.sessions)
    }

    ghost predicate Valid() { sync.db == db && sync.model == model }

    constructor (db: LocalDatabase, model: SessionListModel, sync: SessionSyncUseCase)
      requires sync.db == db && sync.model == model
      ensures Valid() && this.db == db && this.model == model && this.sync == sync
      ensures currentSessionId == "" && currentSessionName == "" && currentSessionType == Private
    {
      this.db, this.model, this.sync := db, model, sync;
      currentSessionId, currentSessionName, currentSessionType := "", "", Private;
    }

    method GroupTitle(sessionId: string, hint: string) returns (name: string)
      ensures name == UC.GroupTitle(db.View(), sessionId, hint)
    {
      name := if sessionId != "" && sessionId in db.groups then Trim(db.groups[sessionId].name) else "";
      if name == "" || name == sessionId {
        name := Trim(hint);
      }
      if name == "" || name == sessionId {
        name := sessionId;
      }
    }

    /** `sent` and `order` are what a group sync asked for here runs into: whether the request goes out, and
        the order of the summary query if the sessions are loaded at once instead. */
    method SwitchToSession(sessionId: string, displayNameHint: string, sent: bool, order: seq<string>, ghost self: UserId)
      requires Valid() && NoEmptyIds(db.View()) && UC.Enumerates(order, UC.EnsureSessions(db.View()).sessions.Keys)
      modifies this, db, model, sync
      ensures var reloaded := if old(sync.groupSyncInProgress) || sent then None else Some(order);
              View(self) == UC.SwitchTo(old(View(self)), sessionId, displayNameHint, reloaded)
    {
      if currentSessionId == sessionId {
        return;
      }
      var session := db.LoadSession(sessionId, sync.ownerUserId);
      MoveTo(sessionId, displayNameHint, session, self);
      assert UC.MovedTo(old(View(self)), sessionId, displayNameHint) == View(self);
      hide UC.LoadSessions, UC.MovedTo, UC.IsGroupFor, NoEmptyIds, UC.ReadIn, UC.EnsureSessions, UC.Enumerates, ClientStore.SaveSession, Trim;
      if sessionId != "" && sessionId in db.groups && Trim(db.groups[sessionId].name) == "" {
        SyncOnSwitch(sent, order, self);
      }
      ReadSession(sessionId, session, self);
    }

    method ReadSession(sessionId: string, session: SessionAggregate.Session?, ghost self: UserId)
      requires session != null ==> session.sessionId == sessionId
      modifies db, model, session
      ensures View(self) == UC.ReadIn(old(View(self)), sessionId, if session == null then None else Some(old(session.Row())))
    {
      hide UC.ClearUnread, ClientStore.SaveSession;
      if session != null {
        session.MarkRead();
        var ok := db.SaveSession(session);
      }
      model.ClearUnread(sessionId); // signal sessionSwitched
    }

    method MoveTo(sessionId: string, displayNameHint: string, session: SessionAggregate.Session?, ghost self: UserId)
      requires ClientStore.LoadSession(db.View(), sessionId) == if session == null then None else Some(session.Row())
      modifies this
      ensures View(self) == UC.MovedTo(old(View(self)), sessionId, displayNameHint)
    {
      currentSessionId := sessionId;
      var groupStored := sessionId != "" && sessionId in db.groups;
      var isGroup := (session != null && session.kind == GroupChat) || groupStored;
      currentSessionType := if isGroup then GroupChat else Private;
      if isGroup {
        currentSessionName := GroupTitle(sessionId, displayNameHint);
      } else {
        currentSessionName := if displayNameHint == "" then sessionId else displayNameHint;
      }
    }

    method SyncOnSwitch(sent: bool, order: seq<string>, ghost self: UserId) // signal groupSyncNeeded
      requires Valid() && NoEmptyIds(db.View()) && UC.Enumerates(order, UC.EnsureSessions(db.View()).sessions.Keys)
      modifies db, model, sync
      ensures View(self) == if old(sync.groupSyncInProgress) || sent then old(View(self)) else UC.LoadSessions(old(View(self)), order)
    {
      sync.SyncGroupSessions(sent, order);
    }

    method UpdateCurrentSessionInfo(sessionId: string, sessionType: Kind, displayName: string, ghost self: UserId)
      modifies this
      ensures View(self) == UC.UpdateCurrentInfo(old(View(self)), sessionId, sessionType, displayName)
    {
      if sessionId != currentSessionId {
        return;
      }
      currentSessionType := sessionType;
      var nextName := displayName;
      if sessionType == GroupChat {
        nextName := GroupTitle(sessionId, displayName);
      }
      currentSessionName := nextName;
    }

    method SaveMetadata(sessionId: string, displayName: string, userId: UserId, selfUserId: UserId)
      modifies db
      ensures db.View() == UC.WithMetadata(old(db.View()), sessionId, Private, displayName, userId)
    {
      var session := db.LoadSession(sessionId, selfUserId);
      if session != null {
        session.UpdateMetadata(displayName, userId);
      } else {
        session := new SessionAggregate.Session(sessionId, Private, selfUserId, displayName, userId, "", None, 0);
      }
      var ok := db.SaveSession(session);
    }

    /** `sessionId` is the id computed for the two users. */
    method StartPrivateChat(userId: UserId, nickname: string, selfUserId: UserId, sessionId: string, sent: bool, order: seq<string>)
      requires Valid() && NoEmptyIds(db.View())
      requires var displayName := if Trim(nickname) == "" then userId else Trim(nickname);
               UC.Enumerates(order, UC.EnsureSessions(UC.WithMetadata(db.View(), sessionId, Private, displayName, userId)).sessions.Keys)
      modifies this, db, model, sync
      ensures var reloaded := if old(sync.groupSyncInProgress) || sent then None else Some(order);
              View(selfUserId) == UC.StartPrivateChat(old(View(selfUserId)), userId, nickname, sessionId, reloaded)
    {
      var displayName := if Trim(nickname) == "" then userId else Trim(nickname);
      SaveMetadata(sessionId, displayName, userId, selfUserId);
      SwitchToSession(sessionId, displayName, sent, order, selfUserId);
    }

    /** Up to the signal sessionDeleted, which loads the sessions. */
    method DeleteSession(sessionId: string, ghost self: UserId)
      modifies this, db
      ensures View(self) == UC.DeleteSession(old(View(self)), sessionId)
    {
      if sessionId == "" {
        return;
      }
      db.RemoveSession(sessionId);
      if currentSessionId == sessionId {
        ClearCurrentSession();
      }
    }

    method ClearCurrentSession()
      modifies this
      ensures UC.Current(currentSessionId, currentSessionType, currentSessionName) == UC.NO_SESSION
    {
      if currentSessionId != "" {
        currentSessionId := "";
      }
      if currentSessionType != Private {
        currentSessionType := Private;
      }
      if currentSessionName != "" {
        currentSessionName := "";
      }
    }
  }

  lemma SameSessions(c: UC.Client, d: UC.Client, m: UC.Incoming, displayName: string)
    requires c.store.sessions == d.store.sessions && c.self == d.self && c.current == d.current
    ensures UC.SessionAfterMessage(c, m, displayName) == UC.SessionAfterMessage(d, m, displayName)
  {
  }

  class ReceiveMessageUseCase {
    const db: LocalDatabase
    const model: SessionListModel
    const switching: SwitchSessionUseCase
    var selfUserId: UserId

    ghost predicate Valid() { switching.db == db && switching.model == model }

    constructor (switching: SwitchSessionUseCase, selfUserId: UserId)
      ensures Valid() && this.switching == switching && this.selfUserId == selfUserId
    {
      this.db, this.model, this.switching, this.selfUserId := switching.db, switching.model, switching, selfUserId;
    }

    /** The active session is the current one of the switching use case. */
    method OnIncomingMessage(m: UC.Incoming, timestamp: int, msgId: MsgId, inserted: bool)
      requires Valid()
      modifies db, model, switching
      ensures switching.View(selfUserId) == UC.OnIncomingMessage(old(switching.View(selfUserId)), m, msgId, inserted)
    {
      var effectiveSessionId := if m.sessionId == "" then m.from else m.sessionId;
      if effectiveSessionId == "" || m.from == "" || m.content == "" {
        return;
      }
      var isMine := selfUserId != "" && m.from == selfUserId;
      if isMine && m.sessionType != "group" {
        return;
      }
      var a := Commit(m, timestamp, msgId, inserted);
      if a.Some? { // signal messageReceived
        model.UpsertSession(UC.Item(a.value.sessionId, a.value.displayName, 0, a.value.kind), a.value.incrementUnread);
        switching.UpdateCurrentSessionInfo(a.value.sessionId, a.value.kind, a.value.displayName, selfUserId);
      }
    }

    /** The transaction: all of it, or nothing when the message cannot be inserted. */
    method Commit(m: UC.Incoming, timestamp: int, msgId: MsgId, inserted: bool) returns (a: Option<UC.Announcement>)
      requires Valid()
      requires UC.SessionOf(m) != "" && m.from != "" && m.content != ""
      requires selfUserId != "" && m.from == selfUserId ==> m.sessionType == "group"
      modifies db
      ensures a == UC.Announced(old(switching.View(selfUserId)), m, inserted)
      ensures db.View() == if a.None? then old(db.View()) else UC.KeepMessage(old(switching.View(selfUserId)), m, msgId)
    {
      var effectiveSessionId := if m.sessionId == "" then m.from else m.sessionId;
      var isMine := selfUserId != "" && m.from == selfUserId;
      var isGroup := m.sessionType == "group";
      var sType := if isGroup then GroupChat else Private;
      if !inserted {
        return None;
      }
      var displayName := InsertMessage(m, msgId);
      hide UC.NameFor, UC.SessionAfterMessage, ClientStore.SaveSession, UC.WithMessage;
      var session := LoadOrCreate(m, timestamp, displayName);
      SameSessions(switching.View(selfUserId), old(switching.View(selfUserId)), m, displayName);
      var incrementUnread := session.unreadCount > 0 && !isMine;
      var ok := db.SaveSession(session);
      a := Some(UC.Announcement(effectiveSessionId, sType, displayName, incrementUnread));
    }

    method InsertMessage(m: UC.Incoming, msgId: MsgId) returns (displayName: string)
      requires UC.SessionOf(m) != ""
      modifies db
      ensures displayName == UC.NameFor(old(db.View()), m)
      ensures db.View() == UC.WithMessage(old(db.View()), m, msgId, displayName)
    {
      var id := UC.SessionOf(m);
      db.messages := db.messages[msgId := id];
      if Trim(m.senderNickname) != "" {
        var known := db.UpsertUser(m.from, m.senderNickname);
      }
      hide Trim;
      if m.sessionType == "group" {
        displayName := ResolveIncomingName(id, m.groupName);
        if id !in db.groups {
          var saved := db.SaveGroup(id, Group(displayName, "", []));
        }
      } else {
        displayName := if m.senderNickname == "" then m.from else m.senderNickname;
      }
    }

    /** The session with the message taken in; an active session is read at once. */
    method LoadOrCreate(m: UC.Incoming, timestamp: int, displayName: string) returns (session: SessionAggregate.Session)
      requires Valid() && UC.SessionOf(m) != ""
      ensures fresh(session) && session.sessionId == UC.SessionOf(m)
      ensures session.Row() == UC.SessionAfterMessage(switching.View(selfUserId), m, displayName)
    {
      var effectiveSessionId := UC.SessionOf(m);
      var isGroup := m.sessionType == "group";
      var sType := if isGroup then GroupChat else Private;
      var peer := if !isGroup && m.from != selfUserId then m.from else "";
      var loaded := db.LoadSession(effectiveSessionId, selfUserId);
      if loaded != null {
        session := loaded;
        session.UpdateMetadata(displayName, peer);
      } else {
        session := new SessionAggregate.Session(effectiveSessionId, sType, selfUserId, displayName, peer, "", None, 0);
      }
      session.ProcessIncomingMessage(m.from, m.content, timestamp);
      if effectiveSessionId == switching.currentSessionId {
        session.MarkRead();
      }
    }

    method ResolveIncomingName(id: string, groupName: string) returns (resolvedName: string)
      requires id != ""
      ensures resolvedName == UC.NameForGroup(db.View(), id, groupName)
    {
      resolvedName := if id in db.groups then Trim(db.groups[id].name) else "";
      if resolvedName == "" || resolvedName == id {
        resolvedName := Trim(groupName);
      }
      if resolvedName == "" || resolvedName == id {
        resolvedName := id;
      }
    }
  }
}
