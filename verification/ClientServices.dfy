/** The client's use cases, on one local database and the list model they feed. A signal is a call of the slot
    that it is connected to. */
module ClientServices {
  import opened Wire
  import opened Text
  import opened ClientStore
  import opened GroupSync
  import UC = UnreadCache
  import opened SessionAggregate
  import opened SessionList

  // ---------------------------------------------------------------- the local database

  class LocalDatabase {
    var sessions: map<string, ClientStore.Session>
    var groups: map<string, Group>
    var messages: map<MsgId, string>
    var pendingAcks: set<MsgId>
    var nicknames: map<UserId, string>

    ghost function View(): Store reads this { Store(sessions, groups, messages, pendingAcks, nicknames) }

    method UpsertUser(userId: UserId, nickname: string) returns (ok: bool)
      modifies this`nicknames
      ensures View() == ClientStore.UpsertUser(old(View()), userId, nickname)
      ensures ok == (Trim(userId) != "")
    {
      var trimmedUserId, trimmedNickname := Trim(userId), Trim(nickname);
      if trimmedUserId == "" {
        return false;
      }
      if trimmedUserId !in nicknames || trimmedNickname != "" { // ON CONFLICT keeps a known nickname
        nicknames := nicknames[trimmedUserId := trimmedNickname];
      }
      ok := true;
    }

    /** The last message is read along with the row, but saving never writes it back. */
    method LoadSession(id: string, owner: UserId) returns (session: SessionAggregate.Session?)
      ensures session != null ==> fresh(session)
      ensures ClientStore.LoadSession(View(), id) == if session == null then None else Some(session.Row())
      ensures session != null ==> session.sessionId == id && session.ownerUserId == owner
    {
      if id == "" || id !in sessions {
        return null;
      }
      var row := sessions[id];
      session := new SessionAggregate.Session(id, row.kind, owner, row.name, row.peer, "", None, row.unread);
    }

    method SaveSession(session: SessionAggregate.Session) returns (ok: bool)
      modifies this`sessions
      ensures View() == ClientStore.SaveSession(old(View()), session.sessionId, session.Row())
      ensures ok == (session.sessionId != "")
    {
      if session.sessionId == "" {
        return false;
      }
      var row := session.Row();
      if row.peer == "" && session.sessionId in sessions { // ON CONFLICT keeps a known peer
        row := row.(peer := sessions[session.sessionId].peer);
      }
      sessions := sessions[session.sessionId := row];
      ok := true;
    }

    method RemoveSession(id: string)
      modifies this`sessions, this`messages, this`pendingAcks
      ensures View() == ClientStore.RemoveSession(old(View()), id)
    {
      if id == "" {
        return;
      }
      pendingAcks := set m | m in pendingAcks && !(m in messages && messages[m] == id);
      messages := map m | m in messages && messages[m] != id :: messages[m];
      sessions := sessions - {id};
    }

    /** Deletes and inserts the member rows one by one; a repeated user breaks the primary key. */
    method SaveGroup(id: string, group: Group) returns (ok: bool)
      modifies this`groups
      ensures View() == ClientStore.SaveGroup(old(View()), id, group)
      ensures ok == (id != "" && DistinctUsers(group.members))
    {
      if id == "" {
        return false;
      }
      var saved := groups; // BEGIN
      groups := groups[id := group.(members := [])];
      for i := 0 to |group.members|
        invariant groups == saved[id := group.(members := group.members[..i])]
        invariant DistinctUsers(group.members[..i])
      {
        var member := group.members[i];
        if exists k :: 0 <= k < |groups[id].members| && groups[id].members[k].user == member.user {
          groups := saved; // ROLLBACK
          return false;
        }
        groups := groups[id := groups[id].(members := groups[id].members + [member])];
        assert group.members[..i + 1] == group.members[..i] + [member];
      }
      assert group.members[..|group.members|] == group.members;
      ok := true;
    }

    method RemoveGroup(id: string)
      modifies this`groups
      ensures View() == ClientStore.RemoveGroup(old(View()), id)
    {
      if id != "" {
        groups := groups - {id};
      }
    }
  }

  // ---------------------------------------------------------------- synchronizing groups and loading sessions

  lemma DropOne(s: Store, dropped: set<string>, id: string)
    requires id != ""
    ensures ClientStore.RemoveSession(ClientStore.RemoveGroup(DropAll(s, dropped), id), id) == DropAll(s, dropped + {id})
  {
  }

  lemma DropNothing(s: Store)
    ensures DropAll(s, {}) == s
  {
  }

  /** The stale ones among the ids already looked at. */
  ghost function StaleAmong(all: set<string>, unseen: set<string>, active: set<string>): set<string> {
    all - unseen - active - {""}
  }

  lemma AllSeen(all: set<string>, active: set<string>)
    ensures StaleAmong(all, all, active) == {} && StaleAmong(all, {}, active) == all - active - {""}
  {
  }

  lemma NextSeen(all: set<string>, unseen: set<string>, active: set<string>, id: string)
    requires id in unseen && unseen <= all
    ensures StaleAmong(all, unseen - {id}, active) == StaleAmong(all, unseen, active) + if id in active || id == "" then {} else {id}
  {
  }

  lemma ActiveSnoc(entries: seq<Entry>, i: nat)
    requires i < |entries|
    ensures ActiveIds(entries[..i + 1]) == ActiveIds(entries[..i]) + (if entries[i].groupId != "" then {entries[i].groupId} else {})
  {
  }

  class SessionSyncUseCase {
    const db: LocalDatabase
    const model: SessionListModel
    const ownerUserId: UserId
    var groupSyncInProgress: bool
    var pendingRecoveryAfterGroupSync: bool

    constructor (db: LocalDatabase, model: SessionListModel, ownerUserId: UserId)
      ensures this.db == db && this.model == model && !groupSyncInProgress && !pendingRecoveryAfterGroupSync
    {
      this.db, this.model, this.ownerUserId := db, model, ownerUserId;
      groupSyncInProgress, pendingRecoveryAfterGroupSync := false, false;
    }

    /** Returns the groups that were announced as stale. */
    method ApplyGroupList(groups: seq<Entry>) returns (cleared: set<string>)
      modifies db
      ensures db.View() == GroupSync.ApplyGroupList(old(db.View()), groups)
      ensures cleared == ApplyEntries(old(db.View()), groups).groups.Keys - ActiveIds(groups) - {""}
    {
      ghost var before := db.View();
      var activeGroupIds: set<string> := {};
      for i := 0 to |groups|
        invariant db.View() == ApplyEntries(before, groups[..i])
        invariant activeGroupIds == ActiveIds(groups[..i])
      {
        ActiveSnoc(groups, i);
        assert groups[..i + 1][..i] == groups[..i];
        var dto := groups[i];
        if dto.groupId == "" {
          continue;
        }
        activeGroupIds := activeGroupIds + {dto.groupId};
        ApplyOne(dto);
      }
      assert groups[..|groups|] == groups;
      cleared := RemoveStale(activeGroupIds);
    }

    method ApplyOne(dto: Entry)
      requires dto.groupId != ""
      modifies db
      ensures db.View() == ApplyEntry(old(db.View()), dto)
    {
      var memberUserIds := dto.memberUserIds;
      if memberUserIds == [] && dto.creatorUserId != "" {
        memberUserIds := memberUserIds + [dto.creatorUserId];
      }
      var members: seq<GroupMember> := [];
      for k := 0 to |memberUserIds|
        invariant members == Members(memberUserIds[..k], dto.creatorUserId)
      {
        assert memberUserIds[..k + 1][..k] == memberUserIds[..k];
        var trimmed := Trim(memberUserIds[k]);
        if trimmed == "" {
          continue;
        }
        members := members + [GroupMember(trimmed, RoleOf(trimmed, dto.creatorUserId))];
      }
      assert memberUserIds[..|memberUserIds|] == memberUserIds;
      var saved := db.SaveGroup(dto.groupId, Group(dto.groupName, dto.creatorUserId, members));
      SaveGroupSession(dto.groupId, dto.groupName);
    }

    method SaveGroupSession(groupId: string, groupName: string)
      requires groupId != ""
      modifies db
      ensures var s := old(db.View());
              var name := ResolveName(groupId, groupName, LoadGroup(s, groupId));
              db.View() == ClientStore.SaveSession(s, groupId, SessionFor(LoadSession(s, groupId), name))
    {
      var displayName := ResolveGroupDisplayName(groupId, groupName);
      var session := db.LoadSession(groupId, ownerUserId);
      if session != null {
        session.UpdateMetadata(displayName, "");
      } else {
        session := new SessionAggregate.Session(groupId, GroupChat, "", displayName, "", "", None, 0);
      }
      var ok := db.SaveSession(session);
    }

    method ResolveGroupDisplayName(groupId: string, fallback: string) returns (name: string)
      ensures name == ResolveName(groupId, fallback, LoadGroup(db.View(), groupId))
    {
      if groupId == "" {
        return Trim(fallback);
      }
      var trimmedFallback := Trim(fallback);
      if trimmedFallback != "" && trimmedFallback != groupId {
        return trimmedFallback;
      }
      if groupId in db.groups {
        var storedName := Trim(db.groups[groupId].name);
        if storedName != "" && storedName != groupId {
          return storedName;
        }
      }
      name := if trimmedFallback != "" then trimmedFallback else groupId;
    }

    method RemoveStale(activeGroupIds: set<string>) returns (cleared: set<string>)
      modifies db
      ensures cleared == old(db.groups).Keys - activeGroupIds - {""}
      ensures db.View() == DropAll(old(db.View()), cleared)
    {
      ghost var before := db.View();
      ghost var all := db.groups.Keys;
      var storedGroups := db.groups.Keys;
      DropNothing(before);
      AllSeen(all, activeGroupIds);
      hide DropAll, ClientStore.RemoveSession, ClientStore.RemoveGroup, StaleAmong;
      cleared := {};
      while storedGroups != {}
        invariant storedGroups <= all
        invariant cleared == StaleAmong(all, storedGroups, activeGroupIds)
        invariant db.View() == DropAll(before, cleared)
        decreases |storedGroups|
      {
        var id :| id in storedGroups;
        NextSeen(all, storedGroups, activeGroupIds, id);
        storedGroups := storedGroups - {id};
        if id in activeGroupIds {
          continue;
        }
        RemoveGroupAndSession(id);
        if id != "" {
          DropOne(before, cleared, id);
          cleared := cleared + {id};
        }
      }
    }

    method RemoveGroupAndSession(id: string)
      modifies db
      ensures db.View() == if id == "" then old(db.View()) else ClientStore.RemoveSession(ClientStore.RemoveGroup(old(db.View()), id), id)
    {
      db.RemoveGroup(id);
      db.RemoveSession(id);
    }

    // -------------------------------------------------------------- loading

    /** Loads the sessions into the list model, in the order of the summary query. */
    method LoadSessions(order: seq<string>)
      requires NoEmptyIds(db.View()) && UC.Enumerates(order, UC.EnsureSessions(db.View()).sessions.Keys)
      modifies db, model
      ensures var c := UC.LoadSessions(UC.Client("", old(db.View()), UC.NO_SESSION, old(model.sessions)), order);
              db.View() == c.store && model.sessions == c.list
    {
      ghost var before := db.View();
      EnsureGroupSessions();
      EnsuredKeepsNonEmpty(before);
      var items := LoadRows(order);
      ghost var ensured := UC.EnsureSessions(before);
      hide UC.EnsureSessions, UC.Shown, UC.Named, NamesLoaded;
      AllNamesLoaded(ensured, order);
      model.Refresh(items);
      assert model.sessions == UC.Rows(ensured, order);
    }

    method LoadRows(order: seq<string>) returns (items: seq<UC.Item>)
      requires NoEmptyIds(db.View()) && UC.Enumerates(order, db.sessions.Keys)
      modifies db
      ensures |items| == |order|
      ensures forall k :: 0 <= k < |order| ==> order[k] in old(db.View()).sessions && UC.Named(items[k]) == UC.Shown(old(db.View()), order[k])
      ensures db.View() == NamesLoaded(old(db.View()), order)
    {
      ghost var before := db.View();
      NoNamesLoaded(before);
      hide UC.Shown, UC.Named, NamesLoaded, UC.Enumerates;
      items := [];
      for i := 0 to |order|
        invariant |items| == i
        invariant forall k :: 0 <= k < i ==> order[k] in before.sessions
        invariant forall k :: 0 <= k < i ==> UC.Named(items[k]) == UC.Shown(before, order[k])
        invariant db.View() == NamesLoaded(before, order[..i])
      {
        NextInOrder(order, i, before.sessions.Keys);
        var item := LoadRow(order[i], before, order[..i]);
        items := items + [item];
      }
      assert order[..|order|] == order;
    }

    /** Stored groups with a name get a session of that name. */
    method EnsureGroupSessions()
      requires NoEmptyIds(db.View())
      modifies db
      ensures db.View() == UC.EnsureSessions(old(db.View()))
    {
      ghost var before := db.View();
      var left := db.groups.Keys;
      EnsureNone(before);
      hide EnsuredFor, SessionFor, UC.EnsureSessions;
      while left != {}
        invariant left <= before.groups.Keys
        invariant db.View() == EnsuredFor(before, before.groups.Keys - left)
        decreases |left|
      {
        var id :| id in left;
        EnsureOne(before, before.groups.Keys - left, id);
        assert before.groups.Keys - (left - {id}) == before.groups.Keys - left + {id};
        left := left - {id};
        EnsureGroupSession(id);
      }
      EnsureAll(before);
    }

    method EnsureGroupSession(id: string)
      requires id != "" && id in db.groups
      modifies db
      ensures var s, name := old(db.View()), old(db.groups)[id].name;
              db.View() == if name == "" then s else s.(sessions := s.sessions[id := SessionFor(LoadSession(s, id), name)])
    {
      var groupName := db.groups[id].name;
      if groupName == "" {
        return;
      }
      var session := db.LoadSession(id, ownerUserId);
      if session != null {
        if session.sessionName != groupName {
          session.UpdateMetadata(groupName, "");
          var ok := db.SaveSession(session);
        }
      } else {
        session := new SessionAggregate.Session(id, GroupChat, "", groupName, "", "", None, 0);
        var ok := db.SaveSession(session);
      }
    }

    /** One row of the summary query; a stale session name is brought in line with the group's. */
    method LoadRow(id: string, ghost ensured: Store, ghost done: seq<string>) returns (item: UC.Item)
      requires NoEmptyIds(ensured) && id in ensured.sessions && id !in done
      requires db.View() == NamesLoaded(ensured, done)
      modifies db
      ensures UC.Named(item) == UC.Shown(ensured, id)
      ensures db.View() == NamesLoaded(ensured, done + [id])
    {
      var s := db.sessions[id];
      var isGroup := s.kind == GroupChat || id in db.groups;
      var sType := if isGroup then GroupChat else s.kind;
      var name := s.name;
      if isGroup && id in db.groups {
        var gn := Trim(db.groups[id].name);
        if gn != "" {
          name := gn;
          if sType != s.kind || name != s.name {
            var session := db.LoadSession(id, ownerUserId);
            if session != null {
              session.UpdateMetadata(name, "");
              var ok := db.SaveSession(session);
            }
          }
        }
      }
      var displayName;
      if isGroup {
        displayName := ResolveGroupDisplayName(id, name);
      } else {
        displayName := if name == "" then id else name;
      }
      if sType == GroupChat && (displayName == "" || displayName == id) {
        displayName := "群聊";
      }
      item := UC.Item(id, displayName, s.unread, sType);
    }

    /** `sent` tells whether the request for the group list could be sent. */
    method SyncGroupSessions(sent: bool, order: seq<string>)
      requires NoEmptyIds(db.View()) && UC.Enumerates(order, UC.EnsureSessions(db.View()).sessions.Keys)
      modifies this`groupSyncInProgress, this`pendingRecoveryAfterGroupSync, db, model
      ensures var c := UC.Client("", old(db.View()), UC.NO_SESSION, old(model.sessions));
              var d := if old(groupSyncInProgress) || sent then c else UC.LoadSessions(c, order);
              && db.View() == d.store && model.sessions == d.list
              && groupSyncInProgress == (old(groupSyncInProgress) || sent)
              && pendingRecoveryAfterGroupSync == (old(pendingRecoveryAfterGroupSync) && (old(groupSyncInProgress) || sent))
    {
      if groupSyncInProgress {
        return;
      }
      groupSyncInProgress := true;
      if sent {
        return;
      }
      groupSyncInProgress := false;
      CompleteInitialSessionLoad(order);
    }

    method CompleteInitialSessionLoad(order: seq<string>)
      requires NoEmptyIds(db.View()) && UC.Enumerates(order, UC.EnsureSessions(db.View()).sessions.Keys)
      modifies this`pendingRecoveryAfterGroupSync, db, model
      ensures var c := UC.LoadSessions(UC.Client("", old(db.View()), UC.NO_SESSION, old(model.sessions)), order);
              db.View() == c.store && model.sessions == c.list && !pendingRecoveryAfterGroupSync
    {
      LoadSessions(order);
      pendingRecoveryAfterGroupSync := false;
    }
  }

  predicate Names(s: Store, done: set<string>, id: string) {
    id in done && id in s.groups && s.groups[id].name != ""
  }

  /** The sessions of the groups in `done` are ensured. */
  ghost function EnsuredFor(s: Store, done: set<string>): Store {
    s.(sessions := map id | id in s.sessions.Keys + s.groups.Keys && (id in s.sessions || Names(s, done, id)) ::
         if Names(s, done, id) then SessionFor(LoadSession(s, id), s.groups[id].name) else s.sessions[id])
  }

  lemma EnsureNone(s: Store)
    ensures EnsuredFor(s, {}) == s
  {
  }

  lemma EnsureAll(s: Store)
    requires NoEmptyIds(s)
    ensures EnsuredFor(s, s.groups.Keys) == UC.EnsureSessions(s)
  {
  }

  lemma EnsureOne(s: Store, done: set<string>, id: string)
    requires NoEmptyIds(s) && id in s.groups && id !in done
    ensures var t := EnsuredFor(s, done);
            var name := s.groups[id].name;
            EnsuredFor(s, done + {id}) == if name == "" then t else t.(sessions := t.sessions[id := SessionFor(LoadSession(t, id), name)])
  {
  }

  lemma EnsuredKeepsNonEmpty(s: Store)
    requires NoEmptyIds(s)
    ensures NoEmptyIds(UC.EnsureSessions(s))
  {
  }

  /** The sessions in `done` go by their loaded names. */
  ghost function NamesLoaded(s: Store, done: seq<string>): Store {
    s.(sessions := map id | id in s.sessions :: if id in done then s.sessions[id].(name := UC.LoadedName(s, id)) else s.sessions[id])
  }

  lemma NextInOrder(order: seq<string>, i: nat, ids: set<string>)
    requires UC.Enumerates(order, ids) && i < |order|
    ensures order[i] in ids && order[i] !in order[..i] && order[..i + 1] == order[..i] + [order[i]]
  {
  }

  lemma NoNamesLoaded(s: Store)
    ensures NamesLoaded(s, []) == s
  {
  }

  lemma AllNamesLoaded(s: Store, order: seq<string>)
    requires forall id :: id in s.sessions ==> id in order
    ensures NamesLoaded(s, order) == UC.WithLoadedNames(s)
  {
  }
}
