/** Under which names the client shows its sessions, after loading, receiving, synchronizing and entering. */
module ShownSessions {
  import opened Wire
  import opened Text
  import opened Query
  import opened ClientStore
  import opened GroupSync
  import opened UnreadCache
  import opened UnreadAgreement
  import opened SyncedGroups
  import opened Receiving

  // ---------------------------------------------------------------- loading

  /** A session of the table, or a stored group with a name. */
  predicate Due(s: Store, id: string) {
    id in s.sessions || (id != "" && id in s.groups && s.groups[id].name != "")
  }

  /** A stored group's name, trimmed unless that leaves nothing, replaces the name of its session. */
  function NewName(s: Store, id: string, known: string): string {
    if id == "" || id !in s.groups || s.groups[id].name == "" then known
    else if Trim(s.groups[id].name) != "" then Trim(s.groups[id].name)
    else s.groups[id].name
  }

  /** What loading makes of one session. */
  predicate SessionLoaded(s: Store, t: Store, id: string) {
    && (id in t.sessions <==> Due(s, id))
    && (id in s.sessions && id in t.sessions ==> t.sessions[id] == s.sessions[id].(name := NewName(s, id, s.sessions[id].name)))
    && (id !in s.sessions && id in t.sessions ==> t.sessions[id] == Session(GroupChat, NewName(s, id, ""), "", 0))
  }

  /** A session is shown under its name, its id for want of a private name, "group chat" for want of a group's. */
  predicate RowShows(t: Store, row: Item, id: string) {
    && row.sessionId == id && id in t.sessions && row.unread == t.sessions[id].unread
    && row.kind == (if id in t.groups then GroupChat else t.sessions[id].kind)
    && if row.kind != GroupChat then row.displayName == if t.sessions[id].name == "" then id else t.sessions[id].name
       else if IsTitle(id, id, t.sessions[id].name, GroupName(t, id)) then row.displayName == "群聊"
       else IsTitle(row.displayName, id, t.sessions[id].name, GroupName(t, id))
  }

  lemma EnsuredOne(s: Store, id: string)
    requires NoEmptyIds(s)
    ensures var t := WithLoadedNames(EnsureSessions(s)); SessionLoaded(s, t, id) && t == s.(sessions := t.sessions)
  {
    hide Trim;
  }

  lemma TitleIsId(title: string, id: string, first: string, second: string)
    requires IsTitle(title, id, first, second)
    ensures title == id <==> IsTitle(id, id, first, second)
  {
  }

  lemma ShownRow(s: Store, id: string)
    requires NoEmptyIds(s) && id in EnsureSessions(s).sessions
    ensures RowShows(WithLoadedNames(EnsureSessions(s)), Shown(EnsureSessions(s), id), id)
  {
    var e := EnsureSessions(s);
    var t := WithLoadedNames(e);
    Resolved(id, LoadedName(e, id), LoadGroup(e, id));
    TitleIsId(ResolveName(id, LoadedName(e, id), LoadGroup(e, id)), id, t.sessions[id].name, GroupName(t, id));
    hide Trim, ResolveName, LoadedName, IsTitle, EnsureSessions;
  }

  /** Loading stores every due session under its name, in the order of the query shows each under it, and changes
      nothing else. */
  lemma LoadOutcome(c: Client, order: seq<string>)
    requires NoEmptyIds(c.store) && forall id :: id in order <==> Due(c.store, id)
    ensures var t := LoadSessions(c, order);
            && (forall id :: SessionLoaded(c.store, t.store, id)) && t.store == c.store.(sessions := t.store.sessions)
            && |t.list| == |order| && (forall k :: 0 <= k < |order| ==> RowShows(t.store, t.list[k], order[k]))
            && t.current == c.current && t.self == c.self
  {
    forall id ensures SessionLoaded(c.store, WithLoadedNames(EnsureSessions(c.store)), id) { EnsuredOne(c.store, id); }
    EnsuredOne(c.store, "");
    forall id | id in order
      ensures id in EnsureSessions(c.store).sessions
      ensures RowShows(WithLoadedNames(EnsureSessions(c.store)), Shown(EnsureSessions(c.store), id), id)
    {
      ShownRow(c.store, id);
    }
    hide EnsureSessions, WithLoadedNames, Shown, RowShows, SessionLoaded;
    forall k | 0 <= k < |order| ensures order[k] in order {
    }
  }

  /** Loading again changes nothing. */
  lemma LoadTwice(c: Client, order: seq<string>)
    requires NoEmptyIds(c.store) && forall id :: id in order <==> Due(c.store, id)
    ensures LoadSessions(LoadSessions(c, order), order).store == LoadSessions(c, order).store
  {
    var t := LoadSessions(c, order);
    LoadOutcome(c, order);
    hide LoadSessions, Trim;
    forall id ensures Due(t.store, id) <==> Due(c.store, id) { assert SessionLoaded(c.store, t.store, id); }
    assert SessionLoaded(c.store, t.store, "");
    LoadOutcome(t, order);
    var u := LoadSessions(t, order);
    forall id ensures LoadSession(u.store, id) == LoadSession(t.store, id) && LoadGroup(u.store, id) == LoadGroup(t.store, id) {
      assert SessionLoaded(c.store, t.store, id) && SessionLoaded(t.store, u.store, id);
    }
    assert SessionLoaded(t.store, u.store, "");
    hide SessionLoaded, RowShows;
    SameByLookup(t.store, u.store);
  }

  // ---------------------------------------------------------------- the list model

  function OtherThan(id: string): Item -> bool { (row: Item) => row.sessionId != id }

  lemma WithoutRow(list: seq<Item>, id: string)
    requires DistinctRows(list)
    ensures var row := RowOf(list, id);
            Where(list, OtherThan(id)) == if row == |list| then list else list[..row] + list[row + 1..]
  {
    hide Where;
    var row, others := RowOf(list, id), OtherThan(id);
    if row == |list| {
      WhereAll(list, others);
    } else {
      var front, back := list[..row], list[row + 1..];
      WhereAll(front, others);
      WhereAll(back, others);
      WhereAppend(front, list[row], others);
      WhereTogether(front + [list[row]], back, others);
      assert list == front + [list[row]] + back;
    }
  }

  /** An upsert shows the session first, under its name or else its id, and behind it the other rows as they were. */
  lemma UpsertOutcome(list: seq<Item>, item: Item, incrementUnread: bool)
    requires DistinctRows(list) && item.sessionId != "" && item.unread == 0
    ensures var u := Upsert(list, item, incrementUnread);
            && u != [] && u[1..] == Where(list, OtherThan(item.sessionId))
            && u[0].sessionId == item.sessionId && u[0].kind == item.kind
            && u[0].displayName == if item.displayName == "" then item.sessionId else item.displayName
  {
    WithoutRow(list, item.sessionId);
    var front, back := UpsertParts(list, item, incrementUnread);
    var u := Upsert(list, item, incrementUnread);
    hide Upsert, Where, RowOf, OtherThan, DistinctRows;
    BehindFirst(u[0], front, back);
    assert u == [u[0]] + front + back;
  }

  lemma UpsertParts(list: seq<Item>, item: Item, incrementUnread: bool) returns (front: seq<Item>, back: seq<Item>)
    requires item.sessionId != ""
    ensures var u, row := Upsert(list, item, incrementUnread), RowOf(list, item.sessionId);
            && u != [] && u == [u[0]] + front + back
            && u[0].sessionId == item.sessionId && u[0].kind == item.kind
            && u[0].displayName == (if item.displayName == "" then item.sessionId else item.displayName)
            && front + back == if row == |list| then list else list[..row] + list[row + 1..]
  {
    var row := RowOf(list, item.sessionId);
    if row == |list| { front, back := list, []; } else { front, back := list[..row], list[row + 1..]; }
  }

  lemma BehindFirst(first: Item, a: seq<Item>, b: seq<Item>)
    ensures ([first] + a + b)[1..] == a + b && ([first] + a)[1..] == a
  {
  }

  /** A preview shows its session first, without counting, and stores nothing. */
  lemma PreviewOutcome(c: Client, id: string, displayName: string, kind: Kind)
    requires CacheInv(c) && id != ""
    ensures var t := Act(c, Preview(id, displayName, kind));
            && t == c.(list := t.list) && t.list != [] && t.list[1..] == Where(c.list, OtherThan(id))
            && t.list[0] == Item(id, if displayName == "" then id else displayName, Unread(c.store, id), kind)
  {
    UpsertOutcome(c.list, Item(id, displayName, 0, kind), false);
    UpsertRows(c.list, Item(id, displayName, 0, kind), false);
    CountIsUnread(c.list, c.store, id);
    hide Upsert, Where, DistinctRows, Listed, OtherThan;
  }

  /** A session goes by the name of its row. */
  lemma ShownName(list: seq<Item>, k: nat)
    requires DistinctRows(list) && k < |list| && list[k].sessionId != ""
    ensures DisplayName(list, list[k].sessionId) == list[k].displayName
  {
  }

  // ---------------------------------------------------------------- receiving

  /** What the current session goes by, once it is announced under a name. */
  predicate Renamed(s: Store, current: Current, id: string, kind: Kind, name: string) {
    current.id == id && current.kind == kind && if kind == GroupChat then IsTitle(current.name, id, GroupName(s, id), name) else current.name == name
  }

  lemma Retitled(c: Client, id: string, kind: Kind, name: string)
    requires NoEmptyIds(c.store)
    ensures var t := UpdateCurrentInfo(c, id, kind, name);
            t == c.(current := t.current) && if id == c.current.id then Renamed(c.store, t.current, id, kind, name) else t.current == c.current
  {
    hide Trim;
  }

  /** A message that is taken in brings its session to the front under its name; the current session, if it is that
      one, takes over name and kind; an unknown group is stored under that name, without members. */
  lemma ReceivedShown(c: Client, m: Incoming, msgId: MsgId)
    requires NoEmptyIds(c.store) && DistinctRows(c.list) && TakenIn(c, m, true)
    ensures var t := OnIncomingMessage(c, m, msgId, true);
            && t.list != [] && t.list[1..] == Where(c.list, OtherThan(Home(m)))
            && t.list[0].sessionId == Home(m) && ShownAs(c, m, t.list[0].displayName)
            && t.list[0].kind == (if m.sessionType == "group" then GroupChat else Private)
            && (if Home(m) == c.current.id then Renamed(t.store, t.current, Home(m), t.list[0].kind, t.list[0].displayName)
                else t.current == c.current)
            && (m.sessionType == "group" && Home(m) !in c.store.groups ==>
                  Home(m) in t.store.groups && t.store.groups[Home(m)] == Group(t.list[0].displayName, "", []))
  {
    TakenInIff(c, m, true);
    ReceiveOutcome(c, m, msgId, true);
    var a := Announced(c, m, true).value;
    if m.sessionType == "group" { NewGroup(c, m, msgId); }
    NamesNonEmpty(c, m, a.displayName);
    UpsertOutcome(c.list, Item(a.sessionId, a.displayName, 0, a.kind), a.incrementUnread);
    hide Trim, KeepMessage, Upsert, IsTitle, SessionHolds, UpdateCurrentInfo, StoredUnderHome, DistinctRows, ShownAs, OtherThan;
    KeptIds(c, m, msgId);
    Retitled(c.(store := KeepMessage(c, m, msgId), list := Upsert(c.list, Item(a.sessionId, a.displayName, 0, a.kind), a.incrementUnread)),
             a.sessionId, a.kind, a.displayName);
  }

  lemma KeptIds(c: Client, m: Incoming, msgId: MsgId)
    requires NoEmptyIds(c.store) && Home(m) != ""
    ensures NoEmptyIds(KeepMessage(c, m, msgId))
  {
    hide Trim, SessionAfterMessage, NameFor;
  }

  lemma NamesNonEmpty(c: Client, m: Incoming, name: string)
    requires ShownAs(c, m, name) && Home(m) != "" && m.from != ""
    ensures name != ""
  {
    hide Trim;
  }

  lemma NewGroup(c: Client, m: Incoming, msgId: MsgId)
    requires Home(m) != "" && m.sessionType == "group" && Announced(c, m, true).Some?
    ensures Home(m) !in c.store.groups ==>
              var t := KeepMessage(c, m, msgId);
              Home(m) in t.groups && t.groups[Home(m)] == Group(Announced(c, m, true).value.displayName, "", [])
  {
    hide Trim, SessionAfterMessage, NameFor;
  }

  // ---------------------------------------------------------------- synchronizing

  /** A current group that was stored and is not listed any more is left; one that stays goes by its new name. */
  lemma SynchronizeOutcome(c: Client, entries: seq<Entry>)
    requires NoEmptyIds(c.store)
    ensures var t := Synchronize(c, entries);
            var gone := c.current.id in c.store.groups && forall e :: e in entries ==> e.groupId != c.current.id;
            && t.store == ApplyGroupList(c.store, entries) && t.list == c.list && t.self == c.self
            && if c.current.kind != GroupChat || c.current.id == "" then t.current == c.current
               else if gone then t.current == Current("", Private, "")
               else Renamed(t.store, t.current, c.current.id, GroupChat, c.current.name)
  {
    StaleIds(c.store, entries);
    SyncPerGroup(c.store, entries);
    hide ApplyGroupList, ApplyEntries, SyncedTo, UpdateCurrentInfo, IsTitle;
    assert c.current.id in ActiveIds(entries) <==> c.current.id != "" && exists e :: e in entries && e.groupId == c.current.id;
    Retitled(c.(store := ApplyGroupList(c.store, entries)), c.current.id, GroupChat, c.current.name);
  }

  // ---------------------------------------------------------------- sessions made and entered

  /** Saving a session never loses a peer that is known. */
  lemma PeerKept(s: Store, id: string, session: Session)
    requires id != ""
    ensures var t := SaveSession(s, id, session);
            && id in t.sessions && (session.peer != "" ==> t.sessions[id].peer == session.peer)
            && (session.peer == "" ==> t.sessions[id].peer == if id in s.sessions then s.sessions[id].peer else "")
            && t.sessions[id].(peer := "") == session.(peer := "")
  {
  }

  /** A session's name and peer are set; a new one has the given kind; everything else stays. */
  lemma MetadataOutcome(s: Store, id: string, kind: Kind, name: string, peer: UserId)
    requires NoEmptyIds(s) && id != ""
    ensures var t := WithMetadata(s, id, kind, name, peer);
            && t == s.(sessions := s.sessions[id := t.sessions[id]])
            && t.sessions[id] == if id in s.sessions then s.sessions[id].(name := name, peer := if peer == "" then s.sessions[id].peer else peer)
                                 else Session(kind, name, peer, 0)
  {
  }

  /** A created group is stored as a group session under its name. */
  lemma CreatedOutcome(c: Client, id: string, name: string, order: seq<string>)
    requires NoEmptyIds(c.store) && id != ""
    ensures var t := Before(c, GroupCreated(id, name, order));
            && t == c.(store := t.store) && t.store == c.store.(sessions := c.store.sessions[id := t.store.sessions[id]])
            && IsTitle(t.store.sessions[id].name, id, name, GroupName(c.store, id))
            && t.store.sessions[id].(name := "") == if id in c.store.sessions then c.store.sessions[id].(name := "") else Session(GroupChat, "", "", 0)
  {
    Resolved(id, name, LoadGroup(c.store, id));
    MetadataOutcome(c.store, id, GroupChat, ResolveName(id, name, LoadGroup(c.store, id)), "");
    hide ResolveName, IsTitle, WithMetadata;
  }

  /** A new friend's session is stored as a private one with the friend as name and peer. */
  lemma FriendOutcome(c: Client, friend: UserId, id: string, order: seq<string>, reloaded: Option<seq<string>>)
    requires NoEmptyIds(c.store) && id != "" && friend != ""
    ensures var t := Before(c, FriendReady(friend, id, order, reloaded));
            && t == c.(store := t.store) && t.store == c.store.(sessions := c.store.sessions[id := t.store.sessions[id]])
            && t.store.sessions[id] == if id in c.store.sessions then c.store.sessions[id].(name := friend, peer := friend)
                                       else Session(Private, friend, friend, 0)
  {
  }

  /** After the reload that follows, the friend's session is entered if no session is current, and only then. */
  lemma FriendEntered(c: Client, friend: UserId, id: string, order: seq<string>, reloaded: Option<seq<string>>)
    requires NoEmptyIds(c.store) && id != "" && friend != ""
    ensures Act(c, FriendReady(friend, id, order, reloaded)).current.id == if c.current.id == "" then id else c.current.id
    ensures c.current.id != "" ==>
              Act(c, FriendReady(friend, id, order, reloaded)) == LoadSessions(Before(c, FriendReady(friend, id, order, reloaded)), order)
  {
    var e := FriendReady(friend, id, order, reloaded);
    var before := Before(c, e);
    FriendOutcome(c, friend, id, order, reloaded);
    LoadKeepsTables(before, order);
    var loaded := LoadSessions(before, order);
    if c.current.id == "" { SwitchOutcome(loaded, id, DisplayName(loaded.list, id), reloaded); }
    hide SwitchTo, LoadSessions, DisplayName;
  }

  /** A private chat is stored and entered under the other user's nickname, or else the user id. */
  lemma ChatNamed(c: Client, user: UserId, nickname: string, id: string, reloaded: Option<seq<string>>)
    requires NoEmptyIds(c.store) && id != "" && id != c.current.id && LoadGroup(c.store, id).None?
    requires id in c.store.sessions ==> c.store.sessions[id].kind == Private
    ensures var t := StartPrivateChat(c, user, nickname, id, reloaded);
            var name := if Trim(nickname) == "" then user else Trim(nickname);
            id in t.store.sessions && t.store.sessions[id].name == name && t.store.sessions[id].kind == Private
            && t.current == Current(id, Private, if name == "" then id else name)
  {
    hide Trim, GroupTitle, LoadSessions;
  }

  /** Entering a group that is stored without a name asks for a group sync; when that request cannot be sent, the
      sessions are loaded again. */
  lemma NamelessGroupReloads(c: Client, id: string, hint: string, order: seq<string>)
    requires NoEmptyIds(c.store) && id != c.current.id && id in c.store.groups && Trim(c.store.groups[id].name) == ""
    requires forall x :: x in order <==> Due(c.store, x)
    ensures var t := SwitchTo(c, id, hint, Some(order));
            |t.list| == |order| && forall k :: 0 <= k < |order| ==> t.list[k].sessionId == order[k]
  {
    hide Trim, GroupTitle;
    LoadOutcome(MovedTo(c, id, hint), order);
    assert forall x :: Due(MovedTo(c, id, hint).store, x) <==> Due(c.store, x);
    hide LoadSessions, SessionLoaded;
  }
}
