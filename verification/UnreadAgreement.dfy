/** The shown list agrees with the stored unread counters, whatever happens. */
module UnreadAgreement {
  import opened Wire
  import opened Text
  import opened ClientStore
  import opened GroupSync
  import opened UnreadCache

  function Unread(s: Store, id: string): nat {
    if id in s.sessions then s.sessions[id].unread else 0
  }

  predicate DistinctRows(list: seq<Item>) {
    forall i, j :: 0 <= i < j < |list| ==> list[i].sessionId != list[j].sessionId
  }

  predicate Listed(list: seq<Item>, id: string) {
    exists k :: 0 <= k < |list| && list[k].sessionId == id
  }

  predicate RowsAgree(list: seq<Item>, s: Store) {
    forall k :: 0 <= k < |list| ==> list[k].unread == Unread(s, list[k].sessionId)
  }

  predicate AllListed(list: seq<Item>, s: Store) {
    forall id :: id in s.sessions ==> Listed(list, id)
  }

  /** The active session is read, and only real ids are stored. */
  predicate ActiveRead(c: Client) {
    NoEmptyIds(c.store) && Unread(c.store, c.current.id) == 0
  }

  /** Rows are distinct, cover the table, and show its counters; a row without a session shows 0. */
  predicate ListAgrees(list: seq<Item>, s: Store) {
    DistinctRows(list) && AllListed(list, s) && RowsAgree(list, s)
  }

  predicate CacheInv(c: Client) {
    ActiveRead(c) && ListAgrees(c.list, c.store)
  }

  // ---------------------------------------------------------------- the list model

  /** Upserting shows the session once, with its count kept or one higher, and leaves every other row alone. */
  lemma UpsertRows(list: seq<Item>, item: Item, incrementUnread: bool)
    requires DistinctRows(list) && item.sessionId != "" && item.unread == 0
    ensures var u := Upsert(list, item, incrementUnread);
            && DistinctRows(u)
            && Listed(u, item.sessionId)
            && (forall id :: Listed(list, id) ==> Listed(u, id))
            && (forall k :: 0 <= k < |u| ==>
                  if u[k].sessionId == item.sessionId
                  then u[k].unread == CountIn(list, item.sessionId) + if incrementUnread then 1 else 0
                  else u[k] in list)
  {
    var row, u := RowOf(list, item.sessionId), Upsert(list, item, incrementUnread);
    assert u[0].sessionId == item.sessionId;
    forall id | Listed(list, id) ensures Listed(u, id) {
      var k :| 0 <= k < |list| && list[k].sessionId == id;
      if row == |list| || k > row {
        assert u[if row == |list| then k + 1 else k].sessionId == id;
      } else if k < row {
        assert u[k + 1].sessionId == id;
      }
    }
    forall k | 0 < k < |u| ensures u[k] in list && u[k].sessionId != item.sessionId {
      assert u[k] == if row == |list| then list[k - 1] else if k <= row then list[k - 1] else list[k];
    }
  }

  function CountIn(list: seq<Item>, id: string): nat {
    var row := RowOf(list, id);
    if row == |list| then 0 else list[row].unread
  }

  lemma CountIsUnread(list: seq<Item>, s: Store, id: string)
    requires RowsAgree(list, s) && AllListed(list, s)
    ensures CountIn(list, id) == Unread(s, id)
  {
  }

  lemma ClearUnreadRows(list: seq<Item>, id: string)
    requires DistinctRows(list) && id != ""
    ensures var u := ClearUnread(list, id);
            && |u| == |list|
            && forall k :: 0 <= k < |u| ==> u[k] == if list[k].sessionId == id then list[k].(unread := 0) else list[k]
  {
  }

  // ---------------------------------------------------------------- loading

  lemma EnsuredUnread(s: Store, id: string)
    requires NoEmptyIds(s)
    ensures Unread(EnsureSessions(s), id) == Unread(s, id)
    ensures NoEmptyIds(EnsureSessions(s))
  {
  }

  /** Loading rebuilds the list from the table, whatever the list was, and leaves the counters alone. */
  lemma LoadAgrees(c: Client, order: seq<string>)
    requires NoEmptyIds(c.store) && Enumerates(order, EnsureSessions(c.store).sessions.Keys)
    ensures var d := LoadSessions(c, order);
            && NoEmptyIds(d.store)
            && ListAgrees(d.list, d.store)
            && d.current == c.current && d.self == c.self
            && forall id :: Unread(d.store, id) == Unread(c.store, id)
  {
    var s, d := EnsureSessions(c.store), LoadSessions(c, order);
    forall id ensures Unread(s, id) == Unread(c.store, id) && NoEmptyIds(s) { EnsuredUnread(c.store, id); }
    hide EnsureSessions, IsGroup, ResolveName, LoadedName;
    forall k | 0 <= k < |d.list| ensures d.list[k].sessionId == order[k] && d.list[k].unread == Unread(d.store, order[k]) {
      assert order[k] in order;
    }
    forall id | id in d.store.sessions ensures Listed(d.list, id) {
      assert id in order;
      var k :| 0 <= k < |order| && order[k] == id;
      assert d.list[k].sessionId == id;
    }
  }

  lemma SavedUnread(s: Store, id: string, session: Session)
    requires NoEmptyIds(s)
    ensures NoEmptyIds(SaveSession(s, id, session))
    ensures forall x :: Unread(SaveSession(s, id, session), x) == if x == id && id != "" then session.unread else Unread(s, x)
  {
  }

  // ---------------------------------------------------------------- the events

  /** A shown row follows a counter that grows by one together with it. */
  lemma UpsertAgrees(list: seq<Item>, s: Store, t: Store, item: Item, incrementUnread: bool)
    requires ListAgrees(list, s) && item.sessionId != "" && item.unread == 0
    requires forall id :: Unread(t, id) == Unread(s, id) + if incrementUnread && id == item.sessionId then 1 else 0
    requires forall id :: id in t.sessions ==> id in s.sessions || id == item.sessionId
    ensures ListAgrees(Upsert(list, item, incrementUnread), t)
  {
    var u := Upsert(list, item, incrementUnread);
    UpsertRows(list, item, incrementUnread);
    CountIsUnread(list, s, item.sessionId);
    hide Upsert, Unread;
  }

  /** The counter of the message's session grows exactly when an increment is announced. */
  lemma StoredUnread(c: Client, m: Incoming, msgId: MsgId, inserted: bool)
    requires ActiveRead(c) && Announced(c, m, inserted).Some?
    ensures var a := Announced(c, m, inserted).value;
            var t := KeepMessage(c, m, msgId);
            && NoEmptyIds(t)
            && (forall id :: Unread(t, id) == Unread(c.store, id) + if a.incrementUnread && id == a.sessionId then 1 else 0)
            && (forall id :: id in t.sessions ==> id in c.store.sessions || id == a.sessionId)
            && (a.incrementUnread ==> a.sessionId != c.current.id)
  {
  }

  lemma ReceivedKeepsInv(c: Client, m: Incoming, msgId: MsgId, inserted: bool)
    requires CacheInv(c)
    ensures CacheInv(OnIncomingMessage(c, m, msgId, inserted))
  {
    if Announced(c, m, inserted).Some? {
      StoredUnread(c, m, msgId, inserted);
      var a := Announced(c, m, inserted).value;
      assert a.sessionId != "";
      hide KeepMessage, Announced;
      UpsertAgrees(c.list, c.store, KeepMessage(c, m, msgId), Item(a.sessionId, a.displayName, 0, a.kind), a.incrementUnread);
    }
  }

  lemma SwitchKeepsRead(c: Client, id: string, hint: string, reloaded: Option<seq<string>>)
    requires ActiveRead(c)
    requires reloaded.Some? ==> Enumerates(reloaded.value, EnsureSessions(c.store).sessions.Keys)
    ensures ActiveRead(SwitchTo(c, id, hint, reloaded))
    ensures ListAgrees(c.list, c.store) ==>
            ListAgrees(SwitchTo(c, id, hint, reloaded).list, SwitchTo(c, id, hint, reloaded).store)
  {
    if c.current.id != id {
      var moved := MovedTo(c, id, hint);
      var group := LoadGroup(c.store, id);
      if group.Some? && Trim(group.value.name) == "" && reloaded.Some? { LoadAgrees(moved, reloaded.value); }
      hide GroupTitle, LoadSessions, EnsureSessions, ListAgrees;
      ReadOnSwitch(SyncedFor(moved, id, reloaded), id, LoadSession(c.store, id));
    }
  }

  lemma ReadOnSwitch(c: Client, id: string, session: Option<Session>)
    requires NoEmptyIds(c.store) && c.current.id == id
    requires session.None? ==> Unread(c.store, id) == 0
    requires session.Some? ==> id != ""
    ensures var d := ReadIn(c, id, session);
            ActiveRead(d) && (ListAgrees(c.list, c.store) && (session.Some? ==> id in c.store.sessions) ==> ListAgrees(d.list, d.store))
  {
    if session.Some? { SavedUnread(c.store, id, session.value.(unread := 0)); }
    if ListAgrees(c.list, c.store) && id != "" {
      ClearUnreadRows(c.list, id);
      var d := ClearUnread(c.list, id);
      forall x | Listed(c.list, x) ensures Listed(d, x) {
        var k :| 0 <= k < |c.list| && c.list[k].sessionId == x;
        assert d[k].sessionId == x;
      }
    }
  }

  lemma PreviewKeepsInv(c: Client, id: string, displayName: string, kind: Kind)
    requires CacheInv(c)
    ensures CacheInv(Before(c, Preview(id, displayName, kind)))
  {
    if id != "" { UpsertAgrees(c.list, c.store, c.store, Item(id, displayName, 0, kind), false); }
  }

  lemma DeleteKeepsRead(c: Client, id: string)
    requires ActiveRead(c)
    ensures ActiveRead(DeleteSession(c, id))
  {
  }

  lemma MetadataKeepsRead(c: Client, id: string, kind: Kind, name: string, peer: UserId)
    requires ActiveRead(c)
    ensures ActiveRead(c.(store := WithMetadata(c.store, id, kind, name, peer)))
  {
  }

  /** Synchronizing neither counts nor forgets: a group's session keeps its counter, a new one starts at 0. */
  lemma SyncUnread(s: Store, entries: seq<Entry>, id: string)
    requires NoEmptyIds(s)
    ensures var t := ApplyGroupList(s, entries);
            && NoEmptyIds(t)
            && Unread(t, id) == if id !in ActiveIds(entries) && id in s.groups then 0 else Unread(s, id)
  {
    var t := ApplyGroupList(s, entries);
    SyncPerGroup(s, entries);
    hide ApplyGroupList, LastNamed, LastSavable, FromEntry, ResolveName;
    assert SyncedTo(s, t, entries, id);
    assert id != "" ==> (LoadSession(t, id).Some? <==> id in t.sessions) && (LoadSession(s, id).Some? <==> id in s.sessions);
    if id in ActiveIds(entries) {
      assert LoadSession(t, id).value.unread == if id in s.sessions then s.sessions[id].unread else 0;
    }
  }

  lemma SyncKeepsRead(c: Client, entries: seq<Entry>)
    requires ActiveRead(c)
    ensures ActiveRead(Synchronize(c, entries))
  {
    SyncUnread(c.store, entries, c.current.id);
    SyncUnread(c.store, entries, "");
    hide ApplyGroupList, ApplyEntries, GroupTitle;
  }

  // ---------------------------------------------------------------- runs

  /** Every order the summary query returns lists the sessions of its moment. */
  ghost predicate Possible(c: Client, e: Event) {
    var before := Before(c, e);
    && (OrderOf(e).Some? ==> Enumerates(OrderOf(e).value, EnsureSessions(before.store).sessions.Keys))
    && (e.Switched? && e.reloaded.Some? ==> Enumerates(e.reloaded.value, EnsureSessions(c.store).sessions.Keys))
    && (e.ChatStarted? && e.reloaded.Some? ==>
          var displayName := if Trim(e.nickname) == "" then e.user else Trim(e.nickname);
          Enumerates(e.reloaded.value, EnsureSessions(WithMetadata(c.store, e.sessionId, Private, displayName, e.user)).sessions.Keys))
    && (e.FriendReady? && e.reloaded.Some? ==>
          Enumerates(e.reloaded.value, EnsureSessions(LoadSessions(before, e.order).store).sessions.Keys))
  }

  lemma BeforeKeepsRead(c: Client, e: Event)
    requires CacheInv(c) && Possible(c, e)
    ensures ActiveRead(Before(c, e))
    ensures OrderOf(e).None? ==> CacheInv(Before(c, e))
  {
    match e
    case Received(message, msgId, inserted) => ReceivedKeepsInv(c, message, msgId, inserted);
    case Preview(id, displayName, kind) => PreviewKeepsInv(c, id, displayName, kind);
    case Switched(id, reloaded) => SwitchKeepsRead(c, id, DisplayName(c.list, id), reloaded);
    case Deleted(id, _) => DeleteKeepsRead(c, id);
    case ChatStarted(user, nickname, id, reloaded, _) =>
      var displayName := if Trim(nickname) == "" then user else Trim(nickname);
      MetadataKeepsRead(c, id, Private, displayName, user);
      SwitchKeepsRead(c.(store := WithMetadata(c.store, id, Private, displayName, user)), id, displayName, reloaded);
    case FriendReady(friend, id, _, _) => MetadataKeepsRead(c, id, Private, friend, friend);
    case GroupCreated(id, name, _) => MetadataKeepsRead(c, id, GroupChat, ResolveName(id, name, LoadGroup(c.store, id)), "");
    case Synced(entries, _) => SyncKeepsRead(c, entries);
    case Reloaded(_) =>
  }

  lemma ActKeepsInv(c: Client, e: Event)
    requires CacheInv(c) && Possible(c, e)
    ensures CacheInv(Act(c, e))
  {
    var before := Before(c, e);
    BeforeKeepsRead(c, e);
    hide Before, ListAgrees, EnsureSessions;
    if OrderOf(e).Some? {
      LoadAgrees(before, OrderOf(e).value);
      var loaded := LoadSessions(before, OrderOf(e).value);
      assert CacheInv(loaded);
      hide LoadSessions;
      if e.FriendReady? {
        SwitchKeepsRead(loaded, e.sessionId, DisplayName(loaded.list, e.sessionId), e.reloaded);
      }
    }
  }

  ghost predicate Runs(c: Client, events: seq<Event>) {
    events == [] || (var n := |events| - 1; Runs(c, events[..n]) && Possible(After(c, events[..n]), events[n]))
  }

  ghost function After(c: Client, events: seq<Event>): Client {
    if events == [] then c else Act(After(c, events[..|events| - 1]), events[|events| - 1])
  }

  lemma {:induction false} CacheInvEver(c: Client, events: seq<Event>)
    requires CacheInv(c) && Runs(c, events)
    ensures CacheInv(After(c, events))
  {
    hide CacheInv, Act, Possible;
    if events != [] {
      var n := |events| - 1;
      CacheInvEver(c, events[..n]);
      ActKeepsInv(After(c, events[..n]), events[n]);
    }
  }

  /** From the first load after login on: every stored session is shown exactly once with its stored counter,
      and the active session shows no unread messages. */
  lemma ListShowsTheTable(self: UserId, store: Store, order: seq<string>, events: seq<Event>)
    requires NoEmptyIds(store) && Enumerates(order, EnsureSessions(store).sessions.Keys)
    requires Runs(LoadSessions(Client(self, store, NO_SESSION, []), order), events)
    ensures var c := After(LoadSessions(Client(self, store, NO_SESSION, []), order), events);
            && (forall id :: id in c.store.sessions ==>
                  exists k :: 0 <= k < |c.list| && c.list[k].sessionId == id && c.list[k].unread == c.store.sessions[id].unread
                              && forall j :: 0 <= j < |c.list| && j != k ==> c.list[j].sessionId != id)
            && (forall k :: 0 <= k < |c.list| && c.list[k].sessionId == c.current.id ==> c.list[k].unread == 0)
            && (c.current.id in c.store.sessions ==> c.store.sessions[c.current.id].unread == 0)
  {
    var start := LoadSessions(Client(self, store, NO_SESSION, []), order);
    LoadAgrees(Client(self, store, NO_SESSION, []), order);
    CacheInvEver(start, events);
    var c := After(start, events);
    hide After, Runs, LoadSessions;
    forall id | id in c.store.sessions
      ensures exists k :: 0 <= k < |c.list| && c.list[k].sessionId == id && c.list[k].unread == c.store.sessions[id].unread
                          && forall j :: 0 <= j < |c.list| && j != k ==> c.list[j].sessionId != id
    {
      assert Listed(c.list, id);
      var k :| 0 <= k < |c.list| && c.list[k].sessionId == id;
      assert forall j :: 0 <= j < |c.list| && j != k ==> c.list[j].sessionId != id;
    }
  }
}
