/** The session list that the client shows, next to the session table it caches. */
module UnreadCache {
  import opened Wire
  import opened Text
  import opened ClientStore
  import opened GroupSync

  /** One row of the shown list. */
  datatype Item = Item(sessionId: string, displayName: string, unread: nat, kind: Kind)

  datatype Current = Current(id: string, kind: Kind, name: string)

  datatype Client = Client(self: UserId, store: Store, current: Current, list: seq<Item>)

  const NO_SESSION := Current("", Private, "")

  // ---------------------------------------------------------------- the list model

  /** The first row of a session, or the length of the list. */
  function RowOf(list: seq<Item>, id: string): (row: nat)
    ensures row <= |list| && forall k :: 0 <= k < row ==> list[k].sessionId != id
    ensures row < |list| ==> list[row].sessionId == id
  {
    if list == [] || list[0].sessionId == id then 0 else 1 + RowOf(list[1..], id)
  }

  function Named(item: Item): Item {
    if item.displayName == "" then item.(displayName := item.sessionId) else item
  }

  function Refreshed(items: seq<Item>): (list: seq<Item>)
    ensures |list| == |items| && forall k :: 0 <= k < |list| ==> list[k] == Named(items[k])
  {
    seq(|items|, k requires 0 <= k < |items| => Named(items[k]))
  }

  /** Inserts a row or updates it, and moves it to the front; the count of an existing row only ever grows by one. */
  function Upsert(list: seq<Item>, session: Item, incrementUnread: bool): seq<Item> {
    if session.sessionId == "" then list
    else
      var item, row := Named(session), RowOf(list, session.sessionId);
      if row == |list| then [if incrementUnread then item.(unread := 1) else item] + list
      else
        [item.(unread := list[row].unread + if incrementUnread then 1 else 0)] + list[..row] + list[row + 1..]
  }

  function ClearUnread(list: seq<Item>, id: string): seq<Item> {
    var row := RowOf(list, id);
    if id == "" || row == |list| then list else list[row := list[row].(unread := 0)]
  }

  function DisplayName(list: seq<Item>, id: string): string {
    var row := RowOf(list, id);
    if id == "" || row == |list| then "" else list[row].displayName
  }

  // ---------------------------------------------------------------- loading

  /** Every stored group with a name has a session of that name. */
  function EnsureSessions(s: Store): Store {
    s.(sessions := map id | id in s.sessions.Keys + s.groups.Keys && (id in s.sessions || (id != "" && s.groups[id].name != "")) ::
         if id != "" && id in s.groups && s.groups[id].name != "" then SessionFor(LoadSession(s, id), s.groups[id].name)
         else s.sessions[id])
  }

  predicate IsGroup(s: Store, id: string) {
    id in s.groups || (id in s.sessions && s.sessions[id].kind == GroupChat)
  }

  /** The name a session goes by after loading; a stored group's name wins. */
  function LoadedName(s: Store, id: string): string
    requires id in s.sessions
  {
    var group := LoadGroup(s, id);
    if group.Some? && Trim(group.value.name) != "" then Trim(group.value.name) else s.sessions[id].name
  }

  function Shown(s: Store, id: string): Item
    requires id in s.sessions
  {
    var name := LoadedName(s, id);
    if IsGroup(s, id) then
      var resolved := ResolveName(id, name, LoadGroup(s, id));
      Named(Item(id, if resolved == "" || resolved == id then "群聊" else resolved, s.sessions[id].unread, GroupChat))
    else Named(Item(id, if name == "" then id else name, s.sessions[id].unread, s.sessions[id].kind))
  }

  function Rows(s: Store, order: seq<string>): (rows: seq<Item>)
    requires forall id :: id in order ==> id in s.sessions
    ensures |rows| == |order| && forall k :: 0 <= k < |rows| ==> rows[k] == Shown(s, order[k])
  {
    seq(|order|, k requires 0 <= k < |order| => Shown(s, order[k]))
  }

  function WithLoadedNames(s: Store): Store {
    s.(sessions := map id | id in s.sessions :: s.sessions[id].(name := LoadedName(s, id)))
  }

  /** The order in which the summary query returns the sessions. */
  ghost predicate Enumerates(order: seq<string>, ids: set<string>) {
    && (forall id :: id in order <==> id in ids)
    && (forall i, j :: 0 <= i < j < |order| ==> order[i] != order[j])
  }

  function LoadSessions(c: Client, order: seq<string>): Client {
    var ensured := EnsureSessions(c.store);
    if exists id :: id in order && id !in ensured.sessions then c
    else c.(store := WithLoadedNames(ensured), list := Rows(ensured, order))
  }

  // ---------------------------------------------------------------- receiving

  datatype Incoming = Incoming(sessionId: string, from: UserId, content: string, sessionType: string,
                               senderNickname: string, groupName: string)

  function SessionOf(m: Incoming): string { if m.sessionId == "" then m.from else m.sessionId }

  function NameForGroup(s: Store, id: string, received: string): string {
    var stored := match LoadGroup(s, id) case Some(g) => Trim(g.name) case None => "";
    if stored != "" && stored != id then stored
    else if Trim(received) != "" && Trim(received) != id then Trim(received)
    else id
  }

  /** The stored session after the message; the active one is read at once. */
  function SessionAfterMessage(c: Client, m: Incoming, displayName: string): Session {
    var id, group := SessionOf(m), m.sessionType == "group";
    var peer := if !group && m.from != c.self then m.from else "";
    var loaded := match LoadSession(c.store, id)
                  case Some(session) => UpdateMetadata(session, displayName, peer)
                  case None => Session(if group then GroupChat else Private, displayName, peer, 0);
    var counted := loaded.(unread := loaded.unread + if m.from != c.self then 1 else 0);
    if id == c.current.id then counted.(unread := 0) else counted
  }

  /** What the use case announces about a stored message. */
  datatype Announcement = Announcement(sessionId: string, kind: Kind, displayName: string, incrementUnread: bool)

  /** `inserted` tells whether the message could be stored under its new id; otherwise the transaction is undone. */
  function Announced(c: Client, m: Incoming, inserted: bool): Option<Announcement> {
    var id := SessionOf(m);
    var isMine, group := c.self != "" && m.from == c.self, m.sessionType == "group";
    if id == "" || m.from == "" || m.content == "" || (isMine && !group) || !inserted then None
    else
      var displayName := NameFor(c.store, m);
      Some(Announcement(id, if group then GroupChat else Private, displayName,
                        SessionAfterMessage(c, m, displayName).unread > 0 && !isMine))
  }

  function NameFor(s: Store, m: Incoming): string {
    if m.sessionType == "group" then NameForGroup(s, SessionOf(m), m.groupName)
    else if m.senderNickname == "" then m.from else m.senderNickname
  }

  /** The message is stored, and with it its sender's nickname and an unknown group. */
  function WithMessage(s: Store, m: Incoming, msgId: MsgId, displayName: string): Store {
    var stored := Introduced(s.(messages := s.messages[msgId := SessionOf(m)]), m);
    if m.sessionType == "group" && SessionOf(m) !in s.groups then SaveGroup(stored, SessionOf(m), Group(displayName, "", [])) else stored
  }

  function Introduced(s: Store, m: Incoming): Store {
    if Trim(m.senderNickname) == "" then s else UpsertUser(s, m.from, m.senderNickname)
  }

  function KeepMessage(c: Client, m: Incoming, msgId: MsgId): Store {
    var displayName := NameFor(c.store, m);
    SaveSession(WithMessage(c.store, m, msgId, displayName), SessionOf(m), SessionAfterMessage(c, m, displayName))
  }

  function OnIncomingMessage(c: Client, m: Incoming, msgId: MsgId, inserted: bool): Client {
    match Announced(c, m, inserted)
    case None => c
    case Some(a) =>
      var shown := c.(store := KeepMessage(c, m, msgId),
                      list := Upsert(c.list, Item(a.sessionId, a.displayName, 0, a.kind), a.incrementUnread));
      UpdateCurrentInfo(shown, a.sessionId, a.kind, a.displayName)
  }

  // ---------------------------------------------------------------- the current session

  function GroupTitle(s: Store, id: string, hint: string): string {
    var stored := match LoadGroup(s, id) case Some(g) => Trim(g.name) case None => "";
    if stored != "" && stored != id then stored
    else if Trim(hint) != "" && Trim(hint) != id then Trim(hint)
    else id
  }

  function UpdateCurrentInfo(c: Client, id: string, kind: Kind, displayName: string): Client {
    if id != c.current.id then c
    else c.(current := Current(id, kind, if kind == GroupChat then GroupTitle(c.store, id, displayName) else displayName))
  }

  predicate IsGroupFor(s: Store, id: string) {
    (LoadSession(s, id).Some? && LoadSession(s, id).value.kind == GroupChat) || LoadGroup(s, id).Some?
  }

  function MovedTo(c: Client, id: string, hint: string): Client {
    c.(current := if IsGroupFor(c.store, id) then Current(id, GroupChat, GroupTitle(c.store, id, hint))
                  else Current(id, Private, if hint == "" then id else hint))
  }

  /** A group without a name asks for a group sync; when that request cannot be sent the sessions are loaded
      again on the spot, in the order `reloaded`. */
  function SyncedFor(c: Client, id: string, reloaded: Option<seq<string>>): Client {
    var group := LoadGroup(c.store, id);
    if group.Some? && Trim(group.value.name) == "" && reloaded.Some? then LoadSessions(c, reloaded.value) else c
  }

  /** Marks the session read that was loaded before. */
  function ReadIn(c: Client, id: string, session: Option<Session>): Client {
    var store := match session
                 case Some(s) => SaveSession(c.store, id, s.(unread := 0))
                 case None => c.store;
    c.(store := store, list := ClearUnread(c.list, id))
  }

  function SwitchTo(c: Client, id: string, hint: string, reloaded: Option<seq<string>>): Client {
    if c.current.id == id then c
    else ReadIn(SyncedFor(MovedTo(c, id, hint), id, reloaded), id, LoadSession(c.store, id))
  }

  function StartPrivateChat(c: Client, user: UserId, nickname: string, id: string, reloaded: Option<seq<string>>): Client {
    var displayName := if Trim(nickname) == "" then user else Trim(nickname);
    SwitchTo(c.(store := WithMetadata(c.store, id, Private, displayName, user)), id, displayName, reloaded)
  }

  /** Saves a session's name and peer, creating the session if need be. */
  function WithMetadata(s: Store, id: string, kind: Kind, name: string, peer: UserId): Store {
    SaveSession(s, id, match LoadSession(s, id)
                       case Some(session) => UpdateMetadata(session, name, peer)
                       case None => Session(kind, name, peer, 0))
  }

  function DeleteSession(c: Client, id: string): Client {
    if id == "" then c
    else
      var removed := c.(store := RemoveSession(c.store, id));
      if c.current.id == id then removed.(current := NO_SESSION) else removed
  }

  /** A synchronized group list; a current group that went stale is left. */
  function Synchronize(c: Client, entries: seq<Entry>): Client {
    var stale := ApplyEntries(c.store, entries).groups.Keys - ActiveIds(entries) - {""};
    var synced := c.(store := ApplyGroupList(c.store, entries));
    var left := if c.current.kind == GroupChat && c.current.id in stale then synced.(current := NO_SESSION) else synced;
    if left.current.kind == GroupChat && left.current.id != ""
    then UpdateCurrentInfo(left, left.current.id, GroupChat, left.current.name) else left
  }

  // ---------------------------------------------------------------- runs

  datatype Event =
    | Received(message: Incoming, msgId: MsgId, inserted: bool)
    | Preview(sessionId: string, displayName: string, kind: Kind)
    | Switched(sessionId: string, reloaded: Option<seq<string>>)
    | Deleted(sessionId: string, order: seq<string>)
    | ChatStarted(user: UserId, nickname: string, sessionId: string, reloaded: Option<seq<string>>, order: seq<string>)
    | FriendReady(friend: UserId, sessionId: string, order: seq<string>, reloaded: Option<seq<string>>)
    | GroupCreated(groupId: string, groupName: string, order: seq<string>)
    | Synced(entries: seq<Entry>, order: seq<string>)
    | Reloaded(order: seq<string>)

  /** What an event does, up to the reload that ends it, if one does. */
  function Before(c: Client, e: Event): Client {
    match e
    case Received(message, msgId, inserted) => OnIncomingMessage(c, message, msgId, inserted)
    case Preview(id, displayName, kind) => c.(list := Upsert(c.list, Item(id, displayName, 0, kind), false))
    case Switched(id, reloaded) => SwitchTo(c, id, DisplayName(c.list, id), reloaded)
    case Deleted(id, _) => DeleteSession(c, id)
    case ChatStarted(user, nickname, id, reloaded, _) => StartPrivateChat(c, user, nickname, id, reloaded)
    case FriendReady(friend, id, _, _) => c.(store := WithMetadata(c.store, id, Private, friend, friend))
    case GroupCreated(id, name, _) =>
      c.(store := WithMetadata(c.store, id, GroupChat, ResolveName(id, name, LoadGroup(c.store, id)), ""))
    case Synced(entries, _) => Synchronize(c, entries)
    case Reloaded(_) => c
  }

  function OrderOf(e: Event): Option<seq<string>> {
    match e
    case Received(_, _, _) => None
    case Preview(_, _, _) => None
    case Switched(_, _) => None
    case Deleted(id, order) => if id == "" then None else Some(order)
    case ChatStarted(_, _, _, _, order) => Some(order)
    case FriendReady(_, _, order, _) => Some(order)
    case GroupCreated(_, _, order) => Some(order)
    case Synced(_, order) => Some(order)
    case Reloaded(order) => Some(order)
  }

  function Act(c: Client, e: Event): Client {
    var before := Before(c, e);
    var loaded := match OrderOf(e) case Some(order) => LoadSessions(before, order) case None => before;
    if e.FriendReady? && loaded.current.id == "" && e.sessionId != ""
    then SwitchTo(loaded, e.sessionId, DisplayName(loaded.list, e.sessionId), e.reloaded) else loaded
  }
}
