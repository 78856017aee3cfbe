/** The client's local tables, and what its repositories do to them. */
module ClientStore {
  import opened Wire
  import opened Text

  datatype Kind = Private | GroupChat

  /** A row of the client's table sessions. */
  datatype Session = Session(kind: Kind, name: string, peer: UserId, unread: nat)

  datatype Role = Creator | Member

  datatype GroupMember = GroupMember(user: UserId, role: Role)

  datatype Group = Group(name: string, creator: UserId, members: seq<GroupMember>)

  /** `messages` maps the id of each stored message to its session, `nicknames` is the table users. */
  datatype Store = Store(sessions: map<string, Session>, groups: map<string, Group>,
                         messages: map<MsgId, string>, pendingAcks: set<MsgId>, nicknames: map<UserId, string>)

  /** An empty nickname does not replace a known one. */
  function UpsertUser(s: Store, user: UserId, nickname: string): Store {
    if Trim(user) == "" then s
    else
      var known := if Trim(user) in s.nicknames then s.nicknames[Trim(user)] else "";
      s.(nicknames := s.nicknames[Trim(user) := if Trim(nickname) == "" then known else Trim(nickname)])
  }

  /** Upserts a session; an empty peer does not replace a known one. */
  function SaveSession(s: Store, id: string, session: Session): Store {
    if id == "" then s
    else
      var peer := if session.peer == "" && id in s.sessions then s.sessions[id].peer else session.peer;
      s.(sessions := s.sessions[id := session.(peer := peer)])
  }

  /** Removes a session with its messages and their pending acks. */
  function RemoveSession(s: Store, id: string): Store {
    if id == "" then s
    else
      s.(sessions := s.sessions - {id},
         messages := map m | m in s.messages && s.messages[m] != id :: s.messages[m],
         pendingAcks := set m | m in s.pendingAcks && !(m in s.messages && s.messages[m] == id))
  }

  predicate DistinctUsers(members: seq<GroupMember>) {
    forall i, j :: 0 <= i < j < |members| ==> members[i].user != members[j].user
  }

  /** Replaces a group and its member rows; a user listed twice breaks the primary key and undoes the whole save. */
  function SaveGroup(s: Store, id: string, group: Group): Store {
    if id == "" || !DistinctUsers(group.members) then s else s.(groups := s.groups[id := group])
  }

  function RemoveGroup(s: Store, id: string): Store {
    if id == "" then s else s.(groups := s.groups - {id})
  }

  /** A session whose display name (and, unless empty, peer) is set. */
  function UpdateMetadata(session: Session, name: string, peer: UserId): Session {
    session.(name := name, peer := if peer == "" then session.peer else peer)
  }

  function ResolveName(id: string, fallback: string, stored: Option<Group>): string {
    var trimmed := Trim(fallback);
    if id == "" then trimmed
    else if trimmed != "" && trimmed != id then trimmed
    else if stored.Some? && Trim(stored.value.name) != "" && Trim(stored.value.name) != id then Trim(stored.value.name)
    else if trimmed != "" then trimmed
    else id
  }

  /** The first of the names that is neither empty nor the id, or else the id. */
  predicate IsTitle(title: string, id: string, first: string, second: string) {
    if Trim(first) != "" && Trim(first) != id then title == Trim(first)
    else if Trim(second) != "" && Trim(second) != id then title == Trim(second)
    else title == id
  }

  function LoadGroup(s: Store, id: string): Option<Group> {
    if id != "" && id in s.groups then Some(s.groups[id]) else None
  }

  function LoadSession(s: Store, id: string): Option<Session> {
    if id != "" && id in s.sessions then Some(s.sessions[id]) else None
  }
}
