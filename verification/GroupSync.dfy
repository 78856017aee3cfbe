/** Bringing the local groups in line with the list the server sent. */
module GroupSync {
  import opened Wire
  import opened Text
  import opened ClientStore

  /** One entry of the server's group list. */
  datatype Entry = Entry(groupId: string, groupName: string, creatorUserId: UserId, memberUserIds: seq<string>)

  function RoleOf(user: UserId, creator: UserId): Role { if user == creator then Creator else Member }

  /** The members of an entry: trimmed, without empty ones. */
  function Members(ids: seq<string>, creator: UserId): seq<GroupMember> {
    if ids == [] then []
    else
      var front, user := Members(ids[..|ids| - 1], creator), Trim(ids[|ids| - 1]);
      if user == "" then front else front + [GroupMember(user, RoleOf(user, creator))]
  }

  /** An entry that lists nobody still has its creator. */
  function MemberIds(e: Entry): seq<string> {
    if e.memberUserIds == [] && e.creatorUserId != "" then [e.creatorUserId] else e.memberUserIds
  }

  function FromEntry(e: Entry): Group {
    Group(e.groupName, e.creatorUserId, Members(MemberIds(e), e.creatorUserId))
  }

  /** The session of a group: an existing one keeps everything but its name. */
  function SessionFor(prior: Option<Session>, name: string): Session {
    match prior
    case Some(session) => UpdateMetadata(session, name, "")
    case None => Session(GroupChat, name, "", 0)
  }

  function ApplyEntry(s: Store, e: Entry): Store {
    if e.groupId == "" then s
    else
      var saved := SaveGroup(s, e.groupId, FromEntry(e));
      var name := ResolveName(e.groupId, e.groupName, LoadGroup(saved, e.groupId));
      SaveSession(saved, e.groupId, SessionFor(LoadSession(saved, e.groupId), name))
  }

  function ApplyEntries(s: Store, entries: seq<Entry>): Store {
    if entries == [] then s else ApplyEntry(ApplyEntries(s, entries[..|entries| - 1]), entries[|entries| - 1])
  }

  function ActiveIds(entries: seq<Entry>): set<string> {
    set e | e in entries && e.groupId != "" :: e.groupId
  }

  /** Groups that are stored but not in the list go, with their sessions and messages. */
  function DropAll(s: Store, stale: set<string>): Store {
    s.(sessions := s.sessions - stale, groups := s.groups - stale,
       messages := map m | m in s.messages && s.messages[m] !in stale :: s.messages[m],
       pendingAcks := set m | m in s.pendingAcks && !(m in s.messages && s.messages[m] in stale))
  }

  function ApplyGroupList(s: Store, entries: seq<Entry>): Store {
    var applied := ApplyEntries(s, entries);
    DropAll(applied, applied.groups.Keys - ActiveIds(entries) - {""})
  }

  // ---------------------------------------------------------------- what one group becomes

  /** The last entry for a group that can be saved, if any. */
  function LastSavable(entries: seq<Entry>, id: string): Option<Entry> {
    if entries == [] then None
    else
      var e := entries[|entries| - 1];
      if e.groupId == id && DistinctUsers(FromEntry(e).members) then Some(e) else LastSavable(entries[..|entries| - 1], id)
  }

  function LastNamed(entries: seq<Entry>, id: string): Option<Entry> {
    if entries == [] then None
    else
      var e := entries[|entries| - 1];
      if e.groupId == id then Some(e) else LastNamed(entries[..|entries| - 1], id)
  }

  function GroupAfter(prior: Option<Group>, entries: seq<Entry>, id: string): Option<Group> {
    match LastSavable(entries, id)
    case Some(e) => Some(FromEntry(e))
    case None => prior
  }

  function SessionAfter(prior: Option<Session>, group: Option<Group>, entries: seq<Entry>, id: string): Option<Session> {
    match LastNamed(entries, id)
    case Some(e) => Some(SessionFor(prior, ResolveName(id, e.groupName, group)))
    case None => prior
  }

  /** Entries change only the groups they name, each to its last savable form, and its session's name with it. */
  lemma {:induction false} EntriesPerGroup(s: Store, entries: seq<Entry>, id: string)
    requires id != ""
    ensures var t := ApplyEntries(s, entries);
            && LoadGroup(t, id) == GroupAfter(LoadGroup(s, id), entries, id)
            && LoadSession(t, id) == SessionAfter(LoadSession(s, id), LoadGroup(t, id), entries, id)
            && t.messages == s.messages && t.pendingAcks == s.pendingAcks && t.nicknames == s.nicknames
  {
    hide ResolveName, FromEntry;
    if entries != [] {
      EntriesPerGroup(s, entries[..|entries| - 1], id);
    }
  }

  lemma {:induction false} NamedMeansActive(entries: seq<Entry>, id: string)
    requires id != ""
    ensures LastNamed(entries, id).Some? <==> id in ActiveIds(entries)
    ensures LastSavable(entries, id).Some? ==> id in ActiveIds(entries)
  {
    hide FromEntry;
    if entries != [] {
      var n := |entries| - 1;
      NamedMeansActive(entries[..n], id);
      assert entries == entries[..n] + [entries[n]];
      assert ActiveIds(entries) == ActiveIds(entries[..n]) + (if entries[n].groupId != "" then {entries[n].groupId} else {});
    }
  }

  /** The members of a received group are the trimmed, non-empty listed users; the creator alone has that role. */
  lemma {:induction false} MembersExact(ids: seq<string>, creator: UserId, m: GroupMember)
    ensures m in Members(ids, creator) <==>
            m.user != "" && (m.role == Creator <==> m.user == creator) && exists i :: 0 <= i < |ids| && Trim(ids[i]) == m.user
  {
    hide Trim;
    if ids != [] {
      var n := |ids| - 1;
      MembersExact(ids[..n], creator, m);
      if exists i :: 0 <= i < |ids| && Trim(ids[i]) == m.user {
        var i :| 0 <= i < |ids| && Trim(ids[i]) == m.user;
        if i < n { assert ids[..n][i] == ids[i]; }
      }
    }
  }

  /** The repositories refuse empty ids, so no stored group or session has one. */
  predicate NoEmptyIds(s: Store) {
    "" !in s.groups && "" !in s.sessions
  }

  /** What the list makes of one group and its session. */
  ghost predicate SyncedTo(s: Store, t: Store, entries: seq<Entry>, id: string) {
    if id in ActiveIds(entries) then
      && LoadGroup(t, id) == GroupAfter(LoadGroup(s, id), entries, id)
      && LoadSession(t, id).Some?
      && LoadSession(t, id) == SessionAfter(LoadSession(s, id), LoadGroup(t, id), entries, id)
    else
      LoadGroup(t, id).None? && LoadSession(t, id) == if id in s.groups then None else LoadSession(s, id)
  }

  lemma StaleIds(s: Store, entries: seq<Entry>)
    requires NoEmptyIds(s)
    ensures ApplyEntries(s, entries).groups.Keys - ActiveIds(entries) - {""} == s.groups.Keys - ActiveIds(entries)
    ensures NoEmptyIds(ApplyEntries(s, entries))
  {
    var applied := ApplyEntries(s, entries);
    EntriesKeepNonEmpty(s, entries);
    forall id: string | id !in ActiveIds(entries) ensures id in applied.groups <==> id in s.groups {
      if id != "" {
        EntriesPerGroup(s, entries, id);
        NamedMeansActive(entries, id);
        assert LoadGroup(applied, id) == LoadGroup(s, id);
      }
    }
  }

  lemma SyncOne(s: Store, entries: seq<Entry>, id: string)
    requires NoEmptyIds(s)
    ensures SyncedTo(s, ApplyGroupList(s, entries), entries, id)
  {
    var applied := ApplyEntries(s, entries);
    StaleIds(s, entries);
    if id != "" {
      EntriesPerGroup(s, entries, id);
      NamedMeansActive(entries, id);
      hide ApplyEntries, LastNamed, LastSavable, ResolveName, FromEntry, ActiveIds;
      assert id in applied.groups && id !in ActiveIds(entries) ==> LoadGroup(applied, id) == LoadGroup(s, id);
    }
  }

  /** What becomes of each group and session under the list, and of the messages. */
  lemma SyncPerGroup(s: Store, entries: seq<Entry>)
    requires NoEmptyIds(s)
    ensures var t := ApplyGroupList(s, entries);
            var stale := s.groups.Keys - ActiveIds(entries);
            && NoEmptyIds(t)
            && (forall id :: SyncedTo(s, t, entries, id))
            && t.messages == (map m | m in s.messages && s.messages[m] !in stale :: s.messages[m])
            && t.pendingAcks == (set m | m in s.pendingAcks && !(m in s.messages && s.messages[m] in stale))
            && t.nicknames == s.nicknames
  {
    forall id ensures SyncedTo(s, ApplyGroupList(s, entries), entries, id) { SyncOne(s, entries, id); }
    StaleIds(s, entries);
    EntriesPerGroup(s, entries, "x");
    hide SyncedTo, ApplyEntries;
  }

  lemma {:induction false} EntriesKeepNonEmpty(s: Store, entries: seq<Entry>)
    requires NoEmptyIds(s)
    ensures NoEmptyIds(ApplyEntries(s, entries))
  {
    hide ResolveName, FromEntry, SessionFor;
    if entries != [] { EntriesKeepNonEmpty(s, entries[..|entries| - 1]); }
  }

  /** Synchronizing converges: when no entry lists a member twice, the stored groups are exactly the received
      ones, each as its last entry describes it and each with a session. */
  lemma SyncConverges(s: Store, entries: seq<Entry>)
    requires NoEmptyIds(s)
    requires forall e :: e in entries ==> DistinctUsers(FromEntry(e).members)
    ensures var t := ApplyGroupList(s, entries);
            && t.groups.Keys == ActiveIds(entries)
            && (forall id | id in ActiveIds(entries) ::
                  LastNamed(entries, id).Some? && t.groups[id] == FromEntry(LastNamed(entries, id).value) && id in t.sessions)
  {
    SyncPerGroup(s, entries);
    forall id | id in ActiveIds(entries) ensures LastNamed(entries, id).Some? && LastSavable(entries, id) == LastNamed(entries, id) {
      NamedMeansActive(entries, id);
      SavableIsNamed(entries, id);
    }
    var t := ApplyGroupList(s, entries);
    hide ApplyGroupList, LastNamed, LastSavable, FromEntry;
    forall id ensures id in t.groups <==> id in ActiveIds(entries) {
      assert SyncedTo(s, t, entries, id);
    }
    forall id | id in ActiveIds(entries) ensures t.groups[id] == FromEntry(LastNamed(entries, id).value) && id in t.sessions {
      assert SyncedTo(s, t, entries, id);
    }
  }

  lemma {:induction false} SavableIsNamed(entries: seq<Entry>, id: string)
    requires forall e :: e in entries ==> DistinctUsers(FromEntry(e).members)
    ensures LastSavable(entries, id) == LastNamed(entries, id)
  {
    hide FromEntry;
    if entries != [] {
      assert entries[|entries| - 1] in entries;
      SavableIsNamed(entries[..|entries| - 1], id);
    }
  }

  lemma {:induction false} LastSavableIff(entries: seq<Entry>, id: string)
    requires LastNamed(entries, id).Some?
    ensures var e := LastNamed(entries, id).value;
            if DistinctUsers(FromEntry(e).members) then LastSavable(entries, id) == Some(e)
            else LastSavable(entries, id).None? || DistinctUsers(FromEntry(LastSavable(entries, id).value).members)
  {
    hide FromEntry, DistinctUsers;
    if entries[|entries| - 1].groupId != id {
      LastSavableIff(entries[..|entries| - 1], id);
    } else {
      LastSavableIsSavable(entries, id);
    }
  }

  lemma {:induction false} LastSavableIsSavable(entries: seq<Entry>, id: string)
    ensures LastSavable(entries, id).Some? ==> DistinctUsers(FromEntry(LastSavable(entries, id).value).members)
  {
    hide FromEntry, DistinctUsers;
    if entries != [] { LastSavableIsSavable(entries[..|entries| - 1], id); }
  }

  /** A listed group arrives as its last entry describes it exactly when that entry names nobody twice, or when no
      entry for it can be saved and the store held that very group already. */
  lemma SavedIff(s: Store, entries: seq<Entry>, id: string)
    requires NoEmptyIds(s) && id in ActiveIds(entries)
    ensures LastNamed(entries, id).Some?
    ensures var described := FromEntry(LastNamed(entries, id).value);
            LoadGroup(ApplyGroupList(s, entries), id) == Some(described) <==>
            DistinctUsers(described.members) || (LastSavable(entries, id).None? && LoadGroup(s, id) == Some(described))
  {
    hide FromEntry, ApplyGroupList, LastNamed, LastSavable, DistinctUsers;
    NamedMeansActive(entries, id);
    LastSavableIff(entries, id);
    SyncOne(s, entries, id);
  }

  /** An entry that names a user twice brings the session of its group, but not the group. */
  lemma RepeatedMemberIsNotSaved(s: Store, id: string, name: string, creator: UserId, user: UserId)
    requires NoEmptyIds(s) && id != "" && id !in s.groups && user != "" && Trim(user) == user
    ensures var t := ApplyGroupList(s, [Entry(id, name, creator, [user, user])]);
            LoadGroup(t, id).None? && LoadSession(t, id).Some?
  {
    var e := Entry(id, name, creator, [user, user]);
    assert [user, user][..1] == [user] && [user][..0] == [];
    var row := GroupMember(user, RoleOf(user, creator));
    assert Members([user], creator) == [row];
    assert Members([user, user], creator) == [row, row];
    assert [row, row][0].user == [row, row][1].user;
    assert !DistinctUsers(FromEntry(e).members);
    hide FromEntry, ApplyGroupList, DistinctUsers, Trim, ResolveName;
    assert [e][..0] == [];
    assert e in [e];
    assert e.groupId in ActiveIds([e]);
    assert LastSavable([e], id).None?;
    SyncOne(s, [e], id);
  }

  /** Applying the same list again changes nothing, whatever the store and the list. */
  lemma SyncTwice(s: Store, entries: seq<Entry>)
    requires NoEmptyIds(s)
    ensures ApplyGroupList(ApplyGroupList(s, entries), entries) == ApplyGroupList(s, entries)
  {
    var t := ApplyGroupList(s, entries);
    var u := ApplyGroupList(t, entries);
    SyncPerGroup(s, entries);
    SyncPerGroup(t, entries);
    hide ApplyGroupList, ResolveName, LastNamed, LastSavable, FromEntry;
    forall id ensures LoadGroup(u, id) == LoadGroup(t, id) && LoadSession(u, id) == LoadSession(t, id) {
      assert SyncedTo(s, t, entries, id) && SyncedTo(t, u, entries, id);
    }
    forall id | id in t.groups ensures id in ActiveIds(entries) { assert SyncedTo(s, t, entries, id); }
    assert t.groups.Keys - ActiveIds(entries) == {};
    SameByLookup(t, u);
    assert u.messages == t.messages;
    assert u.pendingAcks == t.pendingAcks;
  }

  lemma SameByLookup(t: Store, u: Store)
    requires NoEmptyIds(t) && NoEmptyIds(u)
    requires forall id :: LoadGroup(u, id) == LoadGroup(t, id) && LoadSession(u, id) == LoadSession(t, id)
    ensures u.groups == t.groups && u.sessions == t.sessions
  {
    forall id ensures (id in u.groups <==> id in t.groups) && (id in u.groups ==> u.groups[id] == t.groups[id]) {
      assert LoadGroup(u, id) == LoadGroup(t, id);
    }
    forall id ensures (id in u.sessions <==> id in t.sessions) && (id in u.sessions ==> u.sessions[id] == t.sessions[id]) {
      assert LoadSession(u, id) == LoadSession(t, id);
    }
  }
}
