/** What a received group list makes of the stored groups and their sessions, entry by entry. */
module SyncedGroups {
  import opened Wire
  import opened Text
  import opened ClientStore
  import opened GroupSync

  /** The entry lists the user: an entry without users lists its creator. */
  ghost predicate Lists(e: Entry, user: UserId) {
    if e.memberUserIds == [] then Trim(e.creatorUserId) == user else exists i :: 0 <= i < |e.memberUserIds| && Trim(e.memberUserIds[i]) == user
  }

  /** The group has the entry's name and creator, and as members exactly the listed users, the creator in that role. */
  ghost predicate Describes(e: Entry, g: Group) {
    && g.name == e.groupName && g.creator == e.creatorUserId
    && forall m :: m in g.members <==> m.user != "" && Lists(e, m.user) && (m.role == Creator <==> m.user == e.creatorUserId)
  }

  /** No two of the listed ids are the same user. */
  predicate NamesNobodyTwice(ids: seq<string>) {
    forall i, j :: 0 <= i < j < |ids| && Trim(ids[i]) != "" ==> Trim(ids[i]) != Trim(ids[j])
  }

  lemma EntryDescribes(e: Entry)
    ensures Describes(e, FromEntry(e))
  {
    forall m ensures m in FromEntry(e).members <==> m.user != "" && Lists(e, m.user) && (m.role == Creator <==> m.user == e.creatorUserId) {
      MembersExact(MemberIds(e), e.creatorUserId, m);
    }
  }

  lemma {:induction false} SavableIff(ids: seq<string>, creator: UserId)
    ensures DistinctUsers(Members(ids, creator)) <==> NamesNobodyTwice(ids)
  {
    hide Trim;
    if ids != [] {
      var n := |ids| - 1;
      var front, last := Members(ids[..n], creator), Trim(ids[n]);
      SavableIff(ids[..n], creator);
      NobodyTwiceSnoc(ids);
      if last != "" {
        RowOfUser(ids[..n], creator, last);
        DistinctSnoc(front, GroupMember(last, RoleOf(last, creator)));
      }
    }
  }

  lemma NobodyTwiceSnoc(ids: seq<string>)
    requires ids != []
    ensures var n := |ids| - 1;
            NamesNobodyTwice(ids) <==>
            NamesNobodyTwice(ids[..n]) && (Trim(ids[n]) == "" || forall i :: 0 <= i < n ==> Trim(ids[..n][i]) != Trim(ids[n]))
  {
    hide Trim;
    var n := |ids| - 1;
    assert forall i :: 0 <= i < n ==> ids[..n][i] == ids[i];
  }

  lemma DistinctSnoc(front: seq<GroupMember>, row: GroupMember)
    ensures DistinctUsers(front + [row]) <==> DistinctUsers(front) && forall k :: 0 <= k < |front| ==> front[k].user != row.user
  {
    var rows := front + [row];
    assert forall k :: 0 <= k < |front| ==> rows[k] == front[k];
    assert rows[|front|] == row;
  }

  lemma RowOfUser(ids: seq<string>, creator: UserId, user: UserId)
    requires user != ""
    ensures (exists k :: 0 <= k < |Members(ids, creator)| && Members(ids, creator)[k].user == user) <==>
            exists i :: 0 <= i < |ids| && Trim(ids[i]) == user
  {
    hide Trim, Members;
    var rows, row := Members(ids, creator), GroupMember(user, RoleOf(user, creator));
    MembersExact(ids, creator, row);
    if k :| 0 <= k < |rows| && rows[k].user == user { MembersExact(ids, creator, rows[k]); }
  }

  /** Entry `k` is the last one for its group. */
  predicate LastFor(entries: seq<Entry>, k: nat) {
    k < |entries| && forall j :: k < j < |entries| ==> entries[j].groupId != entries[k].groupId
  }

  lemma {:induction false} LastIsNamed(entries: seq<Entry>, k: nat)
    requires LastFor(entries, k)
    ensures LastNamed(entries, entries[k].groupId) == Some(entries[k])
  {
    if k < |entries| - 1 { LastIsNamed(entries[..|entries| - 1], k); }
  }

  /** A listed group is stored as its last entry describes it, if that entry names nobody twice; its session exists,
      goes by the name of the entry or else of the stored group, and keeps its kind, peer and counter. */
  lemma ListedGroup(s: Store, entries: seq<Entry>, k: nat)
    requires NoEmptyIds(s) && LastFor(entries, k) && entries[k].groupId != ""
    ensures var t, id := ApplyGroupList(s, entries), entries[k].groupId;
            && (NamesNobodyTwice(entries[k].memberUserIds) ==> LoadGroup(t, id).Some? && Describes(entries[k], LoadGroup(t, id).value))
            && LoadSession(t, id).Some?
            && IsTitle(LoadSession(t, id).value.name, id, entries[k].groupName, GroupNameOf(LoadGroup(t, id)))
            && LoadSession(t, id).value.(name := "") == match LoadSession(s, id)
                                                         case Some(session) => session.(name := "")
                                                         case None => Session(GroupChat, "", "", 0)
  {
    var id, e := entries[k].groupId, entries[k];
    assert e in entries && id in ActiveIds(entries);
    LastIsNamed(entries, k);
    SyncOne(s, entries, id);
    hide ApplyGroupList, LastNamed, LastSavable, Trim;
    Resolved(id, e.groupName, LoadGroup(ApplyGroupList(s, entries), id));
    if NamesNobodyTwice(e.memberUserIds) {
      if e.memberUserIds != [] { SavableIff(e.memberUserIds, e.creatorUserId); }
      SavableIff(MemberIds(e), e.creatorUserId);
      LastSavableIff(entries, id);
      EntryDescribes(e);
    }
    hide ResolveName, FromEntry, Describes, NamesNobodyTwice, IsTitle;
  }

  function GroupNameOf(group: Option<Group>): string {
    if group.Some? then group.value.name else ""
  }

  lemma Resolved(id: string, fallback: string, stored: Option<Group>)
    ensures if id == "" then ResolveName(id, fallback, stored) == Trim(fallback)
            else IsTitle(ResolveName(id, fallback, stored), id, fallback, GroupNameOf(stored))
  {
    assert Trim("") == "";
  }

  /** A stored group that the list does not name goes with its session and messages; everything else stays. */
  lemma UnlistedGroup(s: Store, entries: seq<Entry>, id: string)
    requires NoEmptyIds(s) && forall e :: e in entries ==> e.groupId != id
    ensures var t := ApplyGroupList(s, entries);
            && LoadGroup(t, id).None?
            && LoadSession(t, id) == (if id in s.groups then None else LoadSession(s, id))
            && (forall m :: m in s.messages && s.messages[m] == id && id != "" ==> (m in t.messages <==> id !in s.groups))
            && (forall m :: m in s.messages && m in t.messages ==> t.messages[m] == s.messages[m])
  {
    SyncPerGroup(s, entries);
    SyncOne(s, entries, id);
    hide ApplyGroupList;
  }
}
