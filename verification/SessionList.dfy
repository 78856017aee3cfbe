/** The list model behind the session view. */
module SessionList {
  import opened ClientStore
  import opened UnreadCache

  class SessionListModel {
    var sessions: seq<Item>

    constructor ()
      ensures sessions == []
    {
      sessions := [];
    }

    method Refresh(items: seq<Item>)
      modifies this
      ensures sessions == Refreshed(items)
    {
      var nextSessions := items;
      for i := 0 to |nextSessions|
        invariant |nextSessions| == |items|
        invariant forall k :: 0 <= k < |items| ==> nextSessions[k] == if k < i then Named(items[k]) else items[k]
      {
        if nextSessions[i].displayName == "" {
          nextSessions := nextSessions[i := nextSessions[i].(displayName := nextSessions[i].sessionId)];
        }
      }
      sessions := nextSessions;
    }

    method FindRow(id: string) returns (existingRow: int)
      ensures existingRow == if RowOf(sessions, id) == |sessions| then -1 else RowOf(sessions, id)
    {
      existingRow := -1;
      for i := 0 to |sessions|
        invariant forall k :: 0 <= k < i ==> sessions[k].sessionId != id
      {
        if sessions[i].sessionId == id {
          existingRow := i;
          break;
        }
      }
    }

    method UpsertSession(session: Item, incrementUnread: bool)
      modifies this
      ensures sessions == Upsert(old(sessions), session, incrementUnread)
    {
      if session.sessionId == "" {
        return;
      }
      var item := if session.displayName == "" then session.(displayName := session.sessionId) else session;
      var existingRow := FindRow(item.sessionId);
      if existingRow < 0 {
        if incrementUnread {
          item := item.(unread := 1);
        }
        sessions := [item] + sessions;
        return;
      }
      var existing := item.(sessionId := sessions[existingRow].sessionId, unread := sessions[existingRow].unread);
      if incrementUnread {
        existing := existing.(unread := existing.unread + 1);
      }
      sessions := sessions[existingRow := existing];
      if existingRow != 0 {
        sessions := [sessions[existingRow]] + sessions[..existingRow] + sessions[existingRow + 1..];
      }
    }

    method ClearUnread(sessionId: string)
      modifies this
      ensures sessions == UnreadCache.ClearUnread(old(sessions), sessionId)
    {
      if sessionId == "" {
        return;
      }
      for i := 0 to |sessions|
        invariant sessions == old(sessions)
        invariant forall k :: 0 <= k < i ==> sessions[k].sessionId != sessionId
      {
        if sessions[i].sessionId != sessionId {
          continue;
        }
        assert RowOf(sessions, sessionId) == i;
        if sessions[i].unread <= 0 {
          return;
        }
        sessions := sessions[i := sessions[i].(unread := 0)];
        return;
      }
    }

    method DisplayNameForSession(sessionId: string) returns (name: string)
      ensures name == DisplayName(sessions, sessionId)
    {
      if sessionId == "" {
        return "";
      }
      for i := 0 to |sessions|
        invariant forall k :: 0 <= k < i ==> sessions[k].sessionId != sessionId
      {
        if sessions[i].sessionId == sessionId {
          return sessions[i].displayName;
        }
      }
      name := "";
    }
  }
}
