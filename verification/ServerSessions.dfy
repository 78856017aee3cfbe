/** Connections, users and hand-off on the server, updated in place. */
module ServerSessions {
  import opened Packets
  import opened Wire
  import opened OfflineModel

  class ClientSession {
    const connectionId: ConnId
    var userId: UserId

    constructor (connectionId: ConnId)
      ensures this.connectionId == connectionId && userId == ""
    {
      this.connectionId, this.userId := connectionId, "";
    }

    method MarkAuthenticated(userId: UserId)
      modifies this
      ensures this.userId == userId
    {
      this.userId := userId;
    }
  }

  class SessionManager {
    var connections: map<ConnId, ClientSession>
    var userMap: map<UserId, ConnId>

    /** Each session is registered under its own connection id, so no two entries share one. */
    ghost predicate Valid() reads this, connections.Values {
      forall c :: c in connections ==> connections[c].connectionId == c
    }

    ghost function Users(): map<ConnId, UserId> reads this, connections.Values {
      map c | c in connections :: connections[c].userId
    }

    constructor ()
      ensures Valid() && connections == map[] && userMap == map[]
    {
      connections, userMap := map[], map[];
    }

    method Attach(session: ClientSession)
      requires Valid() && session.userId == ""
      modifies this
      ensures Valid() && userMap == old(userMap)
      ensures Users() == old(Users())[session.connectionId := ""]
    {
      connections := connections[session.connectionId := session];
    }

    /** Returns the user announced as disconnected. */
    method Detach(connectionId: ConnId) returns (userId: UserId)
      requires Valid()
      modifies this
      ensures Valid() && Users() == old(Users()) - {connectionId}
      ensures userId == if connectionId in old(Users()) then old(Users())[connectionId] else ""
      ensures userMap == if userId == "" then old(userMap) else old(userMap) - {userId}
    {
      userId := "";
      if connectionId in connections {
        userId := connections[connectionId].userId;
        if userId != "" {
          userMap := userMap - {userId};
        }
        connections := connections - {connectionId};
      }
    }

    method Authenticate(connectionId: ConnId, userId: UserId) returns (ok: bool)
      requires Valid()
      modifies this, connections.Values
      ensures Valid() && ok == (connectionId in old(connections)) && connections == old(connections)
      ensures Users() == if ok then old(Users())[connectionId := userId] else old(Users())
      ensures userMap == if ok then old(userMap)[userId := connectionId] else old(userMap)
    {
      if connectionId !in connections {
        return false;
      }
      connections[connectionId].MarkAuthenticated(userId);
      userMap := userMap[userId := connectionId];
      ok := true;
    }

    method FindByUserId(userId: UserId) returns (session: ClientSession?)
      ensures session == null <==> OfflineModel.FindByUserId(Main(Users(), userMap, map[], [], []), userId).None?
      ensures session != null ==> session in connections.Values
      ensures session != null && Valid() ==>
                OfflineModel.FindByUserId(Main(Users(), userMap, map[], [], []), userId) == Some(session.connectionId)
    {
      var connectionId := if userId in userMap then userMap[userId] else "";
      if connectionId == "" || connectionId !in connections {
        return null;
      }
      session := connections[connectionId];
    }
  }

  class MessageRouter {
    const sessionManager: SessionManager
    var sent: seq<Handoff>

    ghost function View(): Main reads this, sessionManager, sessionManager.connections.Values {
      Main(sessionManager.Users(), sessionManager.userMap, map[], sent, [])
    }

    constructor (sessionManager: SessionManager)
      ensures this.sessionManager == sessionManager && sent == []
    {
      this.sessionManager, this.sent := sessionManager, [];
    }

    method RouteToUser(userId: UserId, packet: Packet) returns (ok: bool)
      requires sessionManager.Valid()
      modifies this
      ensures ok == Online(old(View()), userId) && View() == Route(old(View()), userId, packet)
    {
      var session := sessionManager.FindByUserId(userId);
      if session == null {
        return false;
      }
      sent := sent + [Handoff(session.connectionId, session.userId, userId, packet)];
      ok := true;
    }

    method RouteToUsers(userIds: seq<UserId>, packet: Packet, excludeUserId: UserId) returns (failedUserIds: seq<UserId>)
      requires sessionManager.Valid()
      modifies this
      ensures View() == RoutedAll(old(View()), userIds, packet, excludeUserId)
      ensures failedUserIds == Unreached(old(View()), userIds, excludeUserId)
    {
      failedUserIds := [];
      for i := 0 to |userIds|
        invariant View() == RoutedAll(old(View()), userIds[..i], packet, excludeUserId)
        invariant failedUserIds == Unreached(old(View()), userIds[..i], excludeUserId)
      {
        assert userIds[..i + 1][..i] == userIds[..i];
        RoutingKeepsSessions(old(View()), userIds[..i], packet, excludeUserId);
        var userId := userIds[i];
        if excludeUserId != "" && userId == excludeUserId {
          continue;
        }
        var ok := RouteToUser(userId, packet);
        if !ok {
          failedUserIds := failedUserIds + [userId];
        }
      }
      assert userIds[..|userIds|] == userIds;
    }
  }

  // ---------------------------------------------------------------- routing to many

  function RoutedAll(m: Main, users: seq<UserId>, packet: Packet, exclude: UserId): Main {
    if users == [] then m
    else
      var before, user := RoutedAll(m, users[..|users| - 1], packet, exclude), users[|users| - 1];
      if exclude != "" && user == exclude then before else Route(before, user, packet)
  }

  function Unreached(m: Main, users: seq<UserId>, exclude: UserId): seq<UserId> {
    if users == [] then []
    else
      var front, user := Unreached(m, users[..|users| - 1], exclude), users[|users| - 1];
      if (exclude != "" && user == exclude) || Online(m, user) then front else front + [user]
  }

  lemma {:induction false} RoutingKeepsSessions(m: Main, users: seq<UserId>, packet: Packet, exclude: UserId)
    ensures var n := RoutedAll(m, users, packet, exclude);
            n.connections == m.connections && n.userMap == m.userMap && forall u :: FindByUserId(n, u) == FindByUserId(m, u)
  {
    if users != [] { RoutingKeepsSessions(m, users[..|users| - 1], packet, exclude); }
  }

  function Times(users: seq<UserId>, u: UserId): nat {
    if users == [] then 0 else Times(users[..|users| - 1], u) + if users[|users| - 1] == u then 1 else 0
  }

  function HandedTo(sent: seq<Handoff>, u: UserId): nat {
    if sent == [] then 0 else HandedTo(sent[..|sent| - 1], u) + if sent[|sent| - 1].user == u then 1 else 0
  }

  lemma RouteCounts(m: Main, user: UserId, packet: Packet, u: UserId)
    ensures HandedTo(Route(m, user, packet).sent, u) == HandedTo(m.sent, u) + if Online(m, user) && user == u then 1 else 0
  {
    hide FindByUserId;
    if Online(m, user) {
      var h := Handoff(FindByUserId(m, user).value, m.connections[FindByUserId(m, user).value], user, packet);
      assert (m.sent + [h])[..|m.sent|] == m.sent;
    }
  }

  /** Each listed user who is not excluded is, once per listing, either handed the packet or reported unreached. */
  lemma {:induction false} RoutedOrUnreached(m: Main, users: seq<UserId>, packet: Packet, exclude: UserId, u: UserId)
    ensures HandedTo(RoutedAll(m, users, packet, exclude).sent, u) - HandedTo(m.sent, u) + Times(Unreached(m, users, exclude), u)
            == if exclude != "" && u == exclude then 0 else Times(users, u)
    ensures !Online(m, u) ==> HandedTo(RoutedAll(m, users, packet, exclude).sent, u) == HandedTo(m.sent, u)
    ensures Online(m, u) ==> Times(Unreached(m, users, exclude), u) == 0
  {
    if users != [] {
      var n := |users| - 1;
      RoutedOrUnreached(m, users[..n], packet, exclude, u);
      RoutingKeepsSessions(m, users[..n], packet, exclude);
      var before := RoutedAll(m, users[..n], packet, exclude);
      RouteCounts(before, users[n], packet, u);
      hide Route, FindByUserId;
      var front := Unreached(m, users[..n], exclude);
      assert (front + [users[n]])[..|front|] == front;
    }
  }
}
