/** Friend requests and friendships on the server. */
module Friends {
  import opened Wire
  import opened Text
  import opened Query

  datatype Status = Pending | Accepted | Rejected

  datatype Request = Request(from: UserId, to: UserId, status: Status, message: string, createdAt: string, handledAt: Option<string>)

  /** A row of the table friendships. */
  datatype Edge = Edge(low: UserId, high: UserId, createdAt: string)

  datatype Tables = Tables(users: set<UserId>, requests: map<string, Request>, friendships: seq<Edge>)

  datatype CreateResult = CreateResult(requestId: string, status: string, createdAt: string, success: bool, errorCode: int)

  datatype DecideResult = DecideResult(from: UserId, to: UserId, status: string, handledAt: string, success: bool, errorCode: int)

  function Low(a: UserId, b: UserId): UserId { if Less(a, b) then a else b }

  function High(a: UserId, b: UserId): UserId { if Less(a, b) then b else a }

  predicate HasEdge(friendships: seq<Edge>, a: UserId, b: UserId) {
    exists i :: 0 <= i < |friendships| && friendships[i].low == Low(a, b) && friendships[i].high == High(a, b)
  }

  predicate SamePair(r: Request, a: UserId, b: UserId) {
    (r.from == a && r.to == b) || (r.from == b && r.to == a)
  }

  predicate HasPending(requests: map<string, Request>, a: UserId, b: UserId) {
    exists id :: id in requests && requests[id].status == Pending && SamePair(requests[id], a, b)
  }

  function StatusText(status: Status): string {
    match status
    case Pending => "pending"
    case Accepted => "accepted"
    case Rejected => "rejected"
  }

  function Refused(code: int): CreateResult {
    CreateResult("", "", "", false, code)
  }

  // ---------------------------------------------------------------- what the calls compute

  function Create(t: Tables, from: UserId, to: UserId, message: string, requestId: string, now: string): (Tables, CreateResult) {
    if from == "" || to == "" then (t, Refused(400))
    else if from == to then (t, Refused(400))
    else if to !in t.users then (t, Refused(404))
    else if HasEdge(t.friendships, from, to) then (t, Refused(409))
    else if HasPending(t.requests, from, to) then (t, CreateResult("", "pending", "", false, 409))
    else if requestId in t.requests then (t, Refused(500))
    else (t.(requests := t.requests[requestId := Request(from, to, Pending, message, now, None)]),
          CreateResult(requestId, "pending", now, true, 0))
  }

  /** INSERT OR IGNORE on the primary key (user_low, user_high). */
  function InsertOrIgnore(friendships: seq<Edge>, e: Edge): seq<Edge> {
    if exists i :: 0 <= i < |friendships| && friendships[i].low == e.low && friendships[i].high == e.high then friendships
    else friendships + [e]
  }

  function Decide(t: Tables, requestId: string, operator: UserId, accept: bool, now: string): (Tables, DecideResult) {
    if requestId == "" || operator == "" then (t, DecideResult("", "", "", "", false, 400))
    else if requestId !in t.requests then (t, DecideResult("", "", "", "", false, 404))
    else
      var r := t.requests[requestId];
      if operator != r.to then (t, DecideResult(r.from, r.to, StatusText(r.status), "", false, 403))
      else if r.status != Pending then (t, DecideResult(r.from, r.to, StatusText(r.status), "", false, 409))
      else if !accept then
        (t.(requests := t.requests[requestId := r.(status := Rejected, handledAt := Some(now))]),
         DecideResult(r.from, r.to, "rejected", now, true, 0))
      else
        (t.(requests := t.requests[requestId := r.(status := Accepted, handledAt := Some(now))],
            friendships := InsertOrIgnore(t.friendships, Edge(Low(r.from, r.to), High(r.from, r.to), now))),
         DecideResult(r.from, r.to, "accepted", now, true, 0))
  }

  function Newest(): (Edge, Edge) -> bool {
    (a: Edge, b: Edge) => !Less(a.createdAt, b.createdAt)
  }

  function Touches(user: UserId): Edge -> bool {
    (e: Edge) => e.low == user || e.high == user
  }

  function OtherEnd(user: UserId, e: Edge): UserId {
    if e.low == user then e.high else e.low
  }

  function OtherEnds(user: UserId, edges: seq<Edge>): (friends: seq<UserId>)
    ensures |friends| == |edges| && forall i :: 0 <= i < |edges| ==> friends[i] == OtherEnd(user, edges[i])
  {
    seq(|edges|, i requires 0 <= i < |edges| => OtherEnd(user, edges[i]))
  }

  /** The friend list, newest friendship first. */
  function FriendsOf(friendships: seq<Edge>, user: UserId): seq<UserId> {
    OtherEnds(user, OrderBy(Where(friendships, Touches(user)), Newest()))
  }

  // ---------------------------------------------------------------- the repository

  class FriendRepository {
    var users: set<UserId>
    var requests: map<string, Request>
    var friendships: seq<Edge>

    ghost function View(): Tables reads this { Tables(users, requests, friendships) }

    method CreateFriendRequest(from: UserId, to: UserId, message: string, requestId: string, now: string) returns (result: CreateResult)
      modifies this`requests
      ensures (View(), result) == Create(old(View()), from, to, message, requestId, now)
    {
      if from == "" || to == "" {
        return Refused(400);
      }
      if from == to {
        return Refused(400);
      }
      if to !in users {
        return Refused(404);
      }
      var userLow, userHigh := Low(from, to), High(from, to);
      var friends := CountFriendships(userLow, userHigh);
      if friends > 0 {
        return Refused(409);
      }
      if exists id :: id in requests && requests[id].status == Pending && SamePair(requests[id], from, to) {
        return CreateResult("", "pending", "", false, 409);
      }
      if requestId in requests { // the primary key refuses the INSERT
        return Refused(500);
      }
      requests := requests[requestId := Request(from, to, Pending, message, now, None)];
      result := CreateResult(requestId, "pending", now, true, 0);
    }

    method CountFriendships(userLow: UserId, userHigh: UserId) returns (count: nat)
      ensures count > 0 <==> exists i :: 0 <= i < |friendships| && friendships[i].low == userLow && friendships[i].high == userHigh
    {
      count := 0;
      for i := 0 to |friendships|
        invariant count > 0 <==> exists k :: 0 <= k < i && friendships[k].low == userLow && friendships[k].high == userHigh
      {
        if friendships[i].low == userLow && friendships[i].high == userHigh {
          count := count + 1;
        }
      }
    }

    method DecideFriendRequest(requestId: string, operator: UserId, accept: bool, now: string) returns (result: DecideResult)
      modifies this`requests, this`friendships
      ensures (View(), result) == Decide(old(View()), requestId, operator, accept, now)
    {
      if requestId == "" || operator == "" {
        return DecideResult("", "", "", "", false, 400);
      }
      if requestId !in requests {
        return DecideResult("", "", "", "", false, 404);
      }
      var r := requests[requestId];
      if operator != r.to {
        return DecideResult(r.from, r.to, StatusText(r.status), "", false, 403);
      }
      if r.status != Pending {
        return DecideResult(r.from, r.to, StatusText(r.status), "", false, 409);
      }
      if !accept {
        requests := requests[requestId := r.(status := Rejected, handledAt := Some(now))];
        return DecideResult(r.from, r.to, "rejected", now, true, 0);
      }
      requests := requests[requestId := r.(status := Accepted, handledAt := Some(now))];
      var userLow, userHigh := Low(r.from, r.to), High(r.from, r.to);
      var present := CountFriendships(userLow, userHigh);
      if present == 0 {
        friendships := friendships + [Edge(userLow, userHigh, now)];
      }
      result := DecideResult(r.from, r.to, "accepted", now, true, 0);
    }

    method LoadFriendList(userId: UserId) returns (friendUserIds: seq<UserId>)
      ensures friendUserIds == FriendsOf(friendships, userId)
    {
      var cursor := OrderBy(Where(friendships, Touches(userId)), Newest());
      friendUserIds := [];
      for i := 0 to |cursor|
        invariant friendUserIds == OtherEnds(userId, cursor[..i])
      {
        friendUserIds := friendUserIds + [if cursor[i].low == userId then cursor[i].high else cursor[i].low];
      }
      assert cursor[..|cursor|] == cursor;
    }
  }

  // ---------------------------------------------------------------- the invariant

  predicate IsLive(r: Request) {
    r.status == Pending || r.status == Accepted
  }

  ghost predicate OneLiveRequest(requests: map<string, Request>) {
    forall i, j :: (i in requests && j in requests && IsLive(requests[i]) && IsLive(requests[j])
                    && SamePair(requests[j], requests[i].from, requests[i].to)) ==> i == j
  }

  ghost predicate NoSelfRequest(requests: map<string, Request>) {
    forall id :: id in requests ==> requests[id].from != requests[id].to
  }

  ghost predicate NormalizedEdges(friendships: seq<Edge>) {
    && (forall i :: 0 <= i < |friendships| ==> Less(friendships[i].low, friendships[i].high))
    && (forall i, j :: 0 <= i < j < |friendships| ==>
          friendships[i].low != friendships[j].low || friendships[i].high != friendships[j].high)
  }

  predicate EdgeFor(e: Edge, r: Request) {
    e.low == Low(r.from, r.to) && e.high == High(r.from, r.to)
  }

  ghost predicate AcceptedFor(requests: map<string, Request>, e: Edge) {
    exists id :: id in requests && requests[id].status == Accepted && EdgeFor(e, requests[id])
  }

  ghost predicate HasEdgeFor(friendships: seq<Edge>, r: Request) {
    exists i :: 0 <= i < |friendships| && EdgeFor(friendships[i], r)
  }

  ghost predicate EdgesAccepted(requests: map<string, Request>, friendships: seq<Edge>) {
    forall i :: 0 <= i < |friendships| ==> AcceptedFor(requests, friendships[i])
  }

  ghost predicate AcceptedHaveEdges(requests: map<string, Request>, friendships: seq<Edge>) {
    forall id :: id in requests && requests[id].status == Accepted ==> HasEdgeFor(friendships, requests[id])
  }

  /** Edges are normalized, distinct, and exactly those of the accepted requests. */
  ghost predicate FriendInv(t: Tables) {
    && NoSelfRequest(t.requests)
    && OneLiveRequest(t.requests)
    && NormalizedEdges(t.friendships)
    && EdgesAccepted(t.requests, t.friendships)
    && AcceptedHaveEdges(t.requests, t.friendships)
  }

  lemma SamePairSameEnds(a: UserId, b: UserId, c: UserId, d: UserId)
    requires a != b && c != d
    ensures Low(a, b) == Low(c, d) && High(a, b) == High(c, d) <==> (a == c && b == d) || (a == d && b == c)
  {
    LessDecides(a, b);
    LessDecides(c, d);
  }

  /** A pending request and a friendship exclude each other. */
  lemma PendingMeansNoEdge(t: Tables, id: string)
    requires FriendInv(t) && id in t.requests && t.requests[id].status == Pending
    ensures !HasEdge(t.friendships, t.requests[id].from, t.requests[id].to)
  {
  }

  lemma CreateKeepsInv(t: Tables, from: UserId, to: UserId, message: string, requestId: string, now: string)
    requires FriendInv(t)
    ensures FriendInv(Create(t, from, to, message, requestId, now).0)
  {
    var (u, result) := Create(t, from, to, message, requestId, now);
    if result.success {
      NoLiveRequest(t, from, to);
      assert u.requests == t.requests[requestId := Request(from, to, Pending, message, now, None)];
      assert OneLiveRequest(u.requests);
      forall i | 0 <= i < |u.friendships| ensures AcceptedFor(u.requests, u.friendships[i]) {
        StillAccepted(t.requests, u.requests, t.friendships[i]);
      }
    }
  }

  lemma NoLiveRequest(t: Tables, from: UserId, to: UserId)
    requires FriendInv(t) && from != to
    requires !HasEdge(t.friendships, from, to) && !HasPending(t.requests, from, to)
    ensures forall id :: id in t.requests && IsLive(t.requests[id]) ==> !SamePair(t.requests[id], from, to)
  {
    forall id | id in t.requests && IsLive(t.requests[id]) ensures !SamePair(t.requests[id], from, to) {
      if t.requests[id].status == Accepted {
        assert HasEdgeFor(t.friendships, t.requests[id]);
        SamePairSameEnds(from, to, t.requests[id].from, t.requests[id].to);
      }
    }
  }

  lemma StillAccepted(before: map<string, Request>, after: map<string, Request>, e: Edge)
    requires AcceptedFor(before, e)
    requires forall id :: id in before && before[id].status == Accepted ==> id in after && after[id] == before[id]
    ensures AcceptedFor(after, e)
  {
  }

  /** The edge of an accepted request is always new: INSERT OR IGNORE never ignores. */
  lemma AcceptingInserts(t: Tables, requestId: string, operator: UserId, now: string)
    requires FriendInv(t) && Decide(t, requestId, operator, true, now).1.success
    ensures var r := t.requests[requestId];
            Decide(t, requestId, operator, true, now).0.friendships ==
            t.friendships + [Edge(Low(r.from, r.to), High(r.from, r.to), now)]
  {
  }

  lemma RejectKeepsInv(t: Tables, requestId: string, operator: UserId, now: string)
    requires FriendInv(t)
    ensures FriendInv(Decide(t, requestId, operator, false, now).0)
  {
    var (u, result) := Decide(t, requestId, operator, false, now);
    if result.success {
      forall i | 0 <= i < |u.friendships| ensures AcceptedFor(u.requests, u.friendships[i]) {
        StillAccepted(t.requests, u.requests, t.friendships[i]);
      }
    }
  }

  lemma AcceptKeepsInv(t: Tables, requestId: string, operator: UserId, now: string)
    requires FriendInv(t) && Decide(t, requestId, operator, true, now).1.success
    ensures FriendInv(Decide(t, requestId, operator, true, now).0)
  {
    var u := Decide(t, requestId, operator, true, now).0;
    var r := t.requests[requestId];
    var e := Edge(Low(r.from, r.to), High(r.from, r.to), now);
    AcceptingInserts(t, requestId, operator, now);
    PendingMeansNoEdge(t, requestId);
    assert u.friendships == t.friendships + [e];
    assert u.requests == t.requests[requestId := r.(status := Accepted, handledAt := Some(now))];
    StaysSingle(t.requests, requestId, u.requests[requestId]);
    NewEdgeNormalized(t.friendships, r.from, r.to, now);
    AcceptKeepsEdges(t, u, requestId, e);
    hide Decide, NoSelfRequest, OneLiveRequest, NormalizedEdges, EdgesAccepted, AcceptedHaveEdges;
  }

  lemma StaysSingle(requests: map<string, Request>, id: string, decided: Request)
    requires NoSelfRequest(requests) && OneLiveRequest(requests) && id in requests && IsLive(requests[id])
    requires decided.from == requests[id].from && decided.to == requests[id].to
    ensures NoSelfRequest(requests[id := decided]) && OneLiveRequest(requests[id := decided])
  {
  }

  lemma NewEdgeNormalized(friendships: seq<Edge>, a: UserId, b: UserId, now: string)
    requires NormalizedEdges(friendships) && a != b && !HasEdge(friendships, a, b)
    ensures NormalizedEdges(friendships + [Edge(Low(a, b), High(a, b), now)])
  {
    LessDecides(a, b);
    hide Less;
  }

  lemma AcceptKeepsEdges(t: Tables, u: Tables, requestId: string, e: Edge)
    requires EdgesAccepted(t.requests, t.friendships) && AcceptedHaveEdges(t.requests, t.friendships)
    requires requestId in t.requests && t.requests[requestId].status == Pending
    requires EdgeFor(e, t.requests[requestId]) && u.friendships == t.friendships + [e]
    requires exists at :: u.requests == t.requests[requestId := t.requests[requestId].(status := Accepted, handledAt := at)]
    ensures EdgesAccepted(u.requests, u.friendships) && AcceptedHaveEdges(u.requests, u.friendships)
  {
    var n := |t.friendships|;
    assert EdgeFor(u.friendships[n], u.requests[requestId]);
    hide Low, High, EdgeFor;
    forall i | 0 <= i < |u.friendships| ensures AcceptedFor(u.requests, u.friendships[i]) {
      if i < n { StillAccepted(t.requests, u.requests, t.friendships[i]); }
    }
    forall id | id in u.requests && u.requests[id].status == Accepted ensures HasEdgeFor(u.friendships, u.requests[id]) {
      if id != requestId {
        assert HasEdgeFor(t.friendships, t.requests[id]);
        var i :| 0 <= i < n && EdgeFor(t.friendships[i], t.requests[id]);
        assert EdgeFor(u.friendships[i], u.requests[id]);
      }
    }
  }

  // ---------------------------------------------------------------- every sequence of calls

  datatype Call =
    | UserSeen(user: UserId)
    | CreateCall(from: UserId, to: UserId, message: string, requestId: string, now: string)
    | DecideCall(requestId: string, operator: UserId, accept: bool, now: string)

  function Apply(t: Tables, c: Call): Tables {
    match c
    case UserSeen(user) => t.(users := t.users + {user})
    case CreateCall(from, to, message, requestId, now) => Create(t, from, to, message, requestId, now).0
    case DecideCall(requestId, operator, accept, now) => Decide(t, requestId, operator, accept, now).0
  }

  function ApplyAll(t: Tables, calls: seq<Call>): Tables {
    if calls == [] then t else Apply(ApplyAll(t, calls[..|calls| - 1]), calls[|calls| - 1])
  }

  lemma ApplyKeepsInv(t: Tables, c: Call)
    requires FriendInv(t)
    ensures FriendInv(Apply(t, c))
  {
    hide FriendInv;
    match c
    case UserSeen(user) => UsersDoNotMatter(t, t.users + {user});
    case CreateCall(from, to, message, requestId, now) => CreateKeepsInv(t, from, to, message, requestId, now);
    case DecideCall(requestId, operator, accept, now) =>
      if accept && Decide(t, requestId, operator, true, now).1.success {
        AcceptKeepsInv(t, requestId, operator, now);
      } else if !accept {
        RejectKeepsInv(t, requestId, operator, now);
      }
  }

  lemma UsersDoNotMatter(t: Tables, users: set<UserId>)
    requires FriendInv(t)
    ensures FriendInv(t.(users := users))
  {
  }

  /** After any calls: one pending or accepted request per pair, and friendships exactly for the accepted ones. */
  lemma {:induction false} FriendInvEver(users: set<UserId>, calls: seq<Call>)
    ensures FriendInv(ApplyAll(Tables(users, map[], []), calls))
  {
    hide FriendInv;
    if calls == [] {
      EmptyIsFine(users);
    } else {
      FriendInvEver(users, calls[..|calls| - 1]);
      ApplyKeepsInv(ApplyAll(Tables(users, map[], []), calls[..|calls| - 1]), calls[|calls| - 1]);
    }
  }

  lemma EmptyIsFine(users: set<UserId>)
    ensures FriendInv(Tables(users, map[], []))
  {
  }

  /** A request that was decided is never touched again, by any later calls. */
  lemma {:induction false} HandledIsFinal(t: Tables, calls: seq<Call>, id: string)
    requires id in t.requests && t.requests[id].status != Pending
    ensures id in ApplyAll(t, calls).requests && ApplyAll(t, calls).requests[id] == t.requests[id]
  {
    if calls != [] {
      HandledIsFinal(t, calls[..|calls| - 1], id);
    }
  }

  // ---------------------------------------------------------------- friend lists

  lemma {:induction false} ListedMeansEdge(friendships: seq<Edge>, user: UserId, friend: UserId)
    ensures friend in FriendsOf(friendships, user) <==>
            exists e :: e in friendships && Touches(user)(e) && OtherEnd(user, e) == friend
  {
    var kept := Where(friendships, Touches(user));
    var cursor := OrderBy(kept, Newest());
    SameRows(kept, Newest());
    hide OrderBy;
    if friend in FriendsOf(friendships, user) {
      var i :| 0 <= i < |cursor| && OtherEnd(user, cursor[i]) == friend;
      assert cursor[i] in cursor;
    }
    if exists e :: e in friendships && Touches(user)(e) && OtherEnd(user, e) == friend {
      var e :| e in friendships && Touches(user)(e) && OtherEnd(user, e) == friend;
      assert e in cursor;
      var i :| 0 <= i < |cursor| && cursor[i] == e;
      assert FriendsOf(friendships, user)[i] == friend;
    }
  }

  /** Two users list each other or neither does, and nobody lists himself. */
  lemma FriendListsAgree(t: Tables, a: UserId, b: UserId)
    requires FriendInv(t)
    ensures a in FriendsOf(t.friendships, b) <==> b in FriendsOf(t.friendships, a)
    ensures a in FriendsOf(t.friendships, b) <==> a != b && HasEdge(t.friendships, a, b)
  {
    ListsEdge(t, a, b);
    ListsEdge(t, b, a);
    LessDecides(a, b);
  }

  lemma ListsEdge(t: Tables, a: UserId, b: UserId)
    requires FriendInv(t)
    ensures a in FriendsOf(t.friendships, b) <==> a != b && HasEdge(t.friendships, a, b)
  {
    hide FriendsOf, AcceptedFor, HasEdgeFor;
    ListedMeansEdge(t.friendships, b, a);
    if a != b && HasEdge(t.friendships, a, b) {
      var i :| 0 <= i < |t.friendships| && t.friendships[i].low == Low(a, b) && t.friendships[i].high == High(a, b);
      assert t.friendships[i] in t.friendships && Touches(b)(t.friendships[i]) && OtherEnd(b, t.friendships[i]) == a;
    } else {
      forall e | e in t.friendships && Touches(b)(e) ensures OtherEnd(b, e) != a {
        LessDecides(e.low, e.high);
      }
    }
  }
}
