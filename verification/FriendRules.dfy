/** The rules that one friend request follows, and what they make of friendships. */
module FriendRules {
  import opened Wire
  import opened Text
  import opened Query
  import opened Friends

  // ---------------------------------------------------------------- one request, seen on its own

  function RequestOf(t: Tables, id: string): Option<Request> {
    if id in t.requests then Some(t.requests[id]) else None
  }

  /** Some pending or accepted request stands between the two. */
  predicate LiveBetween(requests: map<string, Request>, a: UserId, b: UserId) {
    exists id :: id in requests && requests[id].status != Rejected && SamePair(requests[id], a, b)
  }

  /** Who may ask whom. */
  predicate MayAsk(t: Tables, from: UserId, to: UserId, id: string) {
    && from != "" && to != "" && from != to && to in t.users
    && !LiveBetween(t.requests, from, to) && id !in t.requests
  }

  /** The call is a decision about the request, by the user it is addressed to, while it is pending. */
  predicate Decides(r: Request, id: string, c: Call) {
    c.DecideCall? && c.requestId == id != "" && c.operator == r.to != "" && r.status == Pending
  }

  function Next(t: Tables, id: string, c: Call): Option<Request> {
    match RequestOf(t, id)
    case None =>
      if c.CreateCall? && c.requestId == id && MayAsk(t, c.from, c.to, id)
      then Some(Request(c.from, c.to, Pending, c.message, c.now, None)) else None
    case Some(r) =>
      if Decides(r, id, c) then Some(Request(r.from, r.to, if c.accept then Accepted else Rejected, r.message, r.createdAt, Some(c.now)))
      else Some(r)
  }

  /** Being friends is having an accepted request between the two. */
  lemma EdgeIsAccepted(t: Tables, a: UserId, b: UserId)
    requires FriendInv(t) && a != b
    ensures HasEdge(t.friendships, a, b) <==>
            exists id :: id in t.requests && t.requests[id].status == Accepted && SamePair(t.requests[id], a, b)
  {
    hide Less;
    if HasEdge(t.friendships, a, b) {
      var i :| 0 <= i < |t.friendships| && t.friendships[i].low == Low(a, b) && t.friendships[i].high == High(a, b);
      assert AcceptedFor(t.requests, t.friendships[i]);
      var id :| id in t.requests && t.requests[id].status == Accepted && EdgeFor(t.friendships[i], t.requests[id]);
      SamePairSameEnds(a, b, t.requests[id].from, t.requests[id].to);
    }
    if id :| id in t.requests && t.requests[id].status == Accepted && SamePair(t.requests[id], a, b) {
      assert HasEdgeFor(t.friendships, t.requests[id]);
      SamePairSameEnds(a, b, t.requests[id].from, t.requests[id].to);
    }
  }

  lemma LiveIsEdgeOrPending(t: Tables, a: UserId, b: UserId)
    requires FriendInv(t) && a != b
    ensures LiveBetween(t.requests, a, b) <==> HasEdge(t.friendships, a, b) || HasPending(t.requests, a, b)
  {
    EdgeIsAccepted(t, a, b);
    hide FriendInv, HasEdge;
  }

  /** Each call changes every request, seen on its own, as the rules say. */
  lemma CallFollowsRules(t: Tables, c: Call, id: string)
    requires FriendInv(t)
    ensures RequestOf(Apply(t, c), id) == Next(t, id, c)
  {
    if c.CreateCall? && c.from != c.to { LiveIsEdgeOrPending(t, c.from, c.to); }
    hide FriendInv, HasEdge, HasPending, LiveBetween, InsertOrIgnore, Low, High;
  }

  lemma PendingExcludesEdge(t: Tables, a: UserId, b: UserId)
    requires FriendInv(t) && a != b && HasPending(t.requests, a, b)
    ensures !HasEdge(t.friendships, a, b)
  {
    var id :| id in t.requests && t.requests[id].status == Pending && SamePair(t.requests[id], a, b);
    PendingMeansNoEdge(t, id);
    SamePairSameEnds(a, b, t.requests[id].from, t.requests[id].to);
  }

  function WhyNotAsk(t: Tables, from: UserId, to: UserId): int {
    if from == "" || to == "" || from == to then 400
    else if to !in t.users then 404
    else if LiveBetween(t.requests, from, to) then 409
    else 500
  }

  /** A request is created exactly when its sender may ask, and otherwise the refusal says why. */
  lemma CreateAnswer(t: Tables, from: UserId, to: UserId, message: string, id: string, now: string)
    requires FriendInv(t)
    ensures var answer := Create(t, from, to, message, id, now).1;
            && (answer.success <==> MayAsk(t, from, to, id))
            && (answer.success ==> answer == CreateResult(id, "pending", now, true, 0))
            && (!answer.success ==> answer.errorCode == WhyNotAsk(t, from, to))
            && (answer.errorCode == 409 ==> (answer.status == "pending" <==> HasPending(t.requests, from, to)))
  {
    if from != to { LiveIsEdgeOrPending(t, from, to); }
    if from != to && HasPending(t.requests, from, to) { PendingExcludesEdge(t, from, to); }
    hide FriendInv, HasEdge, HasPending, LiveBetween;
  }

  function WhyNotDecide(r: Request, id: string, operator: UserId): int {
    if id == "" || operator == "" then 400 else if operator != r.to then 403 else 409
  }

  predicate IsNameOf(text: string, status: Status) {
    && (text == "pending" <==> status == Pending)
    && (text == "accepted" <==> status == Accepted)
    && (text == "rejected" <==> status == Rejected)
  }

  /** A decision succeeds exactly when the addressee decides a pending request, and otherwise the refusal says why. */
  lemma DecideAnswer(t: Tables, id: string, operator: UserId, accept: bool, now: string)
    ensures var answer := Decide(t, id, operator, accept, now).1;
            match RequestOf(t, id)
            case None => !answer.success && answer.errorCode == if id == "" || operator == "" then 400 else 404
            case Some(r) =>
              && (answer.success <==> Decides(r, id, DecideCall(id, operator, accept, now)))
              && (answer.success ==> answer == DecideResult(r.from, r.to, if accept then "accepted" else "rejected", now, true, 0))
              && (!answer.success ==> answer.errorCode == WhyNotDecide(r, id, operator))
              && (answer.errorCode != 400 ==> answer.from == r.from && answer.to == r.to)
              && (!answer.success && answer.errorCode != 400 ==> IsNameOf(answer.status, r.status))
  {
    hide InsertOrIgnore, Low, High;
  }

  // ---------------------------------------------------------------- every sequence of calls

  function After(users: set<UserId>, calls: seq<Call>): Tables {
    ApplyAll(Tables(users, map[], []), calls)
  }

  /** Call `n` of the sequence decides the request that it meets. */
  ghost predicate DecidedAt(users: set<UserId>, calls: seq<Call>, n: nat, id: string) {
    n < |calls| && RequestOf(After(users, calls[..n]), id).Some?
    && Decides(RequestOf(After(users, calls[..n]), id).value, id, calls[n])
  }

  lemma NextCall(users: set<UserId>, calls: seq<Call>, n: nat)
    requires n < |calls|
    ensures After(users, calls[..n + 1]) == Apply(After(users, calls[..n]), calls[n])
    ensures FriendInv(After(users, calls[..n]))
  {
    assert calls[..n + 1][..n] == calls[..n];
    FriendInvEver(users, calls[..n]);
  }

  /** A pending request is settled by call `n` exactly when that is a decision by the user it is addressed to; it is
      accepted exactly when that decision accepts. */
  lemma SettledByAddressee(users: set<UserId>, calls: seq<Call>, n: nat, id: string)
    requires n < |calls| && RequestOf(After(users, calls[..n]), id).Some?
    requires RequestOf(After(users, calls[..n]), id).value.status == Pending
    ensures RequestOf(After(users, calls[..n + 1]), id).Some?
    ensures var before := RequestOf(After(users, calls[..n]), id).value;
            var after := RequestOf(After(users, calls[..n + 1]), id).value;
            && (after.status != Pending <==> calls[n].DecideCall? && calls[n].requestId == id != "" && calls[n].operator == before.to != "")
            && (after.status == Accepted <==> after.status != Pending && calls[n].accept)
            && after.from == before.from && after.to == before.to
  {
    hide FriendInv, Apply;
    NextCall(users, calls, n);
    CallFollowsRules(After(users, calls[..n]), calls[n], id);
  }

  ghost predicate Asked(calls: seq<Call>, id: string, r: Request) {
    CreateCall(r.from, r.to, r.message, id, r.createdAt) in calls
  }

  /** Every request was asked for by its sender, and a settled one was decided by its addressee. */
  lemma {:induction false} RequestStory(users: set<UserId>, calls: seq<Call>, id: string)
    requires RequestOf(After(users, calls), id).Some?
    ensures var r := RequestOf(After(users, calls), id).value;
            && Asked(calls, id, r)
            && (r.status != Pending ==> exists n: nat ::
                  DecidedAt(users, calls, n, id) && calls[n].operator == r.to && calls[n].accept == (r.status == Accepted))
  {
    hide FriendInv, Apply, MayAsk;
    if calls != [] {
      var n := |calls| - 1;
      var front := calls[..n];
      assert calls[..n + 1] == calls;
      NextCall(users, calls, n);
      CallFollowsRules(After(users, front), calls[n], id);
      if RequestOf(After(users, front), id).Some? {
        RequestStory(users, front, id);
        forall k: nat | DecidedAt(users, front, k, id) ensures DecidedAt(users, calls, k, id) && calls[k] == front[k] {
          assert front[..k] == calls[..k];
        }
        assert DecidedAt(users, calls, n, id) <==> Decides(RequestOf(After(users, front), id).value, id, calls[n]);
      }
    }
  }

  /** A decision of the past stands. */
  lemma DecisionStands(users: set<UserId>, calls: seq<Call>, n: nat, id: string)
    requires DecidedAt(users, calls, n, id)
    ensures RequestOf(After(users, calls), id).Some?
    ensures var before := RequestOf(After(users, calls[..n]), id).value;
            var r := RequestOf(After(users, calls), id).value;
            r.from == before.from && r.to == before.to && r.status == if calls[n].accept then Accepted else Rejected
  {
    hide FriendInv, Apply;
    NextCall(users, calls, n);
    CallFollowsRules(After(users, calls[..n]), calls[n], id);
    HandledIsFinal(After(users, calls[..n + 1]), calls[n + 1..], id);
    AppliedTogether(Tables(users, map[], []), calls[..n + 1], calls[n + 1..]);
    assert calls[..n + 1] + calls[n + 1..] == calls;
  }

  lemma {:induction false} AppliedTogether(t: Tables, a: seq<Call>, b: seq<Call>)
    ensures ApplyAll(t, a + b) == ApplyAll(ApplyAll(t, a), b)
  {
    hide Apply;
    if b == [] {
      assert a + b == a;
    } else {
      var n := |b| - 1;
      assert (a + b)[..|a| + n] == a + b[..n];
      AppliedTogether(t, a, b[..n]);
    }
  }

  /** Call `n` accepts a request between the two, made by the user whom it is addressed to. */
  ghost predicate AcceptedAt(users: set<UserId>, calls: seq<Call>, n: nat, id: string, a: UserId, b: UserId) {
    && DecidedAt(users, calls, n, id) && calls[n].accept
    && var r := RequestOf(After(users, calls[..n]), id).value;
    SamePair(r, a, b) && calls[n].operator == r.to && Asked(calls[..n], id, r)
  }

  /** In every run two users are friends exactly when one of them asked and the other, asked, accepted. */
  lemma FriendsIffAccepted(users: set<UserId>, calls: seq<Call>, a: UserId, b: UserId)
    requires a != b
    ensures HasEdge(After(users, calls).friendships, a, b) <==> exists n: nat, id :: AcceptedAt(users, calls, n, id, a, b)
  {
    hide FriendInv, Apply, HasEdge, After;
    assert FriendInv(After(users, calls)) by { FriendInvEver(users, calls); InvOf(users, calls); }
    EdgeIsAccepted(After(users, calls), a, b);
    var t := After(users, calls);
    if HasEdge(t.friendships, a, b) {
      var id :| id in t.requests && t.requests[id].status == Accepted && SamePair(t.requests[id], a, b);
      RequestStory(users, calls, id);
      var n: nat :| DecidedAt(users, calls, n, id) && calls[n].accept;
      DecisionStands(users, calls, n, id);
      RequestStory(users, calls[..n], id);
      assert AcceptedAt(users, calls, n, id, a, b);
    }
    if n: nat, id :| AcceptedAt(users, calls, n, id, a, b) {
      DecisionStands(users, calls, n, id);
      assert id in t.requests && t.requests[id].status == Accepted && SamePair(t.requests[id], a, b);
    }
  }

  lemma InvOf(users: set<UserId>, calls: seq<Call>)
    ensures FriendInv(After(users, calls))
  {
    FriendInvEver(users, calls);
  }

  // ---------------------------------------------------------------- the order of a friend list

  /** When the two became friends. */
  ghost predicate FriendsSince(friendships: seq<Edge>, a: UserId, b: UserId, at: string) {
    exists i :: 0 <= i < |friendships| && friendships[i] == Edge(Low(a, b), High(a, b), at)
  }

  lemma NewestIsOrder()
    ensures IsOrder(Newest())
  {
    forall a: Edge, b: Edge ensures Newest()(a, b) || Newest()(b, a) { LessDecides(a.createdAt, b.createdAt); }
    forall a: Edge, b: Edge, c: Edge | Newest()(a, b) && Newest()(b, c) ensures Newest()(a, c) {
      LessTransitive(c.createdAt, b.createdAt, a.createdAt);
    }
  }

  /** No friend is listed before a newer one. */
  lemma NewestFriendsFirst(t: Tables, user: UserId, i: nat, j: nat, first: string, second: string)
    requires FriendInv(t) && i < j < |FriendsOf(t.friendships, user)|
    requires FriendsSince(t.friendships, user, FriendsOf(t.friendships, user)[i], first)
    requires FriendsSince(t.friendships, user, FriendsOf(t.friendships, user)[j], second)
    ensures !Less(first, second)
  {
    var rows := OrderBy(Where(t.friendships, Touches(user)), Newest());
    NewestIsOrder();
    OrderBySorted(Where(t.friendships, Touches(user)), Newest());
    ListedRow(t, user, i, first);
    ListedRow(t, user, j, second);
    assert Newest()(rows[i], rows[j]);
  }

  lemma ListedRow(t: Tables, user: UserId, i: nat, at: string)
    requires FriendInv(t) && i < |FriendsOf(t.friendships, user)|
    requires FriendsSince(t.friendships, user, FriendsOf(t.friendships, user)[i], at)
    ensures OrderBy(Where(t.friendships, Touches(user)), Newest())[i].createdAt == at
  {
    assert NormalizedEdges(t.friendships);
    hide FriendInv, NormalizedEdges, Less, Low, High, OrderBy;
    var kept := Where(t.friendships, Touches(user));
    var e := OrderBy(kept, Newest())[i];
    SameRows(kept, Newest());
    assert e in OrderBy(kept, Newest()) && e in t.friendships;
    var k :| 0 <= k < |t.friendships| && t.friendships[k] == e;
    SinceOwnRow(t.friendships, user, k, at);
  }

  lemma SinceOwnRow(friendships: seq<Edge>, user: UserId, k: nat, at: string)
    requires NormalizedEdges(friendships) && k < |friendships| && Touches(user)(friendships[k])
    requires FriendsSince(friendships, user, OtherEnd(user, friendships[k]), at)
    ensures friendships[k].createdAt == at
  {
    LessDecides(friendships[k].low, friendships[k].high);
    hide Less;
  }
}
