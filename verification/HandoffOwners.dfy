/** Whose session a packet is handed to. The router trusts the user map, and a connection may log in again as
    somebody else while the user map still names it for its first user. */
module HandoffOwners {
  import opened Packets
  import opened Wire
  import opened OfflineModel
  import opened OfflineProtocol

  /** The user a connection logged in as last. */
  ghost function LastLogin(events: seq<Event>, conn: ConnId): Option<UserId> {
    if events == [] then None
    else
      var front, e := events[..|events| - 1], events[|events| - 1];
      if e.LoggedIn? && e.conn == conn && Enabled(Run(Initial(), front), e) then Some(e.user) else LastLogin(front, conn)
  }

  ghost function OwnerAfter(events: seq<Event>, conn: ConnId): UserId {
    match LastLogin(events, conn)
    case None => ""
    case Some(user) => user
  }

  ghost predicate OwnersOk(s: State, events: seq<Event>) {
    && (forall c :: c in s.main.connections ==> c in s.hist.usedConns && s.main.connections[c] == OwnerAfter(events, c))
    && (forall c :: LastLogin(events, c).Some? ==> c in s.hist.usedConns)
    && (forall u :: u in s.main.userMap ==> u != "")
  }

  /** A session is authenticated as the user its connection logged in as last. */
  lemma {:induction false} OwnerIsLastLogin(events: seq<Event>)
    ensures OwnersOk(Run(Initial(), events), events)
  {
    hide Decode, Encode, DeliverAll, EnqueueIfOffline, ReceivedAck, OnOfflineLoaded, DatabaseStepped;
    if events != [] {
      var front := events[..|events| - 1];
      OwnerIsLastLogin(front);
      var s, e := Run(Initial(), front), events[|events| - 1];
      if Enabled(s, e) { SessionsChange(s, e); }
      hide Step;
    }
  }

  lemma SessionsChange(s: State, e: Event)
    requires Enabled(s, e)
    ensures var t := Step(s, e);
            match e
            case Connected(conn) => t.main.connections == s.main.connections[conn := ""] && t.main.userMap == s.main.userMap
                                    && t.hist.usedConns == s.hist.usedConns + {conn}
            case Disconnected(conn) => t.main.connections == s.main.connections - {conn} && t.main.userMap.Keys <= s.main.userMap.Keys
                                       && t.hist.usedConns == s.hist.usedConns
            case LoggedIn(conn, user) => t.main.connections == s.main.connections[conn := user]
                                         && t.main.userMap == s.main.userMap[user := conn] && t.hist.usedConns == s.hist.usedConns
            case _ => t.main.connections == s.main.connections && t.main.userMap == s.main.userMap && t.hist.usedConns == s.hist.usedConns
  {
    hide Decode, Encode, DeliverAll;
  }

  /** A packet routed for a user goes to that user's own session exactly when the connection that the user map
      names logged in last as that user. */
  lemma RoutedToOwnSessionIff(events: seq<Event>, user: UserId)
    requires Online(Run(Initial(), events).main, user)
    ensures var m := Run(Initial(), events).main;
            Target(m, user).1 == user <==> LastLogin(events, Target(m, user).0) == Some(user)
  {
    OwnerIsLastLogin(events);
    hide Run;
  }

  // ---------------------------------------------------------------- every hand-off of a run

  /** The hand-offs of one step all go to the session that the user map names for their user. */
  lemma NewHandoffs(s: State, e: Event, k: nat)
    requires Enabled(s, e) && |s.main.sent| <= k < |Step(s, e).main.sent|
    ensures s.main.sent <= Step(s, e).main.sent
    ensures var h := Step(s, e).main.sent[k];
            Online(s.main, h.user) && Target(s.main, h.user) == (h.conn, h.owner)
  {
    hide Decode, Encode, DeliverAll;
    if e.ReplyHandled? && s.replies[s.handled].OfflineLoaded? && !Online(s.main, s.replies[s.handled].user) {
      OfflineSendsNothing(s.main.pendingAckIds, s.replies[s.handled].user, s.replies[s.handled].packets);
    }
  }

  lemma {:induction false} OfflineSendsNothing(pending: Pending, user: UserId, packets: seq<QueuedPacket>)
    ensures DeliverAll(pending, user, false, packets).sent == []
  {
    hide Decode;
    if packets != [] { OfflineSendsNothing(pending, user, packets[..|packets| - 1]); }
  }

  lemma StepOnlySends(s: State, e: Event)
    requires Enabled(s, e)
    ensures s.main.sent <= Step(s, e).main.sent
  {
    hide Decode, Encode, DeliverAll;
  }

  lemma {:induction false} SentStays(events: seq<Event>, n: nat)
    requires n <= |events|
    ensures Run(Initial(), events[..n]).main.sent <= Run(Initial(), events).main.sent
  {
    hide Step;
    if n == |events| {
      assert events[..n] == events;
    } else {
      var front, e := events[..|events| - 1], events[|events| - 1];
      assert front[..n] == events[..n];
      SentStays(front, n);
      if Enabled(Run(Initial(), front), e) { StepOnlySends(Run(Initial(), front), e); }
    }
  }

  /** For hand-off `k`, made by event `n`: it went to a session of its user exactly when that connection had
      logged in last as that user. */
  lemma HandoffOwnerIff(events: seq<Event>, n: nat, k: nat)
    requires n < |events|
    requires |Run(Initial(), events[..n]).main.sent| <= k < |Run(Initial(), events[..n + 1]).main.sent|
    ensures k < |Run(Initial(), events).main.sent|
    ensures var h := Run(Initial(), events).main.sent[k];
            h.owner == h.user <==> LastLogin(events[..n], h.conn) == Some(h.user)
  {
    hide Step, LastLogin;
    var s := Run(Initial(), events[..n]);
    assert events[..n + 1][..n] == events[..n];
    SentStays(events, n + 1);
    NewHandoffs(s, events[n], k);
    RoutedToOwnSessionIff(events[..n], Run(Initial(), events[..n + 1]).main.sent[k].user);
  }

  ghost predicate OneUserEach(logins: set<(ConnId, UserId)>) {
    forall a, b :: a in logins && b in logins && a.0 == b.0 ==> a.1 == b.1
  }

  ghost predicate OwnersLoggedIn(s: State) {
    && (forall c :: c in s.main.connections && s.main.connections[c] != "" ==> (c, s.main.connections[c]) in s.hist.logins)
    && (forall l :: l in s.hist.logins && l.0 in s.main.connections ==> s.main.connections[l.0] != "")
    && (forall k :: 0 <= k < |s.main.sent| ==>
          (s.main.sent[k].conn, s.main.sent[k].user) in s.hist.logins && (s.main.sent[k].conn, s.main.sent[k].owner) in s.hist.logins)
  }

  /** When no connection ever logs in as two users, every hand-off of the run goes to a session of its user. */
  lemma OwnSessionsOnly(events: seq<Event>)
    requires OneUserEach(Run(Initial(), events).hist.logins)
    ensures var sent := Run(Initial(), events).main.sent;
            forall k :: 0 <= k < |sent| ==> sent[k].owner == sent[k].user
  {
    OwnersLoggedInEver(events);
    hide Run;
    var s := Run(Initial(), events);
    forall k | 0 <= k < |s.main.sent| ensures s.main.sent[k].owner == s.main.sent[k].user {
      var h := s.main.sent[k];
      assert (h.conn, h.user) in s.hist.logins && (h.conn, h.owner) in s.hist.logins;
    }
  }

  lemma {:induction false} OwnersLoggedInEver(events: seq<Event>)
    ensures RowInv(Run(Initial(), events)) && OwnersLoggedIn(Run(Initial(), events))
  {
    hide Step, RowInv;
    if events == [] {
      NothingYet();
    } else {
      var front, e := events[..|events| - 1], events[|events| - 1];
      OwnersLoggedInEver(front);
      var s := Run(Initial(), front);
      if Enabled(s, e) {
        RowInvStep(s, e);
        OwnersLoggedInStep(s, e);
      }
    }
  }

  lemma NothingYet()
    ensures RowInv(Initial()) && OwnersLoggedIn(Initial())
  {
  }

  lemma OwnersLoggedInStep(s: State, e: Event)
    requires RowInv(s) && OwnersLoggedIn(s) && Enabled(s, e)
    ensures OwnersLoggedIn(Step(s, e))
  {
    var t := Step(s, e);
    SessionsChange(s, e);
    StepOnlySends(s, e);
    assert ConnectionsOk(s.main, s.hist);
    hide RowInv;
    LoginsGrow(s, e);
    forall k | 0 <= k < |t.main.sent|
      ensures (t.main.sent[k].conn, t.main.sent[k].user) in t.hist.logins && (t.main.sent[k].conn, t.main.sent[k].owner) in t.hist.logins
    {
      if k < |s.main.sent| {
        assert t.main.sent[k] == s.main.sent[k];
      } else {
        NewHandoffs(s, e, k);
      }
    }
    hide Step;
  }

  lemma LoginsGrow(s: State, e: Event)
    requires Enabled(s, e)
    ensures Step(s, e).hist.logins == s.hist.logins + if e.LoggedIn? then {(e.conn, e.user)} else {}
  {
    hide Decode, Encode, DeliverAll;
  }

  // ---------------------------------------------------------------- the connection that was taken over

  /** One connection logs in as u and then as v; a packet for u goes to the session of v. */
  lemma TakenOverSessionGetsPacket(p: Packet)
    requires p.msgId != ""
    ensures var s := Run(Initial(), [Connected("a"), LoggedIn("a", "u"), LoggedIn("a", "v"), Submit("u", p)]);
            s.main.sent == [Handoff("a", "v", "u", p)]
  {
    hide Encode, Decode, OnOfflineLoaded, Run;
    var s := Step(Step(Step(Initial(), Connected("a")), LoggedIn("a", "u")), LoggedIn("a", "v"));
    TakenOver();
    assert Step(s, Submit("u", p)).main.sent == [Handoff("a", "v", "u", p)];
    hide Step;
    FourEvents(Initial(), Connected("a"), LoggedIn("a", "u"), LoggedIn("a", "v"), Submit("u", p));
  }

  lemma TakenOver()
    ensures Enabled(Step(Initial(), Connected("a")), LoggedIn("a", "u"))
    ensures Enabled(Step(Step(Initial(), Connected("a")), LoggedIn("a", "u")), LoggedIn("a", "v"))
    ensures var m := Step(Step(Step(Initial(), Connected("a")), LoggedIn("a", "u")), LoggedIn("a", "v")).main;
            m.connections == map["a" := "v"] && m.userMap == map["u" := "a", "v" := "a"] && m.sent == []
  {
    hide OnOfflineLoaded;
  }
}
