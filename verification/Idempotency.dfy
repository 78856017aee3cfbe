/** Over whole runs of the server: what the idempotency cache remembers, and what an answer of 200 means. */
module Idempotency {
  import opened Packets
  import opened Wire
  import opened Text
  import opened IdempotencyWindow
  import opened MessageDelivery
  import opened ServerProtocol
  import opened GroupSends
  import opened RequestOrigins
  import Offline = OfflineProtocol
  import OfflineModel

  // ---------------------------------------------------------------- the bound holds always

  ghost predicate Bounded(v: Service) {
    KeysOrdered(v.window) && |v.window.cache| <= MAX_ENTRIES
  }

  lemma BoundedAfterInsert(w: Window, key: Key, e: Entry, now: int)
    requires KeysOrdered(w)
    ensures var u := Prune(Remember(w, key, e), now);
            KeysOrdered(u) && |u.cache| <= 10000
  {
    InsertKeepsOrdered(w, key, e);
    PruneBounds(Remember(w, key, e), now);
  }

  /** Whatever a request or a member list does, at most 10000 answers are cached afterwards. */
  lemma SendStaysBounded(v: Service, p: SendParams, clock: Clock, serverId: MsgId, token: Token)
    requires Bounded(v)
    ensures Bounded(ProcessSendMessage(v, p, clock, serverId, token).service)
  {
    hide Prune, TooLarge;
    var w := Prune(v.window, clock.t0);
    PruneBounds(v.window, clock.t0);
    BoundedAfterInsert(w, RequestKeyFor(p.senderUserId, p.msgId), Entry(200, "", serverId, clock.t1), clock.t2);
  }

  lemma ReplyStaysBounded(v: Service, r: MembersResult, clock: Clock)
    requires Bounded(v)
    ensures Bounded(OnGroupMembersForMessage(v, r, clock).service)
  {
    hide Prune, Recipients, Trim;
    if r.token in v.pendingGroup {
      var p := v.pendingGroup[r.token];
      BoundedAfterInsert(v.window, p.requestKey, Entry(200, "", p.serverId, clock.t1), clock.t2);
      BoundedAfterInsert(v.window, p.requestKey, Entry(403, "Sender is not a member of group", "", clock.t1), clock.t2);
    }
  }

  // ---------------------------------------------------------------- the window, key by key

  /** The order list follows the log; a key that was never inserted over its own cached answer has its window. */
  ghost predicate WindowInv(s: Server) {
    && Follows(s.svc.window, s.log, s.clock)
    && forall k :: k !in s.doubled ==> KeyWindow(s.svc.window, s.log, s.clock, k) && RepeatsAreLate(s.log, k)
  }

  lemma PrunedWindow(w: Window, log: seq<Insertion>, clock: int, now: int)
    requires Follows(w, log, clock) && clock <= now
    ensures Follows(Prune(w, now), log, now)
    ensures forall k: Key :: KeyWindow(w, log, clock, k) ==> KeyWindow(Prune(w, now), log, now, k)
  {
    LaterClock(w, log, clock, now);
    hide Prune, Follows, KeyWindow;
    PruneFollows(w, log, now);
    forall k: Key | KeyWindow(w, log, clock, k) ensures KeyWindow(Prune(w, now), log, now, k) {
      PruneKeepsKey(w, log, now, k);
    }
  }

  /** An insertion and the pruning after it; the key inserted keeps its window if it was not cached. */
  lemma InsertedWindow(w: Window, log: seq<Insertion>, clock: int, x: Insertion, now: int)
    requires Follows(w, log, clock) && clock <= x.entry.createdAtMs <= now
    ensures var u := Prune(Remember(w, x.key, x.entry), now);
            && Follows(u, log + [x], now)
            && forall k: Key :: KeyWindow(w, log, clock, k) && RepeatsAreLate(log, k) && !(k == x.key && k in w.cache) ==>
                 KeyWindow(u, log + [x], now, k) && RepeatsAreLate(log + [x], k)
  {
    hide Prune, Follows, KeyWindow, RepeatsAreLate;
    var v := Remember(w, x.key, x.entry);
    InsertFollows(w, log, clock, x);
    PrunedWindow(v, log + [x], x.entry.createdAtMs, now);
    forall k: Key | KeyWindow(w, log, clock, k) && RepeatsAreLate(log, k) && !(k == x.key && k in w.cache)
      ensures KeyWindow(Prune(v, now), log + [x], now, k) && RepeatsAreLate(log + [x], k)
    {
      InsertKeepsKey(w, log, clock, x, k);
      InsertIsLate(w, log, clock, x, k);
    }
  }

  lemma LaterWindow(s: Server, t: Server)
    requires WindowInv(s) && t.svc.window == s.svc.window && t.log == s.log && s.doubled <= t.doubled && s.clock <= t.clock
    ensures WindowInv(t)
  {
    LaterClock(s.svc.window, s.log, s.clock, t.clock);
    hide Follows, KeyWindow, RepeatsAreLate;
  }

  /** What a send does to the window: nothing but pruning, or the insertion of a key that is not cached. */
  lemma SendWindow(v: Service, p: SendParams, clock: Clock, serverId: MsgId, token: Token)
    requires clock.t0 <= clock.t1 <= clock.t2
    ensures var o := ProcessSendMessage(v, p, clock, serverId, token);
            var w := Prune(v.window, clock.t0);
            match o.inserted
            case None => o.service.window == w
            case Some(x) => x.key == RequestKeyFor(p.senderUserId, p.msgId) && x.key !in w.cache && x.entry.createdAtMs == clock.t1
                            && p.sessionType == "private" && o.service.window == Prune(Remember(w, x.key, x.entry), clock.t2)
  {
    hide Prune, TooLarge;
  }

  lemma WindowSend(s: Server, p: SendParams, clock: Clock, serverId: MsgId, token: Token)
    requires WindowInv(s) && Possible(s, Send(p, clock, serverId, token))
    ensures WindowInv(Act(s, Send(p, clock, serverId, token)))
  {
    hide Prune, ProcessSendMessage, Offline.Run, RepeatsAreLate, Follows, KeyWindow;
    var w := Prune(s.svc.window, clock.t0);
    SendWindow(s.svc, p, clock, serverId, token);
    PrunedWindow(s.svc.window, s.log, s.clock, clock.t0);
    match ProcessSendMessage(s.svc, p, clock, serverId, token).inserted
    case Some(x) => InsertedWindow(w, s.log, clock.t0, x, clock.t2);
    case None => LaterClock(w, s.log, clock.t0, clock.t2);
  }

  /** What a member list does to the window. */
  lemma ReplyWindow(v: Service, r: MembersResult, clock: Clock)
    ensures var o := OnGroupMembersForMessage(v, r, clock);
            match o.inserted
            case None => o.service.window == v.window
            case Some(x) => r.token in v.pendingGroup && x.key == v.pendingGroup[r.token].requestKey && x.entry.createdAtMs == clock.t1
                            && o.service.window == Prune(Remember(v.window, x.key, x.entry), clock.t2)
  {
    hide Prune, Recipients, Trim;
  }

  lemma WindowReply(s: Server, clock: Clock)
    requires WindowInv(s) && Possible(s, HandleReply(clock))
    ensures WindowInv(Act(s, HandleReply(clock)))
  {
    hide Prune, OnGroupMembersForMessage, Offline.Run, Offline.Step, RepeatsAreLate, Follows, KeyWindow;
    var t := Act(s, HandleReply(clock));
    if t.log == s.log && t.svc.window == s.svc.window {
      LaterWindow(s, t);
    } else {
      var r := s.off.replies[s.off.handled].result;
      ReplyWindow(s.svc, r, clock);
      InsertedWindow(s.svc.window, s.log, s.clock, OnGroupMembersForMessage(s.svc, r, clock).inserted.value, clock.t2);
    }
  }

  lemma WindowAct(s: Server, e: ServerEvent)
    requires WindowInv(s) && Possible(s, e)
    ensures WindowInv(Act(s, e))
  {
    hide Offline.Step, Offline.Run, RepeatsAreLate, Follows, KeyWindow;
    match e
    case Outside(_) =>
    case MembershipChanged(_, _, _) =>
    case Send(p, clock, serverId, token) => WindowSend(s, p, clock, serverId, token);
    case HandleReply(clock) => WindowReply(s, clock);
  }

  // ---------------------------------------------------------------- what an answer of 200 means

  /** The message was posted for storage, and every recipient's packet was handed over or queued. */
  ghost predicate Happened(off: Offline.State, x: Insertion) {
    && x.accepted.Some? && x.entry.serverId != ""
    && x.accepted.value.store.serverId == x.entry.serverId
    && x.accepted.value.packet.msgId == x.entry.serverId
    && StoreMessage(x.accepted.value.store) in off.main.posted
    && forall u :: u in x.accepted.value.recipients ==> Parcel(u, Encode(x.accepted.value.packet)) in off.hist.submitted
  }

  ghost predicate InLog(log: seq<Insertion>, key: Key, e: Entry) {
    exists i :: 0 <= i < |log| && log[i].key == key && log[i].entry == e
  }

  ghost predicate AcceptedAs(log: seq<Insertion>, key: Key, serverId: MsgId) {
    exists i :: 0 <= i < |log| && log[i].key == key && log[i].entry.code == 200 && log[i].entry.serverId == serverId
  }

  ghost predicate CacheInLog(cache: map<Key, Entry>, log: seq<Insertion>) {
    forall k :: k in cache ==> InLog(log, k, cache[k])
  }

  ghost predicate AcksSound(acks: seq<Ack>, log: seq<Insertion>) {
    forall i :: 0 <= i < |acks| && acks[i].code == 200 ==>
      AcceptedAs(log, RequestKeyFor(acks[i].sender, acks[i].msgId), acks[i].serverId)
  }

  ghost predicate LogHappened(off: Offline.State, log: seq<Insertion>) {
    forall i :: 0 <= i < |log| && log[i].entry.code == 200 ==> Happened(off, log[i])
  }

  ghost predicate RepliesPlain(replies: seq<DbReply>) {
    forall j :: 0 <= j < |replies| && replies[j].GroupMembersLoaded? ==> PlainResult(replies[j].result)
  }

  ghost predicate SoundInv(s: Server) {
    && CacheInLog(s.svc.window.cache, s.log)
    && AcksSound(s.svc.acks, s.log)
    && LogHappened(s.off, s.log)
    && RepliesPlain(s.off.replies)
  }

  lemma LongerLog(cache: map<Key, Entry>, acks: seq<Ack>, log: seq<Insertion>, x: Insertion)
    requires CacheInLog(cache, log) && AcksSound(acks, log)
    ensures CacheInLog(cache, log + [x]) && AcksSound(acks, log + [x]) && InLog(log + [x], x.key, x.entry)
    ensures x.entry.code == 200 ==> AcceptedAs(log + [x], x.key, x.entry.serverId)
  {
    var more := log + [x];
    assert more[|log|] == x;
    forall k | k in cache ensures InLog(more, k, cache[k]) {
      var i :| 0 <= i < |log| && log[i].key == k && log[i].entry == cache[k];
      assert more[i] == log[i];
    }
    forall i | 0 <= i < |acks| && acks[i].code == 200
      ensures AcceptedAs(more, RequestKeyFor(acks[i].sender, acks[i].msgId), acks[i].serverId)
    {
      var j :| 0 <= j < |log| && log[j].key == RequestKeyFor(acks[i].sender, acks[i].msgId)
               && log[j].entry.code == 200 && log[j].entry.serverId == acks[i].serverId;
      assert more[j] == log[j];
    }
  }

  lemma PrunedInLog(w: Window, log: seq<Insertion>, now: int)
    requires CacheInLog(w.cache, log)
    ensures CacheInLog(Prune(w, now).cache, log)
  {
    forall k | k in Prune(w, now).cache ensures InLog(log, k, Prune(w, now).cache[k]) { PruneForgets(w, now, k); }
  }

  lemma InsertedInLog(w: Window, log: seq<Insertion>, acks: seq<Ack>, x: Insertion, now: int)
    requires CacheInLog(w.cache, log) && AcksSound(acks, log)
    ensures CacheInLog(Prune(Remember(w, x.key, x.entry), now).cache, log + [x]) && AcksSound(acks, log + [x])
    ensures x.entry.code == 200 ==> AcceptedAs(log + [x], x.key, x.entry.serverId)
  {
    LongerLog(w.cache, acks, log, x);
    PrunedInLog(Remember(w, x.key, x.entry), log + [x], now);
  }

  lemma StillHappened(a: Offline.State, b: Offline.State, log: seq<Insertion>)
    requires LogHappened(a, log) && a.main.posted <= b.main.posted && a.hist.submitted <= b.hist.submitted
    ensures LogHappened(b, log)
  {
  }

  /** The effects of an acceptance make it happen. */
  lemma AcceptanceHappens(off: Offline.State, effects: seq<Effect>, x: Insertion)
    requires x.accepted.Some? && x.entry.serverId != ""
    requires x.accepted.value.store.serverId == x.entry.serverId && x.accepted.value.packet.msgId == x.entry.serverId
    requires effects == [Offline.Signal(StoreMessage(x.accepted.value.store))]
                        + SubmitAll(x.accepted.value.recipients, x.accepted.value.packet)
    ensures Happened(Offline.Run(off, effects), x)
  {
    hide Offline.Run, Encode;
    var a := x.accepted.value;
    EffectsHappen(off, effects, 0);
    forall u | u in a.recipients
      ensures Parcel(u, Encode(a.packet)) in Offline.Run(off, effects).hist.submitted
    {
      var i :| 0 <= i < |a.recipients| && a.recipients[i] == u;
      assert effects[i + 1] == SubmitAll(a.recipients, a.packet)[i];
      EffectsHappen(off, effects, i + 1);
    }
  }

  lemma SoundOutside(s: Server, o: Offline.Event)
    requires SoundInv(s) && Possible(s, Outside(o))
    ensures SoundInv(Act(s, Outside(o)))
  {
  }

  lemma SoundSend(s: Server, p: SendParams, clock: Clock, serverId: MsgId, token: Token)
    requires SoundInv(s) && Possible(s, Send(p, clock, serverId, token))
    ensures SoundInv(Act(s, Send(p, clock, serverId, token)))
  {
    hide Prune, TooLarge, Offline.Run, LogHappened, CacheInLog;
    var t := Act(s, Send(p, clock, serverId, token));
    var o := ProcessSendMessage(s.svc, p, clock, serverId, token);
    var w := Prune(s.svc.window, clock.t0);
    PrunedInLog(s.svc.window, s.log, clock.t0);
    EffectsAdd(s.off, o.effects);
    StillHappened(s.off, t.off, s.log);
    match o.inserted {
      case Some(x) =>
        InsertedInLog(w, s.log, s.svc.acks, x, clock.t2);
        AcceptanceHappens(s.off, o.effects, x);
        LogOneMore(t.off, s.log, x);
        SoundAnswer(s.svc.acks, t.svc.acks[|s.svc.acks|], t.log);
      case None =>
        if |t.svc.acks| > |s.svc.acks| {
          CachedAnswer(w, s.log, RequestKeyFor(p.senderUserId, p.msgId));
          SoundAnswer(s.svc.acks, t.svc.acks[|s.svc.acks|], t.log);
        }
    }
  }

  lemma LogOneMore(off: Offline.State, log: seq<Insertion>, x: Insertion)
    requires LogHappened(off, log) && (x.entry.code == 200 ==> Happened(off, x))
    ensures LogHappened(off, log + [x])
  {
  }

  lemma SoundAnswer(acks: seq<Ack>, a: Ack, log: seq<Insertion>)
    requires AcksSound(acks, log)
    requires a.code == 200 ==> AcceptedAs(log, RequestKeyFor(a.sender, a.msgId), a.serverId)
    ensures AcksSound(acks + [a], log)
  {
  }

  lemma CachedAnswer(w: Window, log: seq<Insertion>, key: Key)
    requires CacheInLog(w.cache, log)
    ensures key in w.cache && w.cache[key].code == 200 ==> AcceptedAs(log, key, w.cache[key].serverId)
  {
  }

  lemma SoundReply(s: Server, clock: Clock)
    requires SoundInv(s) && InFlightMatches(s.svc) && Possible(s, HandleReply(clock))
    ensures SoundInv(Act(s, HandleReply(clock)))
  {
    hide Encode, Decode, Offline.Run, OfflineModel.DeliverAll, CacheInLog, AcksSound, LogHappened;
    var t := Act(s, HandleReply(clock));
    match s.off.replies[s.off.handled]
    case OfflineLoaded(_, _) =>
      StillHappened(s.off, t.off, s.log);
    case GroupMembersLoaded(r) =>
      var mid := Offline.Step(s.off, Offline.ReplyHandled);
      if StartsWith(r.token, NOTIFY_PREFIX) {
        EffectsAdd(mid, OnGroupMembersForNotify(s.notifications, r).1);
        StillHappened(s.off, t.off, s.log);
      } else {
        SoundMessageReply(s, mid, r, clock);
      }
  }

  lemma SoundMessageReply(s: Server, mid: Offline.State, r: MembersResult, clock: Clock)
    requires SoundInv(s) && InFlightMatches(s.svc) && mid == s.off.(handled := s.off.handled + 1) && PlainResult(r)
    ensures SoundInv(Perform(s.(off := mid), OnGroupMembersForMessage(s.svc, r, clock), clock.t2))
  {
    hide Prune, Trim, Offline.Run, Recipients, CacheInLog, LogHappened;
    var o := OnGroupMembersForMessage(s.svc, r, clock);
    var t := Perform(s.(off := mid), o, clock.t2);
    EffectsAdd(mid, o.effects);
    StillHappened(s.off, t.off, s.log);
    if r.token in s.svc.pendingGroup {
      var p := s.svc.pendingGroup[r.token];
      assert NamesItsRequest(p);
      if o.inserted.Some? {
        InsertedInLog(s.svc.window, s.log, s.svc.acks, o.inserted.value, clock.t2);
        if o.inserted.value.accepted.Some? { AcceptanceHappens(mid, o.effects, o.inserted.value); }
        LogOneMore(t.off, s.log, o.inserted.value);
      }
      SoundAnswer(s.svc.acks, t.svc.acks[|s.svc.acks|], t.log);
    }
  }

  lemma SoundAct(s: Server, e: ServerEvent)
    requires SoundInv(s) && InFlightMatches(s.svc) && Possible(s, e)
    ensures SoundInv(Act(s, e))
  {
    hide SoundInv;
    match e
    case Outside(o) => SoundOutside(s, o);
    case MembershipChanged(groupId, token, notice) => SoundMembership(s, e);
    case Send(p, clock, serverId, token) => SoundSend(s, p, clock, serverId, token);
    case HandleReply(clock) => SoundReply(s, clock);
  }

  lemma SoundMembership(s: Server, e: ServerEvent)
    requires SoundInv(s) && e.MembershipChanged? && Possible(s, e)
    ensures SoundInv(Act(s, e))
  {
  }

  // ---------------------------------------------------------------- every run

  ghost predicate RunInv(s: Server) {
    WindowInv(s) && SoundInv(s) && OriginInv(s) && Bounded(s.svc)
  }

  lemma RunInvAct(s: Server, e: ServerEvent)
    requires RunInv(s) && GroupInv(s) && Possible(s, e)
    ensures RunInv(Act(s, e))
  {
    hide WindowInv, SoundInv, OriginInv, InFlightMatches, TokensMatch, AnsweredOnce, Bounded, Offline.Step, Offline.Run, Prune, TooLarge, Recipients, Trim;
    WindowAct(s, e);
    SoundAct(s, e);
    OriginAct(s, e);
    match e
    case Send(p, clock, serverId, token) => SendStaysBounded(s.svc, p, clock, serverId, token);
    case HandleReply(clock) =>
      if s.off.replies[s.off.handled].GroupMembersLoaded? {
        ReplyStaysBounded(s.svc, s.off.replies[s.off.handled].result, clock);
      }
    case _ =>
  }

  lemma {:induction false} RunInvEver(events: seq<ServerEvent>)
    ensures RunInv(Runs(Start(), events))
  {
    hide RunInv, GroupInv;
    if events == [] {
      StartIsRunInv();
    } else {
      var front := events[..|events| - 1];
      RunInvEver(front);
      GroupInvEver(front);
      if Possible(Runs(Start(), front), events[|events| - 1]) {
        RunInvAct(Runs(Start(), front), events[|events| - 1]);
      }
    }
  }

  lemma StartIsRunInv()
    ensures RunInv(Start())
  {
  }

  // ---------------------------------------------------------------- the results

  /** A 200 answer, fresh or repeated, names an acceptance that is in the history: it was posted for storage, each
      recipient's packet was handed over or queued, and text, session, sender and recipients are those of a request
      that arrived with the answered key. */
  lemma AnswerMeansAccepted(events: seq<ServerEvent>, i: nat)
    requires i < |Runs(Start(), events).svc.acks| && Runs(Start(), events).svc.acks[i].code == 200
    ensures var s := Runs(Start(), events);
            var a := s.svc.acks[i];
            exists j :: 0 <= j < |s.log| && s.log[j].key == RequestKeyFor(a.sender, a.msgId)
                        && s.log[j].entry.serverId == a.serverId && Happened(s.off, s.log[j])
                        && HasOrigin(s.off, s.requests, s.log[j])
  {
    hide Runs, HasOrigin;
    RunInvEver(events);
    var s := Runs(Start(), events);
    var a := s.svc.acks[i];
    assert AcceptedAs(s.log, RequestKeyFor(a.sender, a.msgId), a.serverId);
    var j :| 0 <= j < |s.log| && s.log[j].key == RequestKeyFor(a.sender, a.msgId)
             && s.log[j].entry.code == 200 && s.log[j].entry.serverId == a.serverId;
    assert Happened(s.off, s.log[j]);
  }

  /** In every run, pruning at any time drops exactly the oldest max(number expired, size - 10000) entries, unless
      a key in the order list was inserted over its own cached answer. */
  lemma RunsPruneOldest(events: seq<ServerEvent>, now: int)
    requires var s := Runs(Start(), events); forall k :: k in s.svc.window.order ==> k !in s.doubled
    ensures var w := Runs(Start(), events).svc.window;
            Tidy(w) && 0 <= DropCount(w, now) <= |w.order| && Prune(w, now) == DropOldest(w, DropCount(w, now))
  {
    RunInvEver(events);
    var s := Runs(Start(), events);
    hide Runs, Prune;
    WindowIsTidy(s.svc.window, s.log, s.clock);
    PruneDropsOldest(s.svc.window, now);
  }

  /** A key is inserted again only more than 600000 ms, or at least 10000 other insertions, after the last time. */
  lemma RepeatsOnlyLate(events: seq<ServerEvent>, i: nat, j: nat)
    requires var s := Runs(Start(), events);
             i < j < |s.log| && s.log[i].key == s.log[j].key && s.log[i].key !in s.doubled
    ensures var s := Runs(Start(), events);
            s.log[j].entry.createdAtMs - s.log[i].entry.createdAtMs > 600000 || j - i - 1 >= 10000
  {
    hide Runs;
    RunInvEver(events);
    assert RepeatsAreLate(Runs(Start(), events).log, Runs(Start(), events).log[i].key);
  }

  /** Until then, sending the same key again repeats the same answer, and stores and delivers nothing. */
  lemma RepeatReplays(events: seq<ServerEvent>, i: nat, p: SendParams, clock: Clock, serverId: MsgId, token: Token)
    requires var s := Runs(Start(), events);
             && Monotone(s.clock, clock) && i < |s.log| && !Outlived(s.log, i, clock.t0)
             && s.log[i].key == RequestKeyFor(p.senderUserId, p.msgId) && s.log[i].key !in s.doubled
    ensures var s := Runs(Start(), events);
            var e := s.log[i].entry;
            var o := ProcessSendMessage(s.svc, p, clock, serverId, token);
            && o.effects == [] && o.inserted.None?
            && o.service.acks == s.svc.acks + [Ack(p.senderSession, p.msgId, e.code, e.message, e.serverId, p.senderUserId, None)]
  {
    hide Runs, Prune, TooLarge, RequestKeyFor;
    RunInvEver(events);
    var s := Runs(Start(), events);
    assert KeyWindow(s.svc.window, s.log, s.clock, s.log[i].key);
    PrunedWindow(s.svc.window, s.log, s.clock, clock.t0);
    StillInWindow(Prune(s.svc.window, clock.t0), s.log, clock.t0, i);
  }

  lemma StillInWindow(w: Window, log: seq<Insertion>, clock: int, i: nat)
    requires |w.order| <= |log| && i < |log| && KeyWindow(w, log, clock, log[i].key) && !Outlived(log, i, clock)
    ensures log[i].key in w.cache && w.cache[log[i].key] == log[i].entry
  {
  }
}
