/** The whole server as a transition system: sessions, offline delivery, message delivery and membership
    notifications, on top of the offline protocol. */
module ServerProtocol {
  import opened Packets
  import opened Wire
  import opened Text
  import opened IdempotencyWindow
  import opened MessageDelivery
  import Offline = OfflineProtocol
  import OfflineModel

  /** `log` lists every insertion into the idempotency cache, `requests` every send_message that arrived, and
      `doubled` the keys that were inserted while an answer for them was still cached. */
  datatype Server = Server(
    off: Offline.State, svc: Service, notifications: Notifications, clock: int,
    log: seq<Insertion>, requests: set<SendParams>, doubled: set<Key>)

  datatype ServerEvent =
    | Outside(e: Offline.Event)
    | Send(p: SendParams, clock: Clock, serverId: MsgId, token: Token)
    | MembershipChanged(groupId: string, token: Token, notice: PendingNotification)
    | HandleReply(clock: Clock)

  function Start(): Server {
    Server(Offline.Initial(), Service(Window(map[], []), {}, map[], []), map[], 0, [], {}, {})
  }

  ghost predicate Asked(posted: seq<DbRequest>, token: Token) {
    exists i :: 0 <= i < |posted| && IsQuery(posted[i], token)
  }

  predicate IsQuery(request: DbRequest, token: Token) {
    request.LoadGroupMembers? && request.token == token
  }

  predicate Monotone(now: int, clock: Clock) {
    now <= clock.t0 <= clock.t1 <= clock.t2
  }

  /** A failed member query reports 404 or 500. */
  predicate PlainResult(r: MembersResult) {
    r.success || r.errorCode == 404 || r.errorCode == 500
  }

  /** Clocks do not run backwards; generated tokens are fresh and carry their prefix, and server ids are not empty. */
  ghost predicate Possible(s: Server, e: ServerEvent) {
    match e
    case Outside(o) =>
      && Offline.Enabled(s.off, o)
      && !o.ReplyHandled? && !o.Signal? && (o.DatabaseStep? ==> PlainResult(o.members))
    case Send(p, clock, serverId, token) =>
      && Monotone(s.clock, clock) && serverId != ""
      && StartsWith(token, MESSAGE_PREFIX) && !Asked(s.off.main.posted, token)
    case MembershipChanged(_, token, notice) =>
      && StartsWith(token, NOTIFY_PREFIX) && !Asked(s.off.main.posted, token) && notice.packet.msgId != ""
    case HandleReply(clock) =>
      Monotone(s.clock, clock) && Offline.Enabled(s.off, Offline.ReplyHandled)
  }

  function Logged(log: seq<Insertion>, x: Option<Insertion>): seq<Insertion> {
    if x.None? then log else log + [x.value]
  }

  function Perform(s: Server, o: Outcome, now: int): Server {
    s.(off := Offline.Run(s.off, o.effects), svc := o.service, log := Logged(s.log, o.inserted), clock := now)
  }

  function Overwritten(w: Window, x: Option<Insertion>): set<Key> {
    if x.Some? && x.value.key in w.cache then {x.value.key} else {}
  }

  /** Results of member queries go to the service whose prefix the token carries. */
  function Dispatch(s: Server, r: MembersResult, clock: Clock): Server {
    if StartsWith(r.token, NOTIFY_PREFIX) then
      var (rest, effects) := OnGroupMembersForNotify(s.notifications, r);
      s.(off := Offline.Run(s.off, effects), notifications := rest, clock := clock.t2)
    else
      var o := OnGroupMembersForMessage(s.svc, r, clock);
      Perform(s.(doubled := s.doubled + Overwritten(s.svc.window, o.inserted)), o, clock.t2)
  }

  function Act(s: Server, e: ServerEvent): Server
    requires Possible(s, e)
  {
    match e
    case Outside(o) => s.(off := Offline.Step(s.off, o))
    case Send(p, clock, serverId, token) =>
      Perform(s.(requests := s.requests + {p}), ProcessSendMessage(s.svc, p, clock, serverId, token), clock.t2)
    case MembershipChanged(groupId, token, notice) =>
      s.(off := Offline.Step(s.off, Offline.Signal(LoadGroupMembers(groupId, token))),
         notifications := s.notifications[token := notice])
    case HandleReply(clock) =>
      var t := s.(off := Offline.Step(s.off, Offline.ReplyHandled), clock := clock.t2);
      match s.off.replies[s.off.handled]
      case OfflineLoaded(_, _) => t
      case GroupMembersLoaded(r) => Dispatch(t, r, clock)
  }

  /** A run. An event that is not possible in the state it meets is skipped. */
  ghost function Runs(s: Server, events: seq<ServerEvent>): Server {
    if events == [] then s
    else
      var before := Runs(s, events[..|events| - 1]);
      var e := events[|events| - 1];
      if Possible(before, e) then Act(before, e) else before
  }

  // ---------------------------------------------------------------- effects on the offline protocol

  /** Effects only add to the logs, and serve nothing. */
  ghost predicate Added(a: Offline.State, b: Offline.State) {
    && b.consumed == a.consumed && b.handled == a.handled && b.replies == a.replies && b.table == a.table
    && a.main.posted <= b.main.posted && a.hist.submitted <= b.hist.submitted
  }

  ghost predicate NoQueries(effects: seq<Effect>) {
    forall i :: 0 <= i < |effects| && effects[i].Signal? ==> !effects[i].request.LoadGroupMembers?
  }

  lemma {:induction false} EffectsAdd(off: Offline.State, effects: seq<Effect>)
    ensures Added(off, Offline.Run(off, effects))
  {
    hide OfflineModel.Login, OfflineModel.ReceivedAck, OfflineModel.OnOfflineLoaded, OfflineModel.Detach, Decode, Encode;
    if effects != [] {
      EffectsAdd(off, effects[..|effects| - 1]);
    }
  }

  lemma {:induction false} EffectsAskNothing(off: Offline.State, effects: seq<Effect>)
    requires NoQueries(effects)
    ensures forall i :: |off.main.posted| <= i < |Offline.Run(off, effects).main.posted| ==>
              !Offline.Run(off, effects).main.posted[i].LoadGroupMembers?
  {
    hide OfflineModel.Login, OfflineModel.ReceivedAck, OfflineModel.OnOfflineLoaded, OfflineModel.Detach, Decode, Encode;
    if effects != [] {
      EffectsAdd(off, effects[..|effects| - 1]);
      EffectsAskNothing(off, effects[..|effects| - 1]);
    }
  }

  /** Requests signalled are posted; packets submitted are in the ledger. */
  lemma {:induction false} EffectsHappen(off: Offline.State, effects: seq<Effect>, i: nat)
    requires i < |effects|
    ensures var t := Offline.Run(off, effects);
            && (effects[i].Signal? ==> effects[i].request in t.main.posted)
            && (effects[i].Submit? && effects[i].packet.msgId != "" ==>
                  Parcel(effects[i].recipient, Encode(effects[i].packet)) in t.hist.submitted)
  {
    hide OfflineModel.Login, OfflineModel.ReceivedAck, OfflineModel.OnOfflineLoaded, OfflineModel.Detach, Decode, Encode;
    var n := |effects| - 1;
    EffectsAdd(off, effects[..n]);
    if i < n {
      EffectsHappen(off, effects[..n], i);
    }
  }
}
