/** Runs in which load results list a row more than once. */
module QueueRuns {
  import opened Packets
  import opened Wire
  import opened OfflineModel
  import opened DeliveryLoop
  import opened OfflineProtocol
  import opened NoStrandedMessage
  import opened QuiescentQueue

  const NOBODY := MembersResult("", "", [], "", false, 404, "")
  const SERVE := DatabaseStep(NOBODY)

  function Queued(p: Packet): Parcel {
    Parcel("u", Encode(p))
  }

  function Listed(p: Packet): seq<QueuedPacket> {
    [QueuedPacket(1, Encode(p))]
  }

  /** A receive_message packet with a msgId, as the server queues them. */
  predicate Chat(p: Packet) {
    p.cmd == ReceiveMessage && p.msgId != ""
  }

  // ---------------------------------------------------------------- handling the row

  lemma Delivered(m: Main, conn: ConnId, p: Packet)
    requires Chat(p) && m.pendingAckIds == map[] && FindByUserId(m, "u") == Some(conn) && m.connections[conn] == "u"
    ensures OnOfflineLoaded(m, "u", Listed(p)) ==
            m.(pendingAckIds := map["u" := map[p.msgId := 1]], sent := m.sent + [Handoff(conn, "u", "u", p)])
  {
    hide Encode;
    DecodeEncode(p);
    hide Decode;
    assert Listed(p)[..0] == [];
    assert DeliverAll(map[], "u", true, Listed(p)) == Progress(map["u" := map[p.msgId := 1]], [], [p], false);
    hide DeliverAll;
    assert HandoffsFor(m, "u", [p]) == [Handoff(conn, "u", "u", p)];
  }

  /** While its own entry is pending the row is reported, to a user online or not. */
  lemma Reported(m: Main, p: Packet)
    requires Chat(p) && m.pendingAckIds == map["u" := map[p.msgId := 1]]
    ensures OnOfflineLoaded(m, "u", Listed(p)) == m.(posted := m.posted + [MarkDelivered([1])])
  {
    hide Encode;
    DecodeEncode(p);
    hide Decode;
    assert Listed(p)[..0] == [];
    assert DeliverAll(m.pendingAckIds, "u", Online(m, "u"), Listed(p)) == Progress(m.pendingAckIds, [1], [], false);
    hide DeliverAll;
    assert m.sent + HandoffsFor(m, "u", []) == m.sent;
  }

  lemma HandlesResult(s: State, packets: seq<QueuedPacket>)
    requires s.handled < |s.replies| && s.replies[s.handled] == OfflineLoaded("u", packets)
    ensures var main := OnOfflineLoaded(s.main, "u", packets);
            Step(s, ReplyHandled) ==
            s.(main := main, handled := s.handled + 1,
               hist := Loaded(s.hist, "u", packets, Held(s.main.pendingAckIds, "u"), Held(main.pendingAckIds, "u")))
  {
    hide OnOfflineLoaded, Loaded;
  }

  lemma RecordedFirst(hist: History, p: Packet)
    ensures Loaded(hist, "u", Listed(p), map[], map[p.msgId := 1]) == hist.(held := hist.held + {("u", p.msgId, 1)})
  {
    hide Decode, Encode;
    var after: map<MsgId, nat> := map[p.msgId := 1];
    var made: set<(UserId, MsgId, nat)> := set m | m in after :: ("u", m, after[m]);
    assert p.msgId in after && ("u", p.msgId, 1) in made;
    assert made == {("u", p.msgId, 1)};
    assert (set q | q in Listed(p) && HeldItself(map[], q) :: q.id) == {};
  }

  lemma RecordedAgain(hist: History, p: Packet)
    requires Chat(p) && ("u", p.msgId, 1) in hist.held
    ensures Loaded(hist, "u", Listed(p), map[p.msgId := 1], map[p.msgId := 1]) == hist.(reloaded := hist.reloaded + {1})
  {
    EncodedIsReadable(p);
    hide Decode, Encode;
    var held: map<MsgId, nat> := map[p.msgId := 1];
    assert hist.held + (set m | m in held :: ("u", m, held[m])) == hist.held;
    assert HeldItself(held, Listed(p)[0]);
    assert (set q | q in Listed(p) && HeldItself(held, q) :: q.id) == {1};
  }

  lemma LoadsRow(s: State, p: Packet)
    requires s.consumed < |s.main.posted| && s.main.posted[s.consumed] == LoadOffline("u") && s.table.rows == [Row(1, Queued(p))]
    ensures Step(s, SERVE) == s.(consumed := s.consumed + 1, replies := s.replies + [OfflineLoaded("u", Listed(p))])
  {
    hide Encode, Select;
    SelectOne(Row(1, Queued(p)));
    assert s.table.rows == [Row(1, Queued(p))];
  }

  lemma SelectOne(r: Row)
    ensures Select([r], r.parcel.recipient) == [QueuedPacket(r.id, r.parcel.doc)]
  {
    assert [r][..0] == [];
    assert Select([r][..0], r.parcel.recipient) == [];
  }

  lemma DeletesRow(s: State, p: Packet)
    requires s.consumed < |s.main.posted| && s.main.posted[s.consumed] == MarkDelivered([1]) && s.table.rows == [Row(1, Queued(p))]
    ensures Step(s, SERVE) == s.(consumed := s.consumed + 1, table := s.table.(rows := []),
                                 hist := s.hist.(deleted := s.hist.deleted + [Row(1, Queued(p))]))
  {
    hide Encode, Keep;
    KeepOne(Row(1, Queued(p)));
    assert s.table.rows == [Row(1, Queued(p))];
  }

  lemma KeepOne(r: Row)
    requires r.id == 1
    ensures Keep([r], [1], true) == [r] && Keep([r], [1], false) == []
  {
    assert [r][..0] == [];
    assert Keep([r][..0], [1], true) == [] && Keep([r][..0], [1], false) == [];
    assert r.id in [1];
  }

  // ---------------------------------------------------------------- the beginning of all the runs

  /** The packet is queued while its recipient is offline, who then logs in. */
  function QueuedThenLogin(p: Packet): seq<Event> {
    [Submit("u", p), SERVE, Connected("a"), LoggedIn("a", "u")]
  }

  function LoggedInOnce(p: Packet): State {
    State(Main(map["a" := "u"], map["u" := "a"], map[], [], [QueueOffline(Queued(p)), LoadOffline("u")]),
          Table([Row(1, Queued(p))], 2), 1, [], 0,
          History({"a"}, {("a", "u")}, [Queued(p)], [], [Row(1, Queued(p))], [], {}, {}, {}))
  }

  lemma ReachesLogin(p: Packet)
    requires Chat(p)
    ensures Run(Initial(), QueuedThenLogin(p)) == LoggedInOnce(p)
  {
    hide Encode, Decode, Run;
    FourEvents(Initial(), Submit("u", p), SERVE, Connected("a"), LoggedIn("a", "u"));
    var s := Run(Initial(), QueuedThenLogin(p));
    assert s.main == LoggedInOnce(p).main;
    assert s.hist == LoggedInOnce(p).hist;
  }

  // ---------------------------------------------------------------- a second login before the ack

  function SecondLogin(p: Packet): seq<Event> {
    QueuedThenLogin(p) + [SERVE, ReplyHandled, Connected("b"), LoggedIn("b", "u")] + [SERVE, ReplyHandled, SERVE]
  }

  function FirstHandled(p: Packet): State {
    var s := LoggedInOnce(p);
    s.(main := s.main.(pendingAckIds := map["u" := map[p.msgId := 1]], sent := [Handoff("a", "u", "u", p)]),
       consumed := 2, replies := [OfflineLoaded("u", Listed(p))], handled := 1, hist := s.hist.(held := {("u", p.msgId, 1)}))
  }

  lemma HandlesFirst(p: Packet)
    requires Chat(p)
    ensures Step(Step(LoggedInOnce(p), SERVE), ReplyHandled) == FirstHandled(p)
  {
    var s := LoggedInOnce(p);
    hide Encode, Decode, Step, OnOfflineLoaded;
    LoadsRow(s, p);
    Delivered(s.main, "a", p);
    HandlesResult(Step(s, SERVE), Listed(p));
    RecordedFirst(s.hist, p);
  }

  function LoggedInElsewhere(p: Packet): State {
    var s := FirstHandled(p);
    s.(main := s.main.(connections := map["a" := "u", "b" := "u"], userMap := map["u" := "b"],
                       posted := s.main.posted + [LoadOffline("u")]),
       hist := s.hist.(usedConns := {"a", "b"}, logins := {("a", "u"), ("b", "u")}))
  }

  lemma LogsInElsewhere(p: Packet)
    ensures Step(Step(FirstHandled(p), Connected("b")), LoggedIn("b", "u")) == LoggedInElsewhere(p)
  {
    hide Encode, Decode, OnOfflineLoaded;
    var t := Step(Step(FirstHandled(p), Connected("b")), LoggedIn("b", "u"));
    assert t.main == LoggedInElsewhere(p).main;
    assert t.hist == LoggedInElsewhere(p).hist;
  }

  lemma ReachesElsewhere(p: Packet)
    requires Chat(p)
    ensures Run(Initial(), QueuedThenLogin(p) + [SERVE, ReplyHandled, Connected("b"), LoggedIn("b", "u")]) == LoggedInElsewhere(p)
  {
    hide Encode, Decode, Run, OnOfflineLoaded, QueuedThenLogin;
    ReachesLogin(p);
    HandlesFirst(p);
    LogsInElsewhere(p);
    LoadsRow(LoggedInOnce(p), p);
    assert Enabled(Step(FirstHandled(p), Connected("b")), LoggedIn("b", "u"));
    hide Step;
    FourEvents(LoggedInOnce(p), SERVE, ReplyHandled, Connected("b"), LoggedIn("b", "u"));
    RunTogether(Initial(), QueuedThenLogin(p), [SERVE, ReplyHandled, Connected("b"), LoggedIn("b", "u")]);
  }

  function RemovedAsDuplicate(p: Packet): State {
    var s := LoggedInElsewhere(p);
    s.(main := s.main.(posted := s.main.posted + [MarkDelivered([1])]), consumed := 4, handled := 2,
       replies := [OfflineLoaded("u", Listed(p)), OfflineLoaded("u", Listed(p))], table := Table([], 2),
       hist := s.hist.(reloaded := {1}, deleted := [Row(1, Queued(p))]))
  }

  lemma RemovesDuplicate(p: Packet)
    requires Chat(p)
    ensures var s := LoggedInElsewhere(p);
            Enabled(s, SERVE) && Enabled(Step(s, SERVE), ReplyHandled) && Enabled(Step(Step(s, SERVE), ReplyHandled), SERVE)
            && Step(Step(Step(s, SERVE), ReplyHandled), SERVE) == RemovedAsDuplicate(p)
  {
    var s := LoggedInElsewhere(p);
    hide Encode, Decode, Step, OnOfflineLoaded;
    LoadsRow(s, p);
    Reported(s.main, p);
    HandlesResult(Step(s, SERVE), Listed(p));
    RecordedAgain(s.hist, p);
    DeletesRow(Step(Step(s, SERVE), ReplyHandled), p);
  }

  /** The only copy of a message is deleted although nobody acknowledged it; it was sent once, to the first
      connection, and its recipient is online on the second. */
  lemma SecondLoginDeletesUnacked(p: Packet)
    requires Chat(p)
    ensures var s := Run(Initial(), SecondLogin(p));
            && s.hist.deleted == [Row(1, Queued(p))] && s.hist.issued == s.hist.deleted
            && s.hist.acked == {} && s.main.sent == [Handoff("a", "u", "u", p)]
            && FindByUserId(s.main, "u") == Some("b")
            && s.table.rows == [] && s.main.pendingAckIds == map["u" := map[p.msgId := 1]]
            && s.consumed == |s.main.posted| && s.handled == |s.replies|
  {
    hide Encode, Decode, Run, Step, Enabled, QueuedThenLogin;
    ReachesElsewhere(p);
    RemovesDuplicate(p);
    ThreeEvents(LoggedInElsewhere(p), SERVE, ReplyHandled, SERVE);
    RunTogether(Initial(), QueuedThenLogin(p) + [SERVE, ReplyHandled, Connected("b"), LoggedIn("b", "u")], [SERVE, ReplyHandled, SERVE]);
  }

  // ---------------------------------------------------------------- two load results at once

  /** The connection logs in again at once, both loads are served, and the first result is handled. */
  function TwoLoads(p: Packet): seq<Event> {
    QueuedThenLogin(p) + [LoggedIn("a", "u"), SERVE, SERVE, ReplyHandled]
  }

  function LoggedInTwice(p: Packet): State {
    var s := LoggedInOnce(p);
    s.(main := s.main.(posted := s.main.posted + [LoadOffline("u")]))
  }

  function OneHandled(p: Packet): State {
    var s := LoggedInTwice(p);
    s.(main := s.main.(pendingAckIds := map["u" := map[p.msgId := 1]], sent := [Handoff("a", "u", "u", p)]),
       consumed := 3, replies := [OfflineLoaded("u", Listed(p)), OfflineLoaded("u", Listed(p))], handled := 1,
       hist := s.hist.(held := {("u", p.msgId, 1)}))
  }

  lemma LogsInAgain(p: Packet)
    ensures Step(LoggedInOnce(p), LoggedIn("a", "u")) == LoggedInTwice(p)
  {
    hide Encode;
    assert Step(LoggedInOnce(p), LoggedIn("a", "u")).main == LoggedInTwice(p).main;
  }

  lemma HandlesOne(p: Packet)
    requires Chat(p)
    ensures var s := LoggedInTwice(p);
            Enabled(s, SERVE) && Enabled(Step(s, SERVE), SERVE) && Enabled(Step(Step(s, SERVE), SERVE), ReplyHandled)
            && Step(Step(Step(s, SERVE), SERVE), ReplyHandled) == OneHandled(p)
  {
    var s := LoggedInTwice(p);
    hide Encode, Decode, Step, OnOfflineLoaded;
    LoadsRow(s, p);
    LoadsRow(Step(s, SERVE), p);
    Delivered(s.main, "a", p);
    HandlesResult(Step(Step(s, SERVE), SERVE), Listed(p));
    RecordedFirst(s.hist, p);
  }

  lemma ReachesOneHandled(p: Packet)
    requires Chat(p)
    ensures Run(Initial(), TwoLoads(p)) == OneHandled(p)
  {
    hide Encode, Decode, Run, OnOfflineLoaded, QueuedThenLogin;
    ReachesLogin(p);
    LogsInAgain(p);
    HandlesOne(p);
    hide Step;
    FourEvents(LoggedInOnce(p), LoggedIn("a", "u"), SERVE, SERVE, ReplyHandled);
    RunTogether(Initial(), QueuedThenLogin(p), [LoggedIn("a", "u"), SERVE, SERVE, ReplyHandled]);
  }

  // ---------------------------------------------------------------- acknowledged, then listed again

  function AckedBetween(p: Packet): seq<Event> {
    TwoLoads(p) + [AckArrived("u", p.msgId), ReplyHandled, SERVE]
  }

  function Acked(p: Packet): State {
    var s := OneHandled(p);
    s.(main := s.main.(pendingAckIds := map[], posted := s.main.posted + [MarkDelivered([1])]),
       hist := s.hist.(acked := {("u", p.msgId)}))
  }

  function PendingAgain(p: Packet): State {
    var s := Acked(p);
    s.(main := s.main.(pendingAckIds := map["u" := map[p.msgId := 1]], sent := s.main.sent + [Handoff("a", "u", "u", p)]),
       consumed := 4, handled := 2, table := Table([], 2), hist := s.hist.(deleted := [Row(1, Queued(p))]))
  }

  lemma AckErases(p: Packet)
    requires p.msgId != ""
    ensures Step(OneHandled(p), AckArrived("u", p.msgId)) == Acked(p)
  {
    hide Encode, Decode;
    assert map[p.msgId := 1 as nat] - {p.msgId} == map[];
    assert Step(OneHandled(p), AckArrived("u", p.msgId)).main.pendingAckIds == map[];
  }

  lemma ListsAgain(p: Packet)
    requires Chat(p)
    ensures Enabled(Acked(p), ReplyHandled) && Enabled(Step(Acked(p), ReplyHandled), SERVE)
    ensures Step(Step(Acked(p), ReplyHandled), SERVE) == PendingAgain(p)
  {
    var s := Acked(p);
    hide Encode, Decode, Step, OnOfflineLoaded;
    Delivered(s.main, "a", p);
    HandlesResult(s, Listed(p));
    RecordedFirst(s.hist, p);
    assert s.hist.held + {("u", p.msgId, 1)} == s.hist.held;
    DeletesRow(Step(s, ReplyHandled), p);
  }

  /** The ack of the first delivery erases the entry and posts the deletion; the second result then makes the entry
      again, for a row that is about to go. No load result met a pending entry. */
  lemma AckedRowPendingAgain(p: Packet)
    requires Chat(p)
    ensures var s := Run(Initial(), AckedBetween(p));
            && s.consumed == |s.main.posted| && s.handled == |s.replies| && Online(s.main, "u")
            && AwaitsAck(s.main, Row(1, Queued(p))) && s.hist.issued == [Row(1, Queued(p))] && s.table.rows == []
            && s.hist.reloaded == {} && s.main.sent == [Handoff("a", "u", "u", p), Handoff("a", "u", "u", p)]
  {
    hide Encode, Decode, Run, Step, TwoLoads;
    ReachesOneHandled(p);
    AckErases(p);
    ListsAgain(p);
    EncodedIsReadable(p);
    ThreeEvents(OneHandled(p), AckArrived("u", p.msgId), ReplyHandled, SERVE);
    RunTogether(Initial(), TwoLoads(p), [AckArrived("u", p.msgId), ReplyHandled, SERVE]);
  }

  // ---------------------------------------------------------------- removed while nobody is online

  function LeftBetween(p: Packet): seq<Event> {
    TwoLoads(p) + [LoggedIn("a", "v"), Disconnected("a"), ReplyHandled] + [SERVE, SERVE]
  }

  function Left(p: Packet): State {
    var s := OneHandled(p);
    s.(main := s.main.(connections := map[], posted := s.main.posted + [LoadOffline("v")]),
       hist := s.hist.(logins := {("a", "u"), ("a", "v")}))
  }

  lemma Leaves(p: Packet)
    ensures Step(Step(OneHandled(p), LoggedIn("a", "v")), Disconnected("a")) == Left(p)
  {
    hide Encode, Decode;
    var t := Step(Step(OneHandled(p), LoggedIn("a", "v")), Disconnected("a"));
    assert t.main.connections == map[] && t.main.userMap == map["u" := "a"];
    assert t.main.pendingAckIds == map["u" := map[p.msgId := 1]];
  }

  function ReportedOffline(p: Packet): State {
    var s := Left(p);
    s.(main := s.main.(posted := s.main.posted + [MarkDelivered([1])]), handled := 2, hist := s.hist.(reloaded := {1}))
  }

  lemma ReportsOffline(p: Packet)
    requires Chat(p)
    ensures Enabled(Left(p), ReplyHandled) && Step(Left(p), ReplyHandled) == ReportedOffline(p)
  {
    var s := Left(p);
    hide Encode, Decode, Step, OnOfflineLoaded;
    Reported(s.main, p);
    HandlesResult(s, Listed(p));
    RecordedAgain(s.hist, p);
  }

  lemma ReachesReportedOffline(p: Packet)
    requires Chat(p)
    ensures Run(Initial(), TwoLoads(p) + [LoggedIn("a", "v"), Disconnected("a"), ReplyHandled]) == ReportedOffline(p)
  {
    hide Encode, Decode, Run, Step, TwoLoads;
    ReachesOneHandled(p);
    Leaves(p);
    ReportsOffline(p);
    ThreeEvents(OneHandled(p), LoggedIn("a", "v"), Disconnected("a"), ReplyHandled);
    RunTogether(Initial(), TwoLoads(p), [LoggedIn("a", "v"), Disconnected("a"), ReplyHandled]);
  }

  lemma ServesTwice(p: Packet)
    ensures var t := Run(ReportedOffline(p), [SERVE, SERVE]);
            t.hist.deleted == [Row(1, Queued(p))] && t.table.rows == [] && t.hist.acked == {} && t.main == ReportedOffline(p).main
  {
    hide Encode, Decode;
    var s := ReportedOffline(p);
    var t := Step(s, SERVE);
    assert t.main == s.main && t.table == s.table && t.hist == s.hist && t.consumed == 4;
    DeletesRow(t, p);
    hide Step;
    RunFrom(s, SERVE, [SERVE]);
    OneEvent(t, SERVE);
    assert [SERVE, SERVE] == [SERVE] + [SERVE];
  }

  /** The connection logs in as somebody else and goes away, which leaves the entry; the second result then deletes
      the row although nobody acknowledged it and its recipient is not online. */
  lemma OfflineDeletesUnacked(p: Packet)
    requires Chat(p)
    ensures var s := Run(Initial(), LeftBetween(p));
            && s.hist.deleted == [Row(1, Queued(p))] && s.table.rows == [] && s.hist.acked == {}
            && s.main.connections == map[] && !Online(s.main, "u")
  {
    hide Encode, Decode, Run, TwoLoads;
    ReachesReportedOffline(p);
    ServesTwice(p);
    RunTogether(Initial(), TwoLoads(p) + [LoggedIn("a", "v"), Disconnected("a"), ReplyHandled], [SERVE, SERVE]);
  }

  // ---------------------------------------------------------------- what the runs say about the queue

  /** Both ways in which an entry comes to outlive its row happen: a second login while the row awaits its ack, and
      a second load result after the ack. */
  lemma EntriesOutliveRows(p: Packet)
    requires Chat(p)
    ensures var r := Row(1, Queued(p));
            && AwaitsAck(Run(Initial(), SecondLogin(p)).main, r) && r !in Run(Initial(), SecondLogin(p)).table.rows
            && Spoiled(SecondLogin(p), 1)
            && AwaitsAck(Run(Initial(), AckedBetween(p)).main, r) && r !in Run(Initial(), AckedBetween(p)).table.rows
            && Spoiled(AckedBetween(p), 1) && Run(Initial(), AckedBetween(p)).hist.reloaded == {}
  {
    SecondLoginDeletesUnacked(p);
    AckedRowPendingAgain(p);
    EncodedIsReadable(p);
    hide Encode, Decode, Run, SecondLogin, AckedBetween, Spoiled, PacketIn, Readable;
    EntryOutlivesRowIff(SecondLogin(p), "u", p.msgId);
    EntryOutlivesRowIff(AckedBetween(p), "u", p.msgId);
  }
}
