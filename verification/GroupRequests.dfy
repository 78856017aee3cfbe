/** Group requests waiting for their result on the server. They are remembered under the msgId that the client
    chose; results come back in the order of the requests. */
module GroupRequests {
  import opened Packets
  import opened Wire
  import MD = MessageDelivery

  datatype Operation = AddOp | RemoveOp | LeaveOp

  datatype PendingRequest = PendingRequest(session: ConnId, operation: Operation, groupName: string)

  datatype Request = Request(reqMsgId: MsgId, pending: PendingRequest)

  datatype Result =
    | Created(reqMsgId: MsgId, groupId: string, success: bool)
    | MemberOp(reqMsgId: MsgId, groupId: string, targetUserId: UserId, success: bool)

  /** What is signalled to the group repository. */
  datatype RepositoryRequest =
    | CreateGroupRequest(reqMsgId: MsgId, groupName: string, creatorUserId: UserId, memberUserIds: seq<string>)
    | MemberOpRequest(reqMsgId: MsgId, groupId: string, targetUserId: UserId, operatorUserId: UserId, operation: Operation)

  /** The operation that the answer to a request is worded with. */
  function OperationOf(r: RepositoryRequest): Operation {
    if r.CreateGroupRequest? then AddOp else r.operation
  }

  /** `pending` names the remembered request by its position in `asked`; `since` tells how many results had been
      handled when each request was made; `answers` tells which request's record each result was answered with. */
  datatype Desk = Desk(pending: map<MsgId, nat>, asked: seq<Request>, since: seq<nat>, answers: seq<Option<nat>>)

  datatype Event = Ask(request: Request) | ResultArrives

  const NEW_DESK := Desk(map[], [], [], [])

  function Act(d: Desk, e: Event): Desk {
    match e
    case Ask(request) =>
      Desk(d.pending[request.reqMsgId := |d.asked|], d.asked + [request], d.since + [|d.answers|], d.answers)
    case ResultArrives =>
      if |d.answers| >= |d.asked| then d
      else
        var m := d.asked[|d.answers|].reqMsgId;
        d.(pending := d.pending - {m}, answers := d.answers + [if m in d.pending then Some(d.pending[m]) else None])
  }

  /** The record that result `k` is answered with. */
  function RecordUsed(d: Desk, k: nat): Option<PendingRequest> {
    if k < |d.answers| && d.answers[k].Some? && d.answers[k].value < |d.asked| then Some(d.asked[d.answers[k].value].pending) else None
  }

  function Run(events: seq<Event>): Desk {
    if events == [] then NEW_DESK else Act(Run(events[..|events| - 1]), events[|events| - 1])
  }

  // ---------------------------------------------------------------- who gets which answer

  predicate SameId(d: Desk, i: nat, j: nat)
    requires i < |d.asked| && j < |d.asked|
  {
    d.asked[i].reqMsgId == d.asked[j].reqMsgId
  }

  /** The later of two requests was made before the earlier one's result was handled. */
  predicate Overlap(d: Desk, i: nat, j: nat)
    requires |d.since| == |d.asked| && i < |d.asked| && j < |d.asked|
  {
    if i < j then d.since[j] <= i else d.since[i] <= j
  }

  /** No other request with the same msgId was waiting at the same time. */
  ghost predicate Alone(d: Desk, i: nat)
    requires |d.since| == |d.asked| && i < |d.asked|
  {
    forall j :: 0 <= j < |d.asked| && j != i && SameId(d, i, j) ==> !Overlap(d, i, j)
  }

  predicate CountsOk(d: Desk) {
    && |d.since| == |d.asked| && |d.answers| <= |d.asked|
    && (forall i :: 0 <= i < |d.since| ==> d.since[i] <= i && d.since[i] <= |d.answers|)
  }

  /** Request `i` is the last with its msgId, and no result with that msgId was handled since. */
  ghost predicate Waiting(d: Desk, i: nat)
    requires CountsOk(d) && i < |d.asked|
  {
    && (forall j :: i < j < |d.asked| ==> !SameId(d, i, j))
    && (forall k :: d.since[i] <= k < |d.answers| ==> !SameId(d, i, k))
  }

  /** What is remembered is exactly the waiting requests. */
  ghost predicate RemembersWaiting(d: Desk)
    requires CountsOk(d)
  {
    && (forall m :: m in d.pending ==> d.pending[m] < |d.asked| && d.asked[d.pending[m]].reqMsgId == m && Waiting(d, d.pending[m]))
    && (forall i :: 0 <= i < |d.asked| && Waiting(d, i) ==> d.asked[i].reqMsgId in d.pending && d.pending[d.asked[i].reqMsgId] == i)
  }

  ghost predicate OwnAnswers(d: Desk)
    requires CountsOk(d)
  {
    forall i :: 0 <= i < |d.answers| ==> (d.answers[i] == Some(i) <==> Alone(d, i))
  }

  ghost predicate DeskInv(d: Desk) {
    CountsOk(d) && RemembersWaiting(d) && OwnAnswers(d)
  }

  lemma AskSame(d: Desk, r: Request, i: nat)
    requires CountsOk(d) && i < |d.asked|
    ensures CountsOk(Act(d, Ask(r)))
    ensures Waiting(Act(d, Ask(r)), i) <==> Waiting(d, i) && d.asked[i].reqMsgId != r.reqMsgId
    ensures i < |d.answers| ==> (Alone(Act(d, Ask(r)), i) <==> Alone(d, i))
  {
    var e, n := Act(d, Ask(r)), |d.asked|;
    assert SameId(e, i, n) <==> d.asked[i].reqMsgId == r.reqMsgId;
    assert i < |d.answers| ==> !Overlap(e, i, n);
    assert forall j :: 0 <= j < n ==> SameId(e, i, j) == SameId(d, i, j) && Overlap(e, i, j) == Overlap(d, i, j);
  }

  lemma AskKeeps(d: Desk, r: Request)
    requires DeskInv(d)
    ensures DeskInv(Act(d, Ask(r)))
  {
    var e, n := Act(d, Ask(r)), |d.asked|;
    forall i | 0 <= i < n
      ensures Waiting(e, i) <==> Waiting(d, i) && d.asked[i].reqMsgId != r.reqMsgId
      ensures i < |d.answers| ==> (Alone(e, i) <==> Alone(d, i))
    {
      AskSame(d, r, i);
    }
    assert Waiting(e, n);
    hide Waiting, Alone;
  }

  lemma ResultSame(d: Desk, j: nat)
    requires CountsOk(d) && |d.answers| < |d.asked| && j < |d.asked|
    ensures CountsOk(Act(d, ResultArrives))
    ensures Waiting(Act(d, ResultArrives), j) <==> Waiting(d, j) && !SameId(d, j, |d.answers|)
    ensures Alone(Act(d, ResultArrives), j) <==> Alone(d, j)
  {
    var e := Act(d, ResultArrives);
    assert forall k :: 0 <= k < |d.asked| ==> SameId(e, j, k) == SameId(d, j, k) && Overlap(e, j, k) == Overlap(d, j, k);
  }

  lemma ResultForgets(d: Desk)
    requires CountsOk(d) && RemembersWaiting(d) && |d.answers| < |d.asked|
    ensures RemembersWaiting(Act(d, ResultArrives))
  {
    var e := Act(d, ResultArrives);
    forall j | 0 <= j < |d.asked| ensures Waiting(e, j) <==> Waiting(d, j) && !SameId(d, j, |d.answers|) { ResultSame(d, j); }
    hide Waiting;
  }

  lemma ResultKeeps(d: Desk)
    requires DeskInv(d)
    ensures DeskInv(Act(d, ResultArrives))
  {
    var e, i := Act(d, ResultArrives), |d.answers|;
    if i < |d.asked| {
      ResultForgets(d);
      forall j | 0 <= j < |d.asked| ensures Alone(e, j) <==> Alone(d, j) { ResultSame(d, j); }
      WaitingIsAlone(d, i);
      NextAnswer(d);
      hide Waiting, Alone, RemembersWaiting;
    }
  }

  lemma NextAnswer(d: Desk)
    requires CountsOk(d) && RemembersWaiting(d) && |d.answers| < |d.asked|
    ensures CountsOk(Act(d, ResultArrives))
    ensures Act(d, ResultArrives).answers[|d.answers|] == Some(|d.answers|) <==> Waiting(d, |d.answers|)
  {
  }

  /** For the request whose result comes next. */
  lemma WaitingIsAlone(d: Desk, i: nat)
    requires CountsOk(d) && i == |d.answers| < |d.asked|
    ensures Waiting(d, i) <==> Alone(d, i)
  {
  }

  /** In every run: a request is answered with its own record exactly when no other request with the same msgId
      was waiting at the same time. The ids of two clients can meet, and then the later request takes the
      earlier one's answer and its own result is dropped. */
  lemma {:induction false} OwnAnswerIff(events: seq<Event>)
    ensures DeskInv(Run(events))
    ensures forall i :: 0 <= i < |Run(events).answers| ==> (Run(events).answers[i] == Some(i) <==> Alone(Run(events), i))
  {
    hide Act;
    if events == [] {
      NewDeskFine();
    } else {
      var n := |events| - 1;
      OwnAnswerIff(events[..n]);
      match events[n]
      case Ask(r) => AskKeeps(Run(events[..n]), r);
      case ResultArrives => ResultKeeps(Run(events[..n]));
    }
  }

  lemma NewDeskFine()
    ensures DeskInv(NEW_DESK)
  {
  }

  /** Two clients that use the same msgId at the same time: the first result goes to the second client. */
  lemma MetIds(first: PendingRequest, second: PendingRequest)
    ensures var d := Run([Ask(Request("1", first)), Ask(Request("1", second)), ResultArrives, ResultArrives]);
            d.answers == [Some(1), None]
  {
    var a, b := Request("1", first), Request("1", second);
    var es := [Ask(a), Ask(b), ResultArrives, ResultArrives];
    assert es[..3][..2] == es[..2] && es[..2][..1] == es[..1] && es[..1][..0] == [];
    assert Run(es[..1]) == Desk(map["1" := 0], [a], [0], []);
    assert Run(es[..2]) == Desk(map["1" := 1], [a, b], [0, 0], []);
    assert Run(es[..3]) == Desk(map[], [a, b], [0, 0], [Some(1)]);
  }

  // ---------------------------------------------------------------- notifications

  function OperationName(operation: Operation): string {
    match operation
    case AddOp => "add_member"
    case RemoveOp => "remove_member"
    case LeaveOp => "leave_group"
  }

  /** The notification for a successful result; a removed or gone user is told as well. */
  function NoticeFor(p: PendingRequest, result: Result, packetId: MsgId, operatorUserId: UserId): MD.PendingNotification {
    match result
    case Created(_, groupId, _) =>
      MD.PendingNotification(
        Packet(GroupMemberChanged, packetId, MD.PROTOCOL_VERSION, "",
               map["groupId" := JString(groupId), "changeType" := JString("created"), "groupName" := JString(p.groupName)], 0, ""),
        "", p.groupName)
    case MemberOp(_, groupId, target, _) =>
      MD.PendingNotification(
        Packet(GroupMemberChanged, packetId, MD.PROTOCOL_VERSION, "",
               map["groupId" := JString(groupId), "changeType" := JString(OperationName(p.operation)),
                   "targetUserId" := JString(target), "operatorUserId" := JString(operatorUserId)], 0, ""),
        if p.operation == AddOp then "" else target, "")
  }
}
