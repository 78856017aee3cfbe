/** In which order queued packets reach a user who logs in. */
module DeliveryOrder {
  import opened Packets
  import opened Wire
  import opened OfflineModel
  import opened DeliveryLoop
  import opened OfflineProtocol
  import opened OfflineLedger

  ghost predicate Increasing(at: seq<nat>) {
    forall i, j :: 0 <= i < j < |at| ==> at[i] < at[j]
  }

  ghost predicate Plain(before: map<MsgId, nat>, items: seq<Item>, i: nat) {
    i < |items| && !Shadowed(before, items, i)
  }

  /** `at` are the positions of the rows that are not shadowed, in order. */
  ghost predicate Unshadowed(before: map<MsgId, nat>, items: seq<Item>, at: seq<nat>) {
    && Increasing(at)
    && (forall k :: 0 <= k < |at| ==> Plain(before, items, at[k]))
    && (forall i: nat :: Plain(before, items, i) ==> i in at)
  }

  ghost predicate SentAt(items: seq<Item>, sent: seq<Packet>, at: seq<nat>) {
    |sent| == |at| && forall k :: 0 <= k < |at| ==> at[k] < |items| && sent[k] == items[at[k]].packet
  }

  /** What is sent are the packets of the unshadowed rows, each once, in the order of the rows. */
  lemma {:induction false} SentInOrder(before: map<MsgId, nat>, items: seq<Item>) returns (at: seq<nat>)
    ensures Unshadowed(before, items, at) && SentAt(items, PassAll(before, items).sent, at)
  {
    if items == [] {
      at := [];
    } else {
      var n := |items| - 1;
      var front := SentInOrder(before, items[..n]);
      LastRound(before, items);
      at := if Shadowed(before, items, n) then front else front + [n];
      hide PassAll;
      NextUnshadowed(before, items, front, at);
      hide Shadowed, Unshadowed;
    }
  }

  lemma NextUnshadowed(before: map<MsgId, nat>, items: seq<Item>, front: seq<nat>, at: seq<nat>)
    requires items != [] && Unshadowed(before, items[..|items| - 1], front)
    requires at == if Shadowed(before, items, |items| - 1) then front else front + [|items| - 1]
    ensures Unshadowed(before, items, at)
  {
    var n := |items| - 1;
    forall i: nat ensures Plain(before, items[..n], i) <==> i < n && Plain(before, items, i) {
      if i < n { ShadowedInFront(before, items, n, i); }
    }
    assert forall i: nat :: Plain(before, items, i) ==> i <= n;
    assert forall k :: 0 <= k < |front| ==> front[k] < n;
    assert Plain(before, items, n) <==> !Shadowed(before, items, n);
    hide Plain, Shadowed;
    assert Increasing(at);
    assert forall k :: 0 <= k < |at| ==> Plain(before, items, at[k]);
  }

  /** `after` is `before` and, at positions `at` of the load result, the packets of the rows, by ascending row id. */
  ghost predicate HandedInOrder(before: seq<Handoff>, after: seq<Handoff>, conn: ConnId, user: UserId, packets: seq<QueuedPacket>, at: seq<nat>)
    requires AllReadable(packets)
  {
    && |after| == |before| + |at| && before <= after
    && (forall k :: 0 <= k < |at| ==> at[k] < |packets| && HandsOver(after[|before| + k], conn, user, packets[at[k]]))
    && (forall j, k :: 0 <= j < k < |at| ==> packets[at[j]].id < packets[at[k]].id)
  }

  predicate HandsOver(h: Handoff, conn: ConnId, user: UserId, q: QueuedPacket)
    requires Readable(q.doc)
  {
    h.conn == conn && h.user == user && h.packet == PacketIn(q.doc)
  }

  lemma ReadableResult(user: UserId, packets: seq<QueuedPacket>, issued: seq<Row>)
    requires ResultOk(user, packets, issued) && forall i :: 0 <= i < |issued| ==> Readable(issued[i].parcel.doc)
    ensures AllReadable(packets)
  {
    forall i | 0 <= i < |packets| ensures Readable(packets[i].doc) {
      assert packets[i] in packets;
      assert WasIssued(Row(packets[i].id, Parcel(user, packets[i].doc)), issued);
    }
  }

  lemma Ordered(user: UserId, packets: seq<QueuedPacket>, issued: seq<Row>, at: seq<nat>)
    requires ResultOk(user, packets, issued) && Increasing(at) && forall k :: 0 <= k < |at| ==> at[k] < |packets|
    ensures forall j, k :: 0 <= j < k < |at| ==> packets[at[j]].id < packets[at[k]].id
  {
  }

  lemma LoadedSends(s: State, user: UserId, packets: seq<QueuedPacket>)
    requires s.handled < |s.replies| && s.replies[s.handled] == OfflineLoaded(user, packets) && Online(s.main, user)
    ensures Step(s, ReplyHandled).main.sent ==
            s.main.sent + HandoffsFor(s.main, user, DeliverAll(s.main.pendingAckIds, user, true, packets).sent)
  {
    hide DeliverOne, FindByUserId;
  }

  lemma HandedAt(before: seq<Handoff>, conn: ConnId, owner: UserId, user: UserId, packets: seq<QueuedPacket>, sent: seq<Packet>, at: seq<nat>)
    requires AllReadable(packets) && SentAt(Items(packets), sent, at)
    requires forall j, k :: 0 <= j < k < |at| ==> packets[at[j]].id < packets[at[k]].id
    ensures HandedInOrder(before, before + Handoffs(conn, owner, user, sent), conn, user, packets, at)
  {
    hide Readable, PacketIn;
  }

  /** Handling a load result hands the unshadowed rows of a user who is online to the session that the user map names,
      in the order in which they were queued, each once, and hands over nothing else. */
  lemma HandedOverInOrder(s: State, user: UserId, packets: seq<QueuedPacket>) returns (at: seq<nat>)
    requires RowInv(s) && s.handled < |s.replies| && s.replies[s.handled] == OfflineLoaded(user, packets) && Online(s.main, user)
    ensures AllReadable(packets) && Unshadowed(Held(s.main.pendingAckIds, user), Items(packets), at)
    ensures HandedInOrder(s.main.sent, Step(s, ReplyHandled).main.sent, FindByUserId(s.main, user).value, user, packets, at)
  {
    assert ResultOk(user, packets, s.hist.issued);
    ReadableResult(user, packets, s.hist.issued);
    LoadedSends(s, user, packets);
    LoopIsPass(s.main.pendingAckIds, user, packets);
    hide Decode, RowInv, ResultOk, Step, AllReadable, Shadowed, PassAll, DeliverAll, HandedInOrder, Handoffs;
    at := SentInOrder(Held(s.main.pendingAckIds, user), Items(packets));
    Ordered(user, packets, s.hist.issued, at);
    HandedAt(s.main.sent, Target(s.main, user).0, Target(s.main, user).1, user, packets,
             DeliverAll(s.main.pendingAckIds, user, true, packets).sent, at);
  }

  /** So in every run: what a login brings is handed over in the order in which it was queued. */
  lemma QueuedOrderKept(events: seq<Event>, user: UserId, packets: seq<QueuedPacket>) returns (at: seq<nat>)
    requires var s := Run(Initial(), events);
             s.handled < |s.replies| && s.replies[s.handled] == OfflineLoaded(user, packets) && Online(s.main, user)
    ensures var s := Run(Initial(), events);
            && AllReadable(packets) && Unshadowed(Held(s.main.pendingAckIds, user), Items(packets), at)
            && HandedInOrder(s.main.sent, Step(s, ReplyHandled).main.sent, FindByUserId(s.main, user).value, user, packets, at)
  {
    hide Step, RowInv, Unshadowed, Decode, AllReadable, HandedInOrder;
    LedgerHolds(events);
    at := HandedOverInOrder(Run(Initial(), events), user, packets);
  }
}
