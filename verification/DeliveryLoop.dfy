/** What one pass of the delivery loop does to the rows of a load result. */
module DeliveryLoop {
  import opened Packets
  import opened Wire
  import opened OfflineModel

  /** A queued document that takes neither the undecodable nor the empty-msgId branch. */
  predicate Readable(doc: Document) {
    Decode(doc).Decoded? && Decode(doc).packet.msgId != ""
  }

  function PacketIn(doc: Document): Packet
    requires Readable(doc)
  {
    Decode(doc).packet
  }

  predicate NeedsAckDoc(doc: Document) {
    Readable(doc) && PacketIn(doc).cmd == ReceiveMessage
  }

  /** The server gives every packet it queues a msgId, and that is enough. */
  lemma EncodedIsReadable(p: Packet)
    requires p.msgId != ""
    ensures Readable(Encode(p)) && PacketIn(Encode(p)) == p
  {
    DecodeEncode(p);
  }

  ghost predicate AllReadable(packets: seq<QueuedPacket>) {
    forall i :: 0 <= i < |packets| ==> Readable(packets[i].doc)
  }

  // ---------------------------------------------------------------- the loop over decoded rows

  datatype Item = Item(id: nat, packet: Packet) {
    predicate NeedsAck() { packet.cmd == ReceiveMessage }
  }

  function Items(packets: seq<QueuedPacket>): (items: seq<Item>)
    requires AllReadable(packets)
    ensures |items| == |packets|
    ensures forall i :: 0 <= i < |items| ==> items[i] == Item(packets[i].id, PacketIn(packets[i].doc))
  {
    seq(|packets|, i requires 0 <= i < |packets| => Item(packets[i].id, PacketIn(packets[i].doc)))
  }

  datatype Pass = Pass(held: map<MsgId, nat>, removable: seq<nat>, sent: seq<Packet>)

  /** A round for a user who is online. */
  function PassOne(s: Pass, x: Item): Pass {
    if x.NeedsAck() then
      if x.packet.msgId in s.held then s.(removable := s.removable + [x.id])
      else s.(held := s.held[x.packet.msgId := x.id], sent := s.sent + [x.packet])
    else s.(removable := s.removable + [x.id], sent := s.sent + [x.packet])
  }

  function PassAll(held: map<MsgId, nat>, items: seq<Item>): Pass {
    if items == [] then Pass(held, [], [])
    else PassOne(PassAll(held, items[..|items| - 1]), items[|items| - 1])
  }

  /** One round of the loop for a user who is online, on a readable row. */
  lemma RoundIsPassOne(p: Progress, user: UserId, q: QueuedPacket)
    requires Readable(q.doc) && !p.stopped
    ensures var r := DeliverOne(p, user, true, q);
            && !r.stopped
            && Pass(Held(r.pending, user), r.removable, r.sent)
               == PassOne(Pass(Held(p.pending, user), p.removable, p.sent), Item(q.id, PacketIn(q.doc)))
  {
  }

  lemma {:induction false} LoopIsPass(pending: Pending, user: UserId, packets: seq<QueuedPacket>)
    requires AllReadable(packets)
    ensures var p := DeliverAll(pending, user, true, packets);
            Pass(Held(p.pending, user), p.removable, p.sent) == PassAll(Held(pending, user), Items(packets)) && !p.stopped
  {
    if packets != [] {
      var n := |packets| - 1;
      assert Items(packets)[..n] == Items(packets[..n]);
      LoopIsPass(pending, user, packets[..n]);
      RoundIsPassOne(DeliverAll(pending, user, true, packets[..n]), user, packets[n]);
      hide DeliverOne, PassOne, Decode;
    }
  }

  /** Other users' pending entries are not touched, online or not. */
  lemma {:induction false} OtherUsersKept(pending: Pending, user: UserId, online: bool, packets: seq<QueuedPacket>, other: UserId)
    requires other != user
    ensures Held(DeliverAll(pending, user, online, packets).pending, other) == Held(pending, other)
  {
    if packets != [] {
      OtherUsersKept(pending, user, online, packets[..|packets| - 1], other);
    }
  }

  // ---------------------------------------------------------------- rows that cannot be read

  lemma LoopSnoc(pending: Pending, user: UserId, online: bool, front: seq<QueuedPacket>, last: QueuedPacket)
    ensures DeliverAll(pending, user, online, front + [last]) == DeliverOne(DeliverAll(pending, user, online, front), user, online, last)
  {
    hide DeliverOne;
    assert (front + [last])[..|front|] == front;
  }

  /** Two states of the loop that differ in what is reported only, `id` being reported in the second if `extra`. */
  ghost predicate SameButReported(a: Progress, b: Progress, id: nat, extra: bool) {
    && b.pending == a.pending && b.sent == a.sent && b.stopped == a.stopped
    && (forall x :: x in b.removable <==> x in a.removable || (extra && x == id))
  }

  lemma SameRound(a: Progress, b: Progress, id: nat, extra: bool, user: UserId, online: bool, q: QueuedPacket)
    requires SameButReported(a, b, id, extra)
    ensures SameButReported(DeliverOne(a, user, online, q), DeliverOne(b, user, online, q), id, extra)
  {
    hide Decode;
  }

  /** A row that cannot be decoded, or names no message, changes nothing for the others, whether the user is online
      or not; it is itself reported for deletion if the loop gets that far. */
  lemma {:induction false} UnreadableRow(pending: Pending, user: UserId, online: bool, before: seq<QueuedPacket>, q: QueuedPacket, after: seq<QueuedPacket>)
    requires !Readable(q.doc)
    ensures SameButReported(DeliverAll(pending, user, online, before + after), DeliverAll(pending, user, online, before + [q] + after),
                            q.id, !DeliverAll(pending, user, online, before).stopped)
  {
    hide DeliverAll, DeliverOne, Decode;
    if after == [] {
      assert before + [] == before && before + [q] + [] == before + [q];
      LoopSnoc(pending, user, online, before, q);
      UnreadableRound(DeliverAll(pending, user, online, before), user, online, q);
    } else {
      var n := |after| - 1;
      UnreadableRow(pending, user, online, before, q, after[..n]);
      LoopSnoc(pending, user, online, before + after[..n], after[n]);
      LoopSnoc(pending, user, online, before + [q] + after[..n], after[n]);
      assert before + after == before + after[..n] + [after[n]];
      assert before + [q] + after == before + [q] + after[..n] + [after[n]];
      SameRound(DeliverAll(pending, user, online, before + after[..n]), DeliverAll(pending, user, online, before + [q] + after[..n]),
                q.id, !DeliverAll(pending, user, online, before).stopped, user, online, after[n]);
    }
  }

  lemma UnreadableRound(p: Progress, user: UserId, online: bool, q: QueuedPacket)
    requires !Readable(q.doc)
    ensures SameButReported(p, DeliverOne(p, user, online, q), q.id, !p.stopped)
  {
  }

  // ---------------------------------------------------------------- which rows end up where

  ghost predicate Mentioned(items: seq<Item>, m: MsgId) {
    exists j :: 0 <= j < |items| && items[j].NeedsAck() && items[j].packet.msgId == m
  }

  /** The row needs an ack but its msgId is taken: already pending, or used earlier in the result. */
  ghost predicate Shadowed(before: map<MsgId, nat>, items: seq<Item>, i: nat)
    requires i < |items|
  {
    && items[i].NeedsAck()
    && (items[i].packet.msgId in before || Mentioned(items[..i], items[i].packet.msgId))
  }

  ghost predicate Removable(before: map<MsgId, nat>, items: seq<Item>, i: nat)
    requires i < |items|
  {
    !items[i].NeedsAck() || Shadowed(before, items, i)
  }

  ghost predicate Sent(items: seq<Item>, sent: seq<Packet>, m: MsgId, id: nat) {
    exists i :: 0 <= i < |items| && items[i].id == id && items[i].NeedsAck()
                && items[i].packet.msgId == m && items[i].packet in sent
  }

  lemma MentionedLast(items: seq<Item>, m: MsgId)
    requires items != []
    ensures var n := |items| - 1;
            Mentioned(items, m) <==> Mentioned(items[..n], m) || (items[n].NeedsAck() && items[n].packet.msgId == m)
  {
  }

  lemma {:induction false} HeldAfter(before: map<MsgId, nat>, items: seq<Item>)
    ensures var after := PassAll(before, items).held;
            && (forall m :: m in after <==> m in before || Mentioned(items, m))
            && (forall m :: m in before ==> after[m] == before[m])
  {
    if items != [] {
      var n := |items| - 1;
      var front := items[..n];
      HeldAfter(before, front);
      var after := PassAll(before, items).held;
      forall m
        ensures Mentioned(items, m) <==> Mentioned(front, m) || (items[n].NeedsAck() && items[n].packet.msgId == m)
      {
        MentionedLast(items, m);
      }
    }
  }

  lemma ShadowedInFront(before: map<MsgId, nat>, items: seq<Item>, n: nat, i: nat)
    requires i < n <= |items|
    ensures items[..n][i] == items[i]
    ensures Shadowed(before, items[..n], i) <==> Shadowed(before, items, i)
  {
    assert items[..n][..i] == items[..i];
  }

  /** The id of the round's row is appended exactly when the row is removable. */
  lemma LastRound(before: map<MsgId, nat>, items: seq<Item>)
    requires items != []
    ensures var n := |items| - 1;
            var s := PassAll(before, items[..n]);
            PassAll(before, items) ==
              if items[n].NeedsAck() then
                if Shadowed(before, items, n) then s.(removable := s.removable + [items[n].id])
                else s.(held := s.held[items[n].packet.msgId := items[n].id], sent := s.sent + [items[n].packet])
              else s.(removable := s.removable + [items[n].id], sent := s.sent + [items[n].packet])
  {
    HeldAfter(before, items[..|items| - 1]);
  }

  lemma {:induction false} NewEntriesWereSent(before: map<MsgId, nat>, items: seq<Item>, m: MsgId)
    requires m in PassAll(before, items).held && m !in before
    ensures Sent(items, PassAll(before, items).sent, m, PassAll(before, items).held[m])
  {
    var n := |items| - 1;
    var s, s' := PassAll(before, items[..n]), PassAll(before, items);
    LastRound(before, items);
    if m in s.held && s'.held[m] == s.held[m] {
      NewEntriesWereSent(before, items[..n], m);
      var i :| 0 <= i < n && items[..n][i].id == s.held[m] && items[..n][i].NeedsAck()
               && items[..n][i].packet.msgId == m && items[..n][i].packet in s.sent;
      assert items[i] == items[..n][i];
    } else {
      assert items[n].packet in s'.sent;
    }
  }

  /** A row that is not shadowed is sent, and held under its own id if it needs an ack. */
  lemma {:induction false} UnshadowedIsSent(before: map<MsgId, nat>, items: seq<Item>, i: nat)
    requires i < |items| && !Shadowed(before, items, i)
    ensures var s := PassAll(before, items);
            && items[i].packet in s.sent
            && (items[i].NeedsAck() ==> items[i].packet.msgId in s.held && s.held[items[i].packet.msgId] == items[i].id)
  {
    var n := |items| - 1;
    LastRound(before, items);
    if i < n {
      ShadowedInFront(before, items, n, i);
      UnshadowedIsSent(before, items[..n], i);
      HeldAfter(before, items[..n]);
    }
  }

  lemma {:induction false} RemovableIsReported(before: map<MsgId, nat>, items: seq<Item>, i: nat)
    requires i < |items| && Removable(before, items, i)
    ensures items[i].id in PassAll(before, items).removable
  {
    var n := |items| - 1;
    LastRound(before, items);
    if i < n {
      ShadowedInFront(before, items, n, i);
      RemovableIsReported(before, items[..n], i);
    }
  }

  ghost predicate FromRemovable(before: map<MsgId, nat>, items: seq<Item>, id: nat) {
    exists i :: 0 <= i < |items| && items[i].id == id && Removable(before, items, i)
  }

  lemma {:induction false} ReportedIsRemovable(before: map<MsgId, nat>, items: seq<Item>, id: nat)
    requires id in PassAll(before, items).removable
    ensures FromRemovable(before, items, id)
  {
    var n := |items| - 1;
    LastRound(before, items);
    if id in PassAll(before, items[..n]).removable {
      ReportedIsRemovable(before, items[..n], id);
      var i :| 0 <= i < n && items[..n][i].id == id && Removable(before, items[..n], i);
      ShadowedInFront(before, items, n, i);
      assert Removable(before, items, i);
    } else {
      assert Removable(before, items, n);
    }
  }

  // ---------------------------------------------------------------- a user who went offline

  /** Every one of the first `k` rows needs an ack and its msgId is already pending. */
  ghost predicate AllTaken(before: map<MsgId, nat>, packets: seq<QueuedPacket>, k: nat)
    requires k <= |packets|
  {
    forall j :: 0 <= j < k ==> NeedsAckDoc(packets[j].doc) && PacketIn(packets[j].doc).msgId in before
  }

  /** One round for a user who is offline: a row whose msgId is pending is reported, any other row stops the loop. */
  lemma RoundOffline(p: Progress, user: UserId, q: QueuedPacket)
    requires Readable(q.doc)
    ensures var r := DeliverOne(p, user, false, q);
            var taken := NeedsAckDoc(q.doc) && PacketIn(q.doc).msgId in Held(p.pending, user);
            && r.sent == p.sent && Held(r.pending, user) == Held(p.pending, user)
            && r.removable == (if !p.stopped && taken then p.removable + [q.id] else p.removable)
            && r.stopped == (p.stopped || !taken)
  {
  }

  ghost predicate TakenRow(before: map<MsgId, nat>, packets: seq<QueuedPacket>, id: nat) {
    exists i :: 0 <= i < |packets| && packets[i].id == id && AllTaken(before, packets, i + 1)
  }

  /** Nothing is sent and no entry is made; the loop reports rows until the first whose msgId is not pending. */
  lemma {:induction false} DeliveredOffline(pending: Pending, user: UserId, packets: seq<QueuedPacket>)
    requires AllReadable(packets)
    ensures var p := DeliverAll(pending, user, false, packets);
            && p.sent == []
            && Held(p.pending, user) == Held(pending, user)
            && (p.stopped <==> !AllTaken(Held(pending, user), packets, |packets|))
            && (forall id :: id in p.removable <==> TakenRow(Held(pending, user), packets, id))
  {
    if packets != [] {
      var n := |packets| - 1;
      var before := Held(pending, user);
      DeliveredOffline(pending, user, packets[..n]);
      RoundOffline(DeliverAll(pending, user, false, packets[..n]), user, packets[n]);
      hide DeliverOne, Decode, TakenRow, AllTaken, NeedsAckDoc;
      AllTakenSnoc(before, packets);
      forall id ensures TakenRow(before, packets, id) <==>
                        TakenRow(before, packets[..n], id) || (packets[n].id == id && AllTaken(before, packets, n + 1))
      {
        TakenRowSnoc(before, packets, id);
      }
    }
  }

  lemma AllTakenSnoc(before: map<MsgId, nat>, packets: seq<QueuedPacket>)
    requires packets != []
    ensures var n := |packets| - 1;
            AllTaken(before, packets, n + 1) <==>
            AllTaken(before, packets[..n], n) && NeedsAckDoc(packets[n].doc) && PacketIn(packets[n].doc).msgId in before
  {
    hide NeedsAckDoc, PacketIn;
    var n := |packets| - 1;
    assert forall j :: 0 <= j < n ==> packets[..n][j] == packets[j];
  }

  lemma TakenRowSnoc(before: map<MsgId, nat>, packets: seq<QueuedPacket>, id: nat)
    requires packets != []
    ensures var n := |packets| - 1;
            TakenRow(before, packets, id) <==>
            TakenRow(before, packets[..n], id) || (packets[n].id == id && AllTaken(before, packets, n + 1))
  {
    hide NeedsAckDoc, PacketIn;
    var n := |packets| - 1;
    forall k | 0 <= k <= n ensures AllTaken(before, packets[..n], k) <==> AllTaken(before, packets, k) {
      assert forall j :: 0 <= j < k ==> packets[..n][j] == packets[j];
    }
    if TakenRow(before, packets[..n], id) {
      var i :| 0 <= i < n && packets[..n][i].id == id && AllTaken(before, packets[..n], i + 1);
      assert packets[i].id == id && AllTaken(before, packets, i + 1);
    }
    if TakenRow(before, packets, id) {
      var i :| 0 <= i <= n && packets[i].id == id && AllTaken(before, packets, i + 1);
      if i < n { assert packets[..n][i].id == id && AllTaken(before, packets[..n], i + 1); }
    }
  }

  /** The first of the rows that use a msgId. */
  lemma {:induction false} FirstMention(items: seq<Item>, m: MsgId) returns (j: nat)
    requires Mentioned(items, m)
    ensures j < |items| && items[j].NeedsAck() && items[j].packet.msgId == m && !Mentioned(items[..j], m)
  {
    var n := |items| - 1;
    if Mentioned(items[..n], m) {
      j := FirstMention(items[..n], m);
      assert items[..n][..j] == items[..j];
    } else {
      MentionedLast(items, m);
      j := n;
    }
  }

  /** Where a load result lists a row that it reports. */
  lemma ReportedPosition(pending: Pending, user: UserId, online: bool, packets: seq<QueuedPacket>, id: nat) returns (i: nat)
    requires AllReadable(packets) && id in DeliverAll(pending, user, online, packets).removable
    ensures i < |packets| && packets[i].id == id
    ensures if online then Removable(Held(pending, user), Items(packets), i) else AllTaken(Held(pending, user), packets, i + 1)
  {
    hide Decode, DeliverAll, PassAll, AllTaken, Removable;
    var before, items := Held(pending, user), Items(packets);
    if online {
      LoopIsPass(pending, user, packets);
      ReportedIsRemovable(before, items, id);
      i :| 0 <= i < |items| && items[i].id == id && Removable(before, items, i);
    } else {
      DeliveredOffline(pending, user, packets);
      i :| 0 <= i < |packets| && packets[i].id == id && AllTaken(before, packets, i + 1);
    }
  }
}
