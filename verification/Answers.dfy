/** Which message each request gets: the messages a peer sends, matched with the replies that are due. */
module Answers {
  import opened Bytes
  import opened Trees
  import opened MultiplexerSpec
  import opened Queues
  import opened Correlation
  import opened Framing
  import opened Messages

  predicate IsPush(t: Tree) {
    t.Aggregate? && t.kind.Push?
  }

  /** The messages that answer something. */
  function Replies(ts: seq<Tree>): (n: nat) {
    if ts == [] then 0 else (if IsPush(ts[0]) then 0 else 1) + Replies(ts[1..])
  }

  /** What a peer means: pushes are for the receiver, the k-th other message is for the k-th slot due, and what
      comes when no slot is due is for the receiver. */
  function Meant(ts: seq<Tree>, due: seq<Slot>): (ds: seq<Delivery>) {
    if ts == [] then []
    else if IsPush(ts[0]) || due == [] then Deliver(PreOrder(ts[0], 0), None) + Meant(ts[1..], due)
    else ToSlot(due[0], PreOrder(ts[0], 0)) + Meant(ts[1..], due[1..])
  }

  /** The slots in front of the first request that was handed to the writer and expects no reply. */
  function Reach(q: seq<Elem>): (n: nat) {
    if q == [] || (!q[0].IsWaiting() && q[0].remaining == 0) then 0 else |SlotsOf(q[0])| + Reach(q[1..])
  }

  /** No slot that these messages need stands behind a request that expects no reply. */
  predicate Unobstructed(q: seq<Elem>, replies: nat) {
    replies <= Reach(q) || Reach(q) == |Slots(q)|
  }

  lemma {:induction false} ReachIsWithin(q: seq<Elem>)
    ensures Reach(q) <= |Slots(q)|
  {
    if q != [] {
      ReachIsWithin(q[1..]);
    }
  }

  lemma {:induction false} WaitingHasNoSlots(q: seq<Elem>)
    requires Shape(q) && q != [] && q[0].IsWaiting()
    ensures Slots(q) == []
  {
    hide Slots;
    forall e | e in q ensures SlotsOf(e) == [] {
      var i :| 0 <= i < |q| && q[i] == e;
      assert Rank(q[0]) <= Rank(q[i]);
    }
    NoSlots(q);
  }

  /** A message that is not a push is taken as a reply if and only if a slot is due within reach. */
  lemma {:induction false} TakenWithinReach(s: Mpx, t: Tree)
    requires Shape(s.queue)
    ensures TakenAsPush(s, t) <==> IsPush(t) || Reach(s.queue) == 0
  {
    hide Slots;
    if s.queue != [] && s.queue[0].IsWaiting() {
      WaitingHasNoSlots(s.queue);
      ReachIsWithin(s.queue);
    }
  }

  /** A reply uses up the first slot, which was within reach. */
  lemma {:induction false} ReplyMovesOn(s: Mpx, size: nat)
    requires Shape(s.queue) && s.queue != [] && !s.queue[0].IsWaiting() && s.queue[0].remaining > 0
    ensures
      var q := CommitResponse(s, size).queue;
      Shape(q) && Slots(s.queue) != [] && Slots(q) == Slots(s.queue)[1..] && Reach(q) == Reach(s.queue) - 1
  {
    hide Slots, Shape;
    HeadSlot(s.queue);
    TakingTheHead(s, size);
    var q := CommitResponse(s, size).queue;
    if s.queue[0].remaining > 1 {
      assert q[1..] == s.queue[1..];
    }
    ShapeKept(s, size);
  }

  lemma {:induction false} ShapeKept(s: Mpx, size: nat)
    requires Shape(s.queue) && s.queue != [] && s.queue[0].remaining > 0
    ensures Shape(CommitResponse(s, size).queue)
  {
    var q := CommitResponse(s, size).queue;
    var n := |s.queue| - |q|;
    forall i, j | 0 <= i < j < |q| ensures Rank(q[i]) <= Rank(q[j]) {
      assert Rank(s.queue[i + n]) <= Rank(s.queue[j + n]);
    }
  }

  lemma {:induction false} OnlyGrows(s: Mpx, ts: seq<Tree>)
    requires AllWellFormed(ts)
    ensures s.deliveries <= HandOverAll(s, ts).deliveries
    decreases |ts|
  {
    hide Encode, PreOrder, Deliver, CommitResponse;
    if ts != [] {
      OnlyGrows(HandOver(s, ts[0]), ts[1..]);
    }
  }

  /** One message, as it is meant or not. */
  lemma {:induction false} HandOverOne(s: Mpx, t: Tree)
    requires Shape(s.queue) && WellFormed(t)
    ensures
      var r, ns := HandOver(s, t), PreOrder(t, 0);
      if IsPush(t) || Reach(s.queue) == 0 then
        r.deliveries == s.deliveries + Deliver(ns, None) && r.queue == s.queue
      else
        && Slots(s.queue) != [] && r.deliveries == s.deliveries + ToSlot(Slots(s.queue)[0], ns)
        && Shape(r.queue) && Slots(r.queue) == Slots(s.queue)[1..] && Reach(r.queue) == Reach(s.queue) - 1
  {
    hide Encode, PreOrder, Slots, Shape, Deliver, ToSlot, CommitResponse, Reach;
    TakenWithinReach(s, t);
    if !TakenAsPush(s, t) {
      HeadSlot(s.queue);
      SameDeliveries(s.queue[0], PreOrder(t, 0));
      ReplyMovesOn(s, |Encode(t)|);
    }
  }

  function Min(a: nat, b: nat): nat {
    if a < b then a else b
  }

  lemma {:induction false} NotMeant(s: Mpx, ts: seq<Tree>, due: seq<Slot>)
    requires ts != [] && due != [] && !IsPush(ts[0]) && AllWellFormed(ts)
    requires HandOver(s, ts[0]).deliveries == s.deliveries + Deliver(PreOrder(ts[0], 0), None)
    ensures HandOverAll(s, ts).deliveries != s.deliveries + Meant(ts, due)
  {
    hide HandOver, PreOrder;
    var t, n := HandOver(s, ts[0]), |s.deliveries|;
    OnlyGrows(t, ts[1..]);
    assert HandOverAll(s, ts).deliveries[n] == t.deliveries[n] == Deliver(PreOrder(ts[0], 0), None)[0];
    assert (s.deliveries + Meant(ts, due))[n] == ToSlot(due[0], PreOrder(ts[0], 0))[0];
  }

  /** Whole messages, handed over one by one, go where they are meant to if and only if no slot they need stands
      behind a request that expects no reply; the slots they answered are then used up. */
  lemma {:induction false} HandedAsMeant(s: Mpx, ts: seq<Tree>)
    requires Shape(s.queue) && AllWellFormed(ts)
    ensures
      var r, due, n := HandOverAll(s, ts), Slots(s.queue), Replies(ts);
      && (r.deliveries == s.deliveries + Meant(ts, due) <==> Unobstructed(s.queue, n))
      && (Unobstructed(s.queue, n) ==> Slots(r.queue) == due[Min(n, |due|)..])
    decreases |ts|
  {
    hide HandOver, PreOrder, Slots, Shape, Deliver, ToSlot, Reach;
    var due := Slots(s.queue);
    ReachIsWithin(s.queue);
    if ts != [] {
      var t, u := ts[0], HandOver(s, ts[0]);
      HandOverOne(s, t);
      if IsPush(t) || due == [] {
        HandedAsMeant(u, ts[1..]);
        SameTail(s.deliveries, Deliver(PreOrder(t, 0), None), Meant(ts[1..], due));
      } else if Reach(s.queue) == 0 {
        NotMeant(s, ts, due);
      } else {
        HandedAsMeant(u, ts[1..]);
        SameTail(s.deliveries, ToSlot(due[0], PreOrder(t, 0)), Meant(ts[1..], due[1..]));
      }
    }
  }

  lemma {:induction false} SameTail(a: seq<Delivery>, b: seq<Delivery>, c: seq<Delivery>)
    ensures a + b + c == a + (b + c)
  {
  }

  /** Any messages, cut into reads in any way: every push reaches the receiver and the k-th other message is
      handed, whole, to the k-th slot due, if and only if no slot that is needed stands behind a request that
      was handed to the writer and expects no reply. */
  lemma {:induction false} AnswersFillSlots(s: Mpx, ts: seq<Tree>, chunks: seq<bytes>)
    requires Idle(s) && Shape(s.queue) && AllReceivable(ts) && AllWellFormed(ts) && Concat(chunks) == EncodeAll(ts)
    ensures
      var r, due, n := FeedAll(Drained(s, false), chunks).mpx, Slots(s.queue), Replies(ts);
      && (r.deliveries == s.deliveries + Meant(ts, due) <==> Unobstructed(s.queue, n))
      && (Unobstructed(s.queue, n) ==> Slots(r.queue) == due[Min(n, |due|)..])
  {
    hide FeedAll, HandOverAll, EncodeAll, Concat, Meant, Unobstructed, Slots, Shape;
    ChunkedMessagesAreHandedOver(s, ts, chunks);
    HandedAsMeant(s, ts);
  }

  lemma {:induction false} MeantAt(ts: seq<Tree>, due: seq<Slot>, k: nat)
    requires k < |ts| <= |due| && forall i :: 0 <= i < |ts| ==> !IsPush(ts[i])
    ensures Meant(ts, due) ==
            Meant(ts[..k], due) + ToSlot(due[k], PreOrder(ts[k], 0)) + Meant(ts[k + 1..], due[k + 1..])
  {
    hide PreOrder, ToSlot;
    if k == 0 {
      assert Meant(ts[..0], due) == [];
    } else {
      MeantAt(ts[1..], due[1..], k - 1);
      assert ts[..k][1..] == ts[1..][..k - 1];
      assert ts[1..][k..] == ts[k + 1..] && due[1..][k..] == due[k + 1..];
    }
  }
}
