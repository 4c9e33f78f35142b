/** Replies and requests: the queue is a FIFO of reply slots, and a message keeps its receiver. */
module Correlation {
  import opened Bytes
  import opened Resp3
  import opened MultiplexerSpec
  import opened Queues
  import opened Invariants
  import Parser = ParserSpec

  /** The reply with this index of this request. */
  datatype Slot = Slot(id: nat, index: int)

  /** The replies an element still waits for, in order, if it was handed to the writer. */
  function SlotsOf(e: Elem): (r: seq<Slot>)
    ensures |r| == if e.IsWaiting() then 0 else e.remaining
    ensures forall i :: 0 <= i < |r| ==> r[i] == Slot(e.id, e.Index() + i)
  {
    if e.IsWaiting() then [] else seq(e.remaining, i requires 0 <= i => Slot(e.id, e.Index() + i))
  }

  /** The replies that are due on this connection, in the order in which they must come. */
  function Slots(q: seq<Elem>): (r: seq<Slot>) {
    if q == [] then [] else SlotsOf(q[0]) + Slots(q[1..])
  }

  lemma {:induction false} SlotsAppend(a: seq<Elem>, b: seq<Elem>)
    ensures Slots(a + b) == Slots(a) + Slots(b)
  {
    if a == [] {
      assert a + b == b;
    } else {
      assert (a + b)[1..] == a[1..] + b;
      SlotsAppend(a[1..], b);
    }
  }

  lemma {:induction false} NoSlots(q: seq<Elem>)
    requires forall e :: e in q ==> SlotsOf(e) == []
    ensures Slots(q) == []
  {
    if q != [] {
      NoSlots(q[1..]);
    }
  }

  /** The first slot is that of the request in front, unless that one expects no reply. */
  lemma {:induction false} HeadSlot(q: seq<Elem>)
    requires q != [] && !q[0].IsWaiting() && q[0].remaining > 0
    ensures Slots(q) != [] && Slots(q)[0] == Slot(q[0].id, q[0].Index())
  {
  }

  function ToSlot(slot: Slot, nodes: seq<Node>): (ds: seq<Delivery>)
    ensures |ds| == |nodes|
  {
    seq(|nodes|, i requires 0 <= i < |nodes| => ToRequest(slot.id, slot.index, nodes[i]))
  }

  lemma {:induction false} SameDeliveries(e: Elem, nodes: seq<Node>)
    ensures Deliver(nodes, Some(e)) == ToSlot(Slot(e.id, e.Index()), nodes)
  {
  }

  lemma {:induction false} TakingTheHead(s: Mpx, size: nat)
    requires s.queue != [] && !s.queue[0].IsWaiting() && s.queue[0].remaining > 0
    ensures Slots(CommitResponse(s, size).queue) == Slots(s.queue)[1..]
  {
    var d := s.queue[0];
    var e := d.(readSize := d.readSize + size, remaining := d.remaining - 1);
    assert SlotsOf(d)[1..] == SlotsOf(e);
    assert s.queue[0 := e][1..] == s.queue[1..];
    assert Slots(s.queue) == SlotsOf(d) + Slots(s.queue[1..]);
    assert Slots(s.queue)[1..] == SlotsOf(d)[1..] + Slots(s.queue[1..]);
    assert e.remaining > 0 ==> Slots(s.queue[0 := e]) == SlotsOf(e) + Slots(s.queue[1..]);
  }

  /** Reply correlation.  A message taken as a reply goes, with all the nodes of this call, to the head
      slot; the slot is used up exactly when the message is complete.  A message taken as a push leaves
      the slots alone and goes to the receiver. */
  lemma {:induction false} ReplyTakesHeadSlot(s: Mpx, fault: Option<Parser.Fault>)
    requires Wf(s) && s.readBuffer != []
    ensures
      var r := CommitRead(s, fault);
      var nodes := Parser.Parse(s.parser, s.readBuffer, fault).nodes;
      if s.onPush || IsNextPush(s) then
        && r.mpx.deliveries == s.deliveries + Deliver(nodes, None)
        && r.mpx.queue == s.queue
      else
        && Slots(s.queue) != []
        && r.mpx.deliveries == s.deliveries + ToSlot(Slots(s.queue)[0], nodes)
        && Slots(r.mpx.queue) == if r.read.Message? then Slots(s.queue)[1..] else Slots(s.queue)
  {
    hide Parser.Parse, Slots, Deliver, ToSlot;
    if !(s.onPush || IsNextPush(s)) {
      var r := CommitRead(s, fault);
      var nodes := Parser.Parse(s.parser, s.readBuffer, fault).nodes;
      HeadSlot(s.queue);
      SameDeliveries(s.queue[0], nodes);
      if r.read.Message? {
        TakingTheHead(s, r.read.size);
      } else if r.read.Failure? {
        ErrorKeepsSlots(s.queue, r.read.error);
      }
    }
  }

  lemma {:induction false} ErrorKeepsSlots(q: seq<Elem>, e: Error)
    requires q != []
    ensures Slots(q[0 := q[0].NotifyError(e)]) == Slots(q)
  {
    var r := q[0 := q[0].NotifyError(e)];
    assert r[1..] == q[1..];
    assert SlotsOf(r[0]) == SlotsOf(q[0]);
  }

  // What the other operations do to the slots.

  lemma {:induction false} SlotsSelect(q: seq<Elem>, f: Elem -> bool)
    requires forall e :: e in q && !f(e) ==> SlotsOf(e) == []
    ensures Slots(Select(q, f)) == Slots(q)
  {
    if q != [] {
      var q0, last := q[..|q| - 1], q[|q| - 1];
      assert q == q0 + [last];
      SlotsSelect(q0, f);
      SlotsAppend(q0, [last]);
      SlotsAppend(Select(q0, f), if f(last) then [last] else []);
      assert Slots([last]) == SlotsOf(last);
    }
  }

  lemma {:induction false} SlotsMap(q: seq<Elem>, m: Elem -> Elem)
    requires forall e :: e in q ==> SlotsOf(m(e)) == SlotsOf(e)
    ensures Slots(MapElems(q, m)) == Slots(q)
  {
    if q != [] {
      SlotsMap(q[1..], m);
      assert MapElems(q, m)[1..] == MapElems(q[1..], m);
    }
  }

  /** Adding, removing and cancelling what waits leaves the slots alone, and so does the end of a write. */
  lemma {:induction false} AddKeepsSlots(s: Mpx, e: Elem)
    requires e.IsWaiting()
    ensures Slots(Add(s, e).queue) == Slots(s.queue)
  {
    hide Slots;
    var k := AddPoint(s, e);
    var a, b := s.queue[..k], s.queue[k..];
    AddIs(s, e);
    SlotsAppend(a + [e], b);
    SlotsAppend(a, [e]);
    SlotsAppend(a, b);
    NoSlots([e]);
    assert s.queue == a + b;
  }

  lemma {:induction false} RemoveKeepsSlots(s: Mpx, id: nat)
    requires InQueue(s, id)
    ensures Slots(Remove(s, id).queue) == Slots(s.queue)
  {
    hide Slots;
    var i := IndexOf(s.queue, id);
    if s.queue[i].IsWaiting() {
      var a, e, b := s.queue[..i], s.queue[i], s.queue[i + 1..];
      assert s.queue == a + [e] + b;
      SlotsAppend(a + [e], b);
      SlotsAppend(a, [e]);
      SlotsAppend(a, b);
      NoSlots([e]);
    }
  }

  lemma {:induction false} CancelWaitingKeepsSlots(s: Mpx)
    ensures Slots(CancelWaiting(s).queue) == Slots(s.queue)
  {
    hide Slots;
    SlotsSelect(s.queue, IsActive);
  }

  lemma {:induction false} CommitWriteKeepsSlots(s: Mpx)
    requires Wf(s)
    ensures Slots(CommitWrite(s).queue) == Slots(s.queue)
  {
    hide Slots, Select;
    var q := MapElems(s.queue, MarkWritten);
    forall e | e in s.queue ensures SlotsOf(MarkWritten(e)) == SlotsOf(e) {
    }
    SlotsMap(s.queue, MarkWritten);
    MapMembers(s.queue, MarkWritten);
    forall e | e in q && !IsRetained(e) ensures SlotsOf(e) == [] {
      var d :| d in s.queue && e == MarkWritten(d);
      assert QueuedOk(d);
    }
    SlotsSelect(q, IsRetained);
  }

  /** Losing the connection drops every slot. */
  lemma {:induction false} ConnLostDropsSlots(s: Mpx)
    requires !s.cancelCalled
    ensures Slots(CancelOnConnLost(s).queue) == []
  {
    hide Slots, Select;
    var q := CancelOnConnLost(s).queue;
    forall e | e in q ensures SlotsOf(e) == [] {
      var i :| 0 <= i < |q| && q[i] == e;
    }
    NoSlots(q);
  }

  /** The replies the server sends to a batch of requests: to each request, one for each expected reply. */
  function Asked(batch: seq<Elem>): (r: seq<Slot>) {
    if batch == [] then [] else SlotsOf(MakeElem(batch[0].id, batch[0].req).Mark(Staged)) + Asked(batch[1..])
  }

  predicate Unanswered(e: Elem) {
    e.remaining == e.req.expected
  }

  /** The replies a server sends to one request, as if it had not been answered before. */
  lemma {:induction false} StagedSlotsOfOne(e: Elem)
    requires e.remaining <= e.req.expected
    ensures
      var due, full := SlotsOf(Stage(e)), SlotsOf(MakeElem(e.id, e.req).Mark(Staged));
      |due| <= |full| && (|due| == |full| <==> Unanswered(e)) && (Unanswered(e) ==> due == full)
  {
  }

  lemma {:induction false} StagedSlots(batch: seq<Elem>)
    requires forall e :: e in batch ==> e.remaining <= e.req.expected
    ensures |Slots(MapElems(batch, Stage))| <= |Asked(batch)|
    ensures |Slots(MapElems(batch, Stage))| == |Asked(batch)| <==> forall e :: e in batch ==> Unanswered(e)
    ensures (forall e :: e in batch ==> Unanswered(e)) ==> Slots(MapElems(batch, Stage)) == Asked(batch)
  {
    hide SlotsOf, Unanswered;
    if batch != [] {
      StagedSlots(batch[1..]);
      StagedSlotsOfOne(batch[0]);
      var q := MapElems(batch, Stage);
      assert q[1..] == MapElems(batch[1..], Stage);
      assert batch == [batch[0]] + batch[1..];
      assert (forall e :: e in batch ==> Unanswered(e)) <==>
             Unanswered(batch[0]) && forall e :: e in batch[1..] ==> Unanswered(e);
    }
  }

  lemma {:induction false} BatchWaits(q: seq<Elem>)
    requires Shape(q) && AllQueuedOk(q)
    ensures forall e :: e in q[Lead(q)..] ==> SlotsOf(e) == [] && e.remaining <= e.req.expected
  {
    LeadIs(q);
    forall e | e in q[Lead(q)..] ensures SlotsOf(e) == [] && e.remaining <= e.req.expected {
      var i :| Lead(q) <= i < |q| && q[i] == e;
      assert QueuedOk(q[i]);
    }
  }

  lemma {:induction false} StagingIsAppend(q: seq<Elem>)
    requires Shape(q) && AllQueuedOk(q)
    ensures
      var k := Lead(q);
      Slots(q[..k] + MapElems(q[k..], Stage)) == Slots(q) + Slots(MapElems(q[k..], Stage))
  {
    hide Slots, MapElems, Shape;
    var k := Lead(q);
    BatchWaits(q);
    NoSlots(q[k..]);
    SlotsAppend(q[..k], q[k..]);
    assert q == q[..k] + q[k..];
    SlotsAppend(q[..k], MapElems(q[k..], Stage));
  }

  /** Staging puts the slots of the batch behind those that are due.  They are what the server will send
      if and only if no request of the batch was answered in part on an earlier connection. */
  lemma {:induction false} StagingAppendsSlots(s: Mpx)
    requires Wf(s)
    ensures
      var batch := s.queue[Lead(s.queue)..];
      && Slots(PrepareWrite(s).queue) == Slots(s.queue) + Slots(MapElems(batch, Stage))
      && (Slots(PrepareWrite(s).queue) == Slots(s.queue) + Asked(batch) <==> forall e :: e in batch ==> Unanswered(e))
  {
    hide Slots, Asked, Shape, AllQueuedOk, Distinct, UsageOk, ParserOk, MapElems;
    var batch := s.queue[Lead(s.queue)..];
    StagingIsAppend(s.queue);
    BatchWaits(s.queue);
    StagedSlots(batch);
    SameHead(Slots(s.queue), Slots(MapElems(batch, Stage)), Asked(batch));
  }

  lemma {:induction false} SameHead(a: seq<Slot>, b: seq<Slot>, c: seq<Slot>)
    ensures a + b == a + c <==> b == c
  {
    if a + b == a + c {
      assert b == (a + b)[|a|..] && c == (a + c)[|a|..];
    }
  }

  /** When a reply is not taken as one.  A message that is not of the push type is handed to the head slot
      if and only if a slot is due and the request in front expects a reply.  So with slots due, exactly a
      response-less request still in front sends a reply to the receiver instead. */
  lemma {:induction false} ReplyIsRecognised(s: Mpx)
    requires Wf(s) && s.readBuffer != [] && !ToType(s.readBuffer[0]).Push?
    ensures !IsNextPush(s) <==> Slots(s.queue) != [] && s.queue[0].req.expected > 0
    ensures Slots(s.queue) != [] ==> (IsNextPush(s) <==> s.queue[0].req.expected == 0)
  {
    if s.queue != [] {
      assert QueuedOk(s.queue[0]);
      if s.queue[0].IsWaiting() {
        forall e | e in s.queue ensures SlotsOf(e) == [] {
          var i :| 0 <= i < |s.queue| && s.queue[i] == e;
          assert i > 0 ==> Rank(s.queue[0]) <= Rank(s.queue[i]);
        }
        NoSlots(s.queue);
      } else if s.queue[0].remaining > 0 {
        HeadSlot(s.queue);
      }
    }
  }

  /** The case that goes wrong: SUBSCRIBE and PING are staged together, and a reply arrives before the
      write is known to be complete.  It goes to the receiver, and PING still waits for it. */
  lemma {:induction false} EarlyReplyExample(subscribe: Req, ping: Req, reply: bytes)
    requires subscribe.expected == 0 && ping.expected == 1 && reply != [] && !ToType(reply[0]).Push?
    ensures
      var q := [MakeElem(0, subscribe).Mark(Staged), MakeElem(1, ping).Mark(Staged)];
      var s := EMPTY.(queue := q, readBuffer := reply);
      var t := CommitRead(s, None).mpx;
      && Slots(q) == [Slot(1, 0)] == Slots(t.queue)
      && forall d :: d in t.deliveries ==> d.ToReceiver?
  {
    hide Parser.Parse;
    var q := [MakeElem(0, subscribe).Mark(Staged), MakeElem(1, ping).Mark(Staged)];
    assert q[1..] == [q[1]] && q[1..][1..] == [];
    assert SlotsOf(q[0]) == [] && SlotsOf(q[1]) == [Slot(1, 0)];
    assert Slots(q[1..]) == SlotsOf(q[1]) + [];
    assert Slots(q) == [] + [Slot(1, 0)];
  }
}
