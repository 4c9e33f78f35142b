/** Runs from the initial state in which the exact conditions of the theorems fail. */
module Witnesses {
  import opened Bytes
  import opened Resp3
  import opened Request
  import opened Trees
  import opened MultiplexerSpec
  import opened Queues
  import opened Invariants
  import opened Correlation
  import opened Classification
  import opened Regularity
  import opened ConnectionSpec
  import opened Runs
  import opened ReplyOrder
  import opened Matching
  import opened Messages
  import opened WholeReplies
  import opened Resumption
  import opened Completion
  import Parser = ParserSpec

  // Putting runs together.

  lemma {:induction false} Chain(s: Sys, a: seq<Event>, b: seq<Event>, w: Watch, torn: set<Slot>)
    requires IsRun(s, a) && IsRun(After(s, a), b)
    ensures IsRun(s, a + b) && After(s, a + b) == After(After(s, a), b)
    ensures WatchAfter(w, s, a + b) == WatchAfter(WatchAfter(w, s, a), After(s, a), b)
    ensures TornAfter(torn, s, a + b) == TornAfter(TornAfter(torn, s, a), After(s, a), b)
    decreases |a|
  {
    hide Next, Enabled, Observe, TornBy;
    if a == [] {
      assert a + b == b;
    } else {
      var t := Next(s, a[0]);
      assert (a + b)[1..] == a[1..] + b;
      Chain(t, a[1..], b, Observe(w, s, a[0]), torn + TornBy(s.mpx, t.mpx));
    }
  }

  lemma {:induction false} OneStep(s: Sys, a: Event, w: Watch, torn: set<Slot>)
    requires Enabled(s, a)
    ensures IsRun(s, [a]) && After(s, [a]) == Next(s, a) && WatchAfter(w, s, [a]) == Observe(w, s, a)
    ensures TornAfter(torn, s, [a]) == torn + TornBy(s.mpx, Next(s, a).mpx)
  {
    hide Next, Enabled, Observe, TornBy;
    assert [a][1..] == [];
    assert IsRun(Next(s, a), []);
  }

  lemma {:induction false} TwoSteps(s: Sys, a: Event, b: Event, w: Watch, torn: set<Slot>)
    requires Enabled(s, a) && Enabled(Next(s, a), b)
    ensures IsRun(s, [a, b]) && After(s, [a, b]) == Next(Next(s, a), b)
    ensures WatchAfter(w, s, [a, b]) == Observe(Observe(w, s, a), Next(s, a), b)
    ensures
      var t, u := Next(s, a), Next(Next(s, a), b);
      TornAfter(torn, s, [a, b]) == torn + TornBy(s.mpx, t.mpx) + TornBy(t.mpx, u.mpx)
  {
    hide Next, Enabled, Observe, TornBy;
    OneStep(s, a, w, torn);
    OneStep(Next(s, a), b, Observe(w, s, a), torn + TornBy(s.mpx, Next(s, a).mpx));
    Chain(s, [a], [b], w, torn);
    assert [a] + [b] == [a, b];
  }

  // The phases of a connection.

  /** Between two connections, with these requests waiting. */
  ghost predicate Down(s: Sys, q: seq<Elem>) {
    s.writer.Off? && !s.reader && s.mpx.queue == q && AllWaiting(q)
  }

  /** In use, with these requests in flight and the write not yet known to be complete. */
  ghost predicate Up(s: Sys, q: seq<Elem>) {
    s.open && s.reader && s.writer.Writing? && s.mpx.queue == q && !s.mpx.cancelCalled
  }

  predicate IsHello(hello: Req) {
    hello.helloPriority && hello.cfg == DEFAULT_CONFIG && hello.expected == 1
  }

  predicate IsOrdinary(req: Req) {
    !req.helloPriority && !req.cfg.cancelIfNotConnected
  }

  const OK: Tree := Line(SimpleString, [])
  const OK_NODE: Node := Node(SimpleString, 1, 0, [])

  lemma {:induction false} OkIsReceivable()
    ensures Receivable(OK) && |Encode(OK)| == 3 && PreOrder(OK, 0) == [OK_NODE]
  {
  }

  lemma {:induction false} Submitting(s: Sys, q: seq<Elem>, req: Req, w: Watch, torn: set<Slot>)
    requires Down(s, q) && IsOrdinary(req)
    ensures
      var t := Next(s, Exec(req));
      && IsRun(s, [Exec(req)]) && After(s, [Exec(req)]) == t && TornAfter(torn, s, [Exec(req)]) == torn
      && Down(t, q + [MakeElem(s.nextId, req)]) && t.nextId == s.nextId + 1 && t.mpx.deliveries == s.mpx.deliveries
  {
    OneStep(s, Exec(req), w, torn);
  }

  function Opening(hello: Req): (evs: seq<Event>) {
    [Connected, Launch(hello, None)]
  }

  lemma {:induction false} Started(s: Sys, q: seq<Elem>, hello: Req)
    requires Down(s, q) && IsHello(hello)
    ensures
      var t, all := Start(s, hello, None), [MakeElem(s.nextId, hello)] + q;
      && t.mpx.queue == MapElems(all, Stage) && Idle(t.mpx) && t.mpx.deliveries == s.mpx.deliveries
      && t.open == s.open && t.reader && t.writer.Writing? && !t.mpx.cancelCalled
      && t.nextId == s.nextId + 1 && t.asked == Asked(all) && t.answered == []
  {
    hide Payloads, CommandCount, Asked, Stagings;
    var h := MakeElem(s.nextId, hello);
    NoLead(q);
    var all := [h] + q;
    assert Insert(q, h) == all;
    assert AllWaiting(all);
    NoLead(all);
    assert all[0..] == all && all[..0] == [];
    assert [] + MapElems(all, Stage) == MapElems(all, Stage);
    assert [] + Asked(all) == Asked(all);
  }

  lemma {:induction false} OpeningUp(s: Sys, q: seq<Elem>, hello: Req, w: Watch, torn: set<Slot>)
    requires Down(s, q) && IsHello(hello)
    ensures IsRun(s, Opening(hello))
    ensures
      var t, all := After(s, Opening(hello)), [MakeElem(s.nextId, hello)] + q;
      && Up(t, MapElems(all, Stage)) && Idle(t.mpx) && t.mpx.deliveries == s.mpx.deliveries
      && t.nextId == s.nextId + 1 && t.asked == Asked(all) && t.answered == []
    ensures WatchAfter(w, s, Opening(hello)) == Watch([], None)
    ensures TornAfter(torn, s, Opening(hello)) == torn
  {
    hide Start, MapElems, Asked;
    var u := Next(s, Connected);
    Started(u, q, hello);
    TwoSteps(s, Connected, Launch(hello, None), w, torn);
  }

  function Hearing(data: bytes, fault: Option<Parser.Fault>): (evs: seq<Event>) {
    [Receive(data), ReadMessage(fault)]
  }

  lemma {:induction false} OkIsRead(s: Mpx)
    requires Idle(s)
    ensures
      var u := Append(s, Encode(OK));
      && CanRead(u) && IsAnswer(u) && |u.readBuffer| == 3
      && CommitRead(u, None) == ReadResult(Message(TakenAsPush(s, OK), 3), HandOver(s, OK))
      && Destination(u) == if TakenAsPush(s, OK) then None else Some(FrontSlot(s))
  {
    hide CommitRead, Encode, HandOver;
    OkIsReceivable();
    ReadsOneMessage(s, OK, []);
    assert Encode(OK) + [] == Encode(OK) && [] + Encode(OK) == Encode(OK);
    FirstByte(OK, []);
    HandOverKeepsIdle(s, OK);
    assert HandOver(s, OK).readBuffer + [] == HandOver(s, OK).readBuffer;
  }

  /** A status arrives whole. */
  lemma {:induction false} Heard(s: Sys, q: seq<Elem>, w: Watch, torn: set<Slot>)
    requires Up(s, q) && Idle(s.mpx) && w.begun.None?
    ensures IsRun(s, Hearing(Encode(OK), None))
    ensures
      var t := After(s, Hearing(Encode(OK), None));
      && t.mpx == HandOver(s.mpx, OK) && t.open && t.reader && t.writer.Writing?
      && t.nextId == s.nextId && t.asked == s.asked
      && t.answered == s.answered + if TakenAsPush(s.mpx, OK) then [] else [FrontSlot(s.mpx)]
    ensures TornAfter(torn, s, Hearing(Encode(OK), None)) == torn
    ensures
      WatchAfter(w, s, Hearing(Encode(OK), None)) ==
      Watch(w.inbound + [Inbound(if TakenAsPush(s.mpx, OK) then None else Some(FrontSlot(s.mpx)), Finds(s.mpx))], None)
  {
    hide CommitRead, Encode, HandOver, Finds, CanRead, IsAnswer, Destination, NodesFor;
    OkIsRead(s.mpx);
    var u := Next(s, Receive(Encode(OK)));
    FindsToo(s.mpx, u.mpx);
    TwoSteps(s, Receive(Encode(OK)), ReadMessage(None), w, torn);
    HandOverFields(s.mpx);
    assert s.answered + [] == s.answered;
  }

  lemma {:induction false} FindsToo(s: Mpx, t: Mpx)
    requires t.queue == s.queue
    ensures Finds(t) == Finds(s)
  {
  }

  lemma {:induction false} HandOverFields(s: Mpx)
    ensures HandOver(s, OK).cancelCalled == s.cancelCalled
  {
  }

  /** The status is the reply to the request in front. */
  lemma {:induction false} TakenByFront(s: Mpx)
    requires Idle(s) && s.queue != [] && !s.queue[0].IsWaiting() && s.queue[0].remaining > 0
    ensures
      var t := HandOver(s, OK);
      && !TakenAsPush(s, OK) && Idle(t) && t.cancelCalled == s.cancelCalled
      && t.deliveries == s.deliveries + ToSlot(FrontSlot(s), [OK_NODE])
      && t.queue == CommitResponse(s, 3).queue
  {
    hide Encode, CommitResponse;
    OkIsReceivable();
    HandOverKeepsIdle(s, OK);
    assert Deliver([OK_NODE], Some(s.queue[0])) == ToSlot(FrontSlot(s), [OK_NODE]);
    ResponseFields(s);
  }

  lemma {:induction false} ResponseFields(s: Mpx)
    requires s.queue != [] && s.queue[0].remaining > 0
    ensures
      var t := CommitResponse(s, 3);
      t.cancelCalled == s.cancelCalled && t.deliveries == s.deliveries
  {
  }

  function Greeting(hello: Req): (evs: seq<Event>) {
    Opening(hello) + Hearing(Encode(OK), None)
  }

  /** A new connection, with the handshake answered. */
  lemma {:induction false} Greeted(s: Sys, q: seq<Elem>, hello: Req, w: Watch, torn: set<Slot>)
    requires Down(s, q) && IsHello(hello)
    ensures IsRun(s, Greeting(hello))
    ensures
      var t, h := After(s, Greeting(hello)), MakeElem(s.nextId, hello);
      && Up(t, MapElems(q, Stage)) && Idle(t.mpx)
      && t.mpx.deliveries == s.mpx.deliveries + ToSlot(Slot(s.nextId, 0), [OK_NODE])
      && t.nextId == s.nextId + 1 && t.asked == Asked([h] + q) && t.answered == [Slot(s.nextId, 0)]
    ensures WatchAfter(w, s, Greeting(hello)).begun.None?
    ensures TornAfter(torn, s, Greeting(hello)) == torn
  {
    hide IsRun, After, WatchAfter, TornAfter, Asked, Finds, HandOver, ToSlot, Slots;
    OpeningUp(s, q, hello, w, torn);
    var u := After(s, Opening(hello));
    var h := Stage(MakeElem(s.nextId, hello));
    assert u.mpx.queue[0] == h && u.mpx.queue[1..] == MapElems(q, Stage);
    Heard(u, u.mpx.queue, Watch([], None), torn);
    TakenByFront(u.mpx);
    Chain(s, Opening(hello), Hearing(Encode(OK), None), w, torn);
    assert CommitResponse(u.mpx, 3).queue == u.mpx.queue[1..];
    assert [] + [FrontSlot(u.mpx)] == [Slot(s.nextId, 0)];
  }

  function Losing(): (evs: seq<Event>) {
    [ReadFailed, WriteFailed]
  }

  /** The connection breaks: the read fails, then the write. */
  lemma {:induction false} Lost(s: Sys, q: seq<Elem>, w: Watch, torn: set<Slot>)
    requires Up(s, q)
    ensures IsRun(s, Losing())
    ensures
      var t := After(s, Losing());
      && Down(t, MapElems(Select(q, Survives), Requeue)) && t.nextId == s.nextId
      && t.mpx.deliveries == s.mpx.deliveries
    ensures WatchAfter(w, s, Losing()) == w
    ensures TornAfter(torn, s, Losing()) == torn + Tear(s.mpx)
  {
    hide Select, MapElems, Depart, NodesFor;
    var u := Next(s, ReadFailed);
    LostFields(s.mpx);
    ConnLostWaiting(s.mpx);
    LostAgain(u.mpx);
    TwoSteps(s, ReadFailed, WriteFailed, w, torn);
    assert TornBy(s.mpx, u.mpx) == Tear(s.mpx);
  }

  lemma {:induction false} InitIsDown()
    ensures Down(INIT, [])
  {
  }

  // A reply that arrives before the end of the write is known.

  function EarlyRun(subscribe: Req, ping: Req, hello: Req): (evs: seq<Event>) {
    [Exec(subscribe)] + [Exec(ping)] + Greeting(hello) + Hearing(Encode(OK), None)
  }

  lemma {:induction false} TwoSubmitted(a: Req, b: Req, w: Watch)
    requires IsOrdinary(a) && IsOrdinary(b)
    ensures
      var evs := [Exec(a)] + [Exec(b)];
      IsRun(INIT, evs) && Down(After(INIT, evs), [MakeElem(0, a), MakeElem(1, b)]) && After(INIT, evs).nextId == 2
  {
    hide IsRun, After, WatchAfter, TornAfter, Next;
    InitIsDown();
    Submitting(INIT, [], a, w, {});
    var s := After(INIT, [Exec(a)]);
    assert [] + [MakeElem(0, a)] == [MakeElem(0, a)];
    Submitting(s, [MakeElem(0, a)], b, w, {});
    Chain(INIT, [Exec(a)], [Exec(b)], w, {});
    assert [MakeElem(0, a)] + [MakeElem(1, b)] == [MakeElem(0, a), MakeElem(1, b)];
  }

  lemma {:induction false} StagedPair(a: Elem, b: Elem)
    ensures MapElems([a, b], Stage) == [Stage(a), Stage(b)] && MapElems([a], Stage) == [Stage(a)]
  {
  }

  /** SUBSCRIBE and PING are submitted, and a connection is made.  The answers to HELLO and PING arrive before
      the write is known to be complete: the second one finds SUBSCRIBE in front, goes to the receiver, and
      PING still waits for it. */
  lemma {:induction false} EarlyReplyRun(subscribe: Req, ping: Req, hello: Req)
    requires IsOrdinary(subscribe) && IsOrdinary(ping) && IsHello(hello)
    requires subscribe.expected == 0 && ping.expected == 1
    ensures IsRun(INIT, EarlyRun(subscribe, ping, hello))
    ensures
      var evs := EarlyRun(subscribe, ping, hello);
      var s, w := After(INIT, evs), WatchAfter(Watch([], None), INIT, evs);
      && Slots(s.mpx.queue) == [Slot(1, 0)]
      && w.inbound != [] && w.inbound[|w.inbound| - 1] == Inbound(None, false)
      && !Delivered(w.inbound, s.asked)
  {
    hide IsRun, After, WatchAfter, TornAfter, Asked, HandOver, ToSlot, Slots, Opening, Hearing;
    var w0 := Watch([], None);
    var q := [MakeElem(0, subscribe), MakeElem(1, ping)];
    var first := [Exec(subscribe)] + [Exec(ping)];
    TwoSubmitted(subscribe, ping, w0);
    var s := After(INIT, first);
    Greeted(s, q, hello, WatchAfter(w0, INIT, first), {});
    Chain(INIT, first, Greeting(hello), w0, {});
    var u, w := After(s, Greeting(hello)), WatchAfter(WatchAfter(w0, INIT, first), s, Greeting(hello));
    StagedPair(q[0], q[1]);
    Heard(u, u.mpx.queue, w, {});
    Chain(INIT, first + Greeting(hello), Hearing(Encode(OK), None), w0, {});
    assert !Finds(u.mpx) && TakenAsPush(u.mpx, OK);
    PushLeavesQueue(u.mpx);
    StagedSlotsOf(q[0], q[1]);
  }

  lemma {:induction false} PushLeavesQueue(s: Mpx)
    requires TakenAsPush(s, OK)
    ensures HandOver(s, OK).queue == s.queue
  {
  }

  lemma {:induction false} StagedSlotsOf(a: Elem, b: Elem)
    requires a.remaining == 0 && b.remaining == 1 == b.req.expected
    ensures Slots([Stage(a), Stage(b)]) == [Slot(b.id, 0)]
  {
    var q := [Stage(a), Stage(b)];
    assert q[1..] == [q[1]] && q[1..][1..] == [];
    assert SlotsOf(q[0]) == [] && SlotsOf(q[1]) == [Slot(b.id, 0)];
    assert Slots(q[1..]) == SlotsOf(q[1]) + [];
    assert Slots(q) == [] + [Slot(b.id, 0)];
  }

  // A connection lost between two replies to one request.

  lemma {:induction false} OneSubmitted(a: Req, hello: Req, w: Watch)
    requires IsOrdinary(a) && IsHello(hello)
    ensures
      var evs := [Exec(a)] + Greeting(hello);
      && IsRun(INIT, evs)
      && var s := After(INIT, evs);
         && Up(s, [Stage(MakeElem(0, a))]) && Idle(s.mpx) && s.nextId == 2
         && s.mpx.deliveries == ToSlot(Slot(1, 0), [OK_NODE])
         && TornAfter({}, INIT, evs) == {} && WatchAfter(w, INIT, evs).begun.None?
  {
    hide IsRun, After, WatchAfter, TornAfter, Next, Asked, Greeting, ToSlot;
    InitIsDown();
    Submitting(INIT, [], a, w, {});
    var s := After(INIT, [Exec(a)]);
    assert [] + [MakeElem(0, a)] == [MakeElem(0, a)];
    Greeted(s, [MakeElem(0, a)], hello, WatchAfter(w, INIT, [Exec(a)]), {});
    Chain(INIT, [Exec(a)], Greeting(hello), w, {});
    StagedPair(MakeElem(0, a), MakeElem(0, a));
    assert [] + ToSlot(Slot(1, 0), [OK_NODE]) == ToSlot(Slot(1, 0), [OK_NODE]);
  }

  lemma {:induction false} Kept(e: Elem)
    requires Survives(e)
    ensures MapElems(Select([e], Survives), Requeue) == [Requeue(e)]
  {
    assert [e][..0] == [];
    assert Select([e], Survives) == [] + [e];
  }

  function PartlyRun(two: Req, hello: Req): (evs: seq<Event>) {
    ([Exec(two)] + Greeting(hello)) + Hearing(Encode(OK), None) + Losing() + Opening(hello)
  }

  lemma {:induction false} PartlyAsked(h: Elem, e: Elem)
    requires h.req.expected == 1 == h.remaining && e.req.expected == 2 && e.remaining == 1
    ensures Slots([Stage(h), Stage(e)]) == [Slot(h.id, 0), Slot(e.id, 1)]
    ensures |Asked([h, e])| == 3
  {
    var q := [Stage(h), Stage(e)];
    assert q[1..] == [q[1]] && q[1..][1..] == [];
    assert SlotsOf(q[0]) == [Slot(h.id, 0)] && SlotsOf(q[1]) == [Slot(e.id, 1)];
    assert Slots(q[1..]) == SlotsOf(q[1]) + [];
    assert [h, e][1..] == [e] && [e][1..] == [];
    assert Asked([e]) == SlotsOf(MakeElem(e.id, e.req).Mark(Staged)) + [];
  }

  /** A request of two commands that is to be repeated is answered once, then the connection breaks.  On the
      next one both commands are sent again, but only the second reply is waited for: the replies are out
      of order. */
  lemma {:induction false} PartlyAnsweredRun(two: Req, hello: Req)
    requires IsOrdinary(two) && IsHello(hello) && two.expected == 2 && !two.cfg.cancelIfUnresponded
    ensures IsRun(INIT, PartlyRun(two, hello))
    ensures
      var s := After(INIT, PartlyRun(two, hello));
      && Slots(s.mpx.queue) == [Slot(2, 0), Slot(0, 1)] && |s.asked| == 3 && s.answered == []
      && !Fifo(s)
  {
    hide IsRun, After, WatchAfter, TornAfter, Asked, HandOver, ToSlot, Slots, Opening, Hearing, Greeting, Losing;
    hide Finds, Select, NodesFor;
    var w0, a, b := Watch([], None), [Exec(two)] + Greeting(hello), Hearing(Encode(OK), None);
    OneSubmitted(two, hello, w0);
    var s := After(INIT, a);
    var e := Stage(MakeElem(0, two));
    Heard(s, [e], WatchAfter(w0, INIT, a), {});
    TakenByFront(s.mpx);
    Chain(INIT, a, b, w0, {});
    var t := After(s, b);
    var d := e.(readSize := 3, remaining := 1);
    assert t.mpx.queue == [d];
    Lost(t, [d], w0, {});
    Kept(d);
    Chain(INIT, a + b, Losing(), w0, {});
    var u := After(t, Losing());
    OpeningUp(u, [Requeue(d)], hello, w0, {});
    Chain(INIT, a + b + Losing(), Opening(hello), w0, {});
    var h := MakeElem(2, hello);
    assert [h] + [Requeue(d)] == [h, Requeue(d)];
    StagedPair(h, Requeue(d));
    PartlyAsked(h, Requeue(d));
    assert [] + Slots([Stage(h), Stage(Requeue(d))]) == Slots([Stage(h), Stage(Requeue(d))]);
  }

  // A reply that its adapter refuses.

  function RefusedRun(a: Req, hello: Req, error: Error): (evs: seq<Event>) {
    ([Exec(a)] + Greeting(hello)) + Hearing(Encode(OK), Some(Parser.Fault(0, error)))
  }

  lemma {:induction false} OkIsConsumed(view: bytes)
    requires view == Encode(OK)
    ensures Parser.Consume(Parser.INITIAL, view) == Parser.Emit(OK_NODE, Parser.State([1], None, 3))
  {
    var two: seq<nat> := [2];
    assert two[..0] + [1] == [1];
    assert Parser.CommitElem(two) == Some([1]);
    assert view[0..0 + |view|] == view;
    RoundTrip.ReadLine(SimpleString, [], Parser.INITIAL, view);
  }

  lemma {:induction false} OkIsRefused(s: Mpx, error: Error)
    requires Idle(s) && s.queue != [] && !s.queue[0].IsWaiting() && s.queue[0].remaining > 0
    ensures
      var u := Append(s, Encode(OK));
      var r := CommitRead(u, Some(Parser.Fault(0, error)));
      && CanRead(u) && |u.readBuffer| == 3 && r.read == Failure(false, error)
      && r.mpx.queue == s.queue[0 := s.queue[0].NotifyError(error)] && r.mpx.cancelCalled == s.cancelCalled
  {
    hide Parser.Consume, Deliver, Encode;
    OkIsReceivable();
    FirstByte(OK, []);
    assert Encode(OK) + [] == Encode(OK) && [] + Encode(OK) == Encode(OK);
    OkIsConsumed(Encode(OK));
  }

  /** The reply to a request that is to be repeated is refused by its adapter.  Its caller is told, and yet the
      request waits in the queue to be sent again. */
  lemma {:induction false} RefusedReplyRun(a: Req, hello: Req, error: Error)
    requires IsOrdinary(a) && IsHello(hello) && a.expected == 1 && !a.cfg.cancelIfUnresponded
    ensures IsRun(INIT, RefusedRun(a, hello, error))
    ensures
      var s := After(INIT, RefusedRun(a, hello, error));
      && |s.mpx.queue| == 1 && s.mpx.queue[0].id == 0 && s.mpx.queue[0].IsWaiting()
      && s.mpx.queue[0].ec == Some(error) && !s.open
  {
    hide IsRun, After, WatchAfter, TornAfter, Greeting, ToSlot, Select, CommitRead, CanRead, NodesFor;
    var w0, first, fault := Watch([], None), [Exec(a)] + Greeting(hello), Some(Parser.Fault(0, error));
    OneSubmitted(a, hello, w0);
    var s := After(INIT, first);
    var e := Stage(MakeElem(0, a));
    OkIsRefused(s.mpx, error);
    TwoSteps(s, Receive(Encode(OK)), ReadMessage(fault), w0, {});
    Chain(INIT, first, Hearing(Encode(OK), fault), w0, {});
    Kept(e.NotifyError(error));
    assert [e][0 := e.NotifyError(error)] == [e.NotifyError(error)];
  }

  // A connection lost in the middle of a reply.

  const ARRAY_NODE: Node := Node(Array, 1, 0, [])

  function TornRun(a: Req, hello: Req): (evs: seq<Event>) {
    ([Exec(a)] + Greeting(hello)) + Hearing(HeaderLine(Array, 1), None) + Losing() + Greeting(hello) +
    Hearing(Encode(OK), None)
  }

  lemma {:induction false} HeaderIsConsumed(view: bytes)
    requires view == HeaderLine(Array, 1)
    ensures
      var p := Parser.State([2, 1], None, |view|);
      && Parser.Consume(Parser.INITIAL, view) == Parser.Emit(ARRAY_NODE, p)
      && Parser.Consume(p, view) == Parser.More(p)
      && |view| < 100 && view != [] && !ToType(view[0]).Push?
  {
    hide Parser.Consume;
    var two: seq<nat> := [2];
    assert two[..0] + [1] == [1];
    assert Parser.CommitElem(two) == Some([1]);
    assert view[0..0 + |view|] == view;
    RoundTrip.ReadCount(Array, 1, Parser.INITIAL, view);
    CodesAreInverse(Array, 0);
    AtTheEnd(Parser.State([2, 1], None, |view|), view);
  }

  lemma {:induction false} AtTheEnd(p: Parser.State, view: bytes)
    requires p.Ok() && p.bulk.None? && p.consumed == |view|
    ensures Parser.Consume(p, view) == Parser.More(p)
  {
  }

  lemma {:induction false} HeaderIsRead(s: Mpx)
    requires Idle(s) && s.queue != [] && !s.queue[0].IsWaiting() && s.queue[0].remaining > 0
    ensures
      var view := HeaderLine(Array, 1);
      var u := Append(s, view);
      var r := CommitRead(u, None);
      && CanRead(u) && |u.readBuffer| < 100 && r.read == NeedMore
      && r.mpx.queue == s.queue && r.mpx.cancelCalled == s.cancelCalled
      && r.mpx.deliveries == s.deliveries + ToSlot(FrontSlot(s), [ARRAY_NODE])
  {
    hide Parser.Consume, HeaderLine;
    var view := HeaderLine(Array, 1);
    assert [] + view == view;
    HeaderIsConsumed(view);
    var p := Parser.State([2, 1], None, |view|);
    assert Parser.Parse(p, view, None) == Parser.Parsed(Parser.Partial, p, []);
    assert Parser.Parse(Parser.INITIAL, view, None) == Parser.Parsed(Parser.Partial, p, [ARRAY_NODE] + []);
    assert Deliver([ARRAY_NODE], Some(s.queue[0])) == ToSlot(FrontSlot(s), [ARRAY_NODE]);
  }

  lemma {:induction false} HeaderHeard(s: Sys, q: seq<Elem>, w: Watch)
    requires Up(s, q) && Idle(s.mpx) && q != [] && !q[0].IsWaiting() && q[0].remaining > 0
    ensures IsRun(s, Hearing(HeaderLine(Array, 1), None))
    ensures
      var t := After(s, Hearing(HeaderLine(Array, 1), None));
      && Up(t, q) && t.nextId == s.nextId
      && t.mpx.deliveries == s.mpx.deliveries + ToSlot(FrontSlot(s.mpx), [ARRAY_NODE])
    ensures TornAfter({}, s, Hearing(HeaderLine(Array, 1), None)) == {}
  {
    hide CommitRead, HeaderLine, CanRead, NodesFor, ToSlot;
    HeaderIsRead(s.mpx);
    TwoSteps(s, Receive(HeaderLine(Array, 1)), ReadMessage(None), w, {});
  }

  /** The connection breaks in the middle of the reply to a request that is to be repeated.  The next
      connection brings the whole reply, and the request completes; but its adapter was handed a node too
      many. */
  lemma {:induction false} TornReplyRun(a: Req, hello: Req)
    requires IsOrdinary(a) && IsHello(hello) && a.expected == 1 && !a.cfg.cancelIfUnresponded
    ensures IsRun(INIT, TornRun(a, hello))
    ensures
      var s, torn := After(INIT, TornRun(a, hello)).mpx, TornAfter({}, INIT, TornRun(a, hello));
      var slot := NodesFor(s.deliveries, Slot(0, 0));
      && s.queue == [] && slot == [ARRAY_NODE, OK_NODE] && !IsMessage(slot) && Slot(0, 0) in torn
  {
    hide IsRun, After, WatchAfter, TornAfter, Asked, HandOver, ToSlot, Hearing, Greeting, Losing, Select, NodesFor;
    hide HeaderLine, Encode, Finds, IsMessage;
    var w0, first, header := Watch([], None), [Exec(a)] + Greeting(hello), Hearing(HeaderLine(Array, 1), None);
    var e := Stage(MakeElem(0, a));
    OneSubmitted(a, hello, w0);
    var s := After(INIT, first);
    HeaderHeard(s, [e], w0);
    Chain(INIT, first, header, w0, {});
    var t := After(s, header);
    Lost(t, [e], w0, {});
    Kept(e);
    Chain(INIT, first + header, Losing(), w0, {});
    var u := After(t, Losing());
    var torn := {} + Tear(t.mpx);
    Greeted(u, [Requeue(e)], hello, w0, torn);
    StagedPair(Requeue(e), Requeue(e));
    Chain(INIT, first + header + Losing(), Greeting(hello), w0, {});
    var v := After(u, Greeting(hello));
    Heard(v, v.mpx.queue, WatchAfter(w0, u, Greeting(hello)), torn);
    TakenByFront(v.mpx);
    Chain(INIT, first + header + Losing() + Greeting(hello), Hearing(Encode(OK), None), w0, {});
    SlotGets(s.mpx.deliveries, t.mpx.deliveries, v.mpx.deliveries);
    LeftoversSpoil([ARRAY_NODE], [OK_NODE]);
    assert [ARRAY_NODE] + [OK_NODE] == [ARRAY_NODE, OK_NODE];
  }

  /** The deliveries of that run, as far as they concern the request. */
  lemma {:induction false} SlotGets(a: seq<Delivery>, b: seq<Delivery>, c: seq<Delivery>)
    requires a == ToSlot(Slot(1, 0), [OK_NODE]) && b == a + ToSlot(Slot(0, 0), [ARRAY_NODE])
    requires c == b + ToSlot(Slot(2, 0), [OK_NODE])
    ensures NodesFor(b, Slot(0, 0)) == [ARRAY_NODE]
    ensures NodesFor(c + ToSlot(Slot(0, 0), [OK_NODE]), Slot(0, 0)) == [ARRAY_NODE] + [OK_NODE]
  {
    hide NodesFor, ToSlot;
    NodesForSlot([OK_NODE], Slot(1, 0), Slot(0, 0));
    Elsewhere(a, [ARRAY_NODE], Slot(0, 0));
    Elsewhere(b, [OK_NODE], Slot(2, 0));
    Elsewhere(c, [OK_NODE], Slot(0, 0));
    assert [] + [ARRAY_NODE] == [ARRAY_NODE];
  }

  // A completed operation whose request is sent again.

  function TerminalRun(req: Req, hello: Req): (evs: seq<Event>) {
    [Exec(req)] + Opening(hello) + [ExecCancelled(0, true)]
  }

  lemma {:induction false} FindSecond(s: Sys, h: Elem, e: Elem)
    requires s.mpx.queue == [h, e] && h.id != e.id
    ensures Holds(s, e.id) && Find(s, e.id) == e
  {
    var all := Everyone(s.mpx);
    assert all[0] == h && all[1] == e;
  }

  /** The cancellation gives up the connection and completes the operation; a request that may be sent again
      waits for the next one. */
  lemma {:induction false} Terminated(s: Sys, h: Elem, e: Elem, w: Watch, torn: set<Slot>)
    requires Up(s, [h, e]) && h.id != e.id && !e.IsWaiting() && e.ec.None? && !e.req.cfg.cancelIfUnresponded
    requires !h.IsWaiting() && e.id !in s.finished
    ensures IsRun(s, [ExecCancelled(e.id, true)])
    ensures
      var t := After(s, [ExecCancelled(e.id, true)]);
      && e.id in t.finished && Requeue(e) in t.mpx.queue && AllWaiting(t.mpx.queue)
      && t.reader && t.writer.Writing? && t.mpx.cancelCalled
  {
    hide CancelOnConnLost, Find;
    FindSecond(s, h, e);
    OneStep(s, ExecCancelled(e.id, true), w, torn);
    LossLeaves(s.mpx);
    ConnLostWaiting(s.mpx);
    assert e in s.mpx.queue && Survives(e);
  }

  /** Then the read and the write end. */
  lemma {:induction false} Closed(s: Sys, w: Watch, torn: set<Slot>)
    requires s.reader && s.writer.Writing? && s.mpx.cancelCalled && AllWaiting(s.mpx.queue)
    ensures IsRun(s, Losing()) && Down(After(s, Losing()), s.mpx.queue)
  {
    hide CancelOnConnLost, NodesFor;
    LostAgain(s.mpx);
    TwoSteps(s, ReadFailed, WriteFailed, w, torn);
  }

  lemma {:induction false} NoneCompletes(req: Req, hello: Req)
    ensures forall ev :: ev in [Exec(req)] + Opening(hello) ==> !Completes(ev)
  {
  }

  lemma {:induction false} StagedToo(q: seq<Elem>, h: Elem, e: Elem)
    requires e in q
    ensures Stage(e) in MapElems([h] + q, Stage)
  {
    assert e in [h] + q;
    MapMembers([h] + q, Stage);
  }

  /** A request that may be sent again is in flight when its operation is cancelled for good.  The operation
      completes, the request stays in the queue, and the next connection stages it once more. */
  lemma {:induction false} TerminalCancelRun(req: Req, hello: Req)
    requires IsOrdinary(req) && IsHello(hello) && !req.cfg.cancelIfUnresponded
    ensures IsRun(INIT, TerminalRun(req, hello)) && IsRun(INIT, TerminalRun(req, hello) + (Losing() + Opening(hello)))
    ensures
      var s := After(INIT, TerminalRun(req, hello));
      var t := After(INIT, TerminalRun(req, hello) + (Losing() + Opening(hello)));
      && 0 in s.finished && MakeElem(0, req) in s.mpx.queue
      && 0 in t.finished && Stage(MakeElem(0, req)) in t.mpx.queue && t.writer.Writing?
  {
    hide IsRun, After, WatchAfter, TornAfter, Next, Opening, Losing, Enabled;
    var w, e := Watch([], None), MakeElem(0, req);
    InitIsDown();
    Submitting(INIT, [], req, w, {});
    var s0 := After(INIT, [Exec(req)]);
    assert [] + [e] == [e];
    OpeningUp(s0, [e], hello, w, {});
    Chain(INIT, [Exec(req)], Opening(hello), w, {});
    var s1, h := After(s0, Opening(hello)), MakeElem(1, hello);
    assert [h] + [e] == [h, e];
    StagedPair(h, e);
    FinishedForGood(INIT, [Exec(req)] + Opening(hello));
    NoneCompletes(req, hello);
    Terminated(s1, Stage(h), Stage(e), w, {});
    Chain(INIT, [Exec(req)] + Opening(hello), [ExecCancelled(0, true)], w, {});
    var s2 := After(s1, [ExecCancelled(0, true)]);
    Closed(s2, w, {});
    var s3 := After(s2, Losing());
    OpeningUp(s3, s3.mpx.queue, hello, w, {});
    Chain(s2, Losing(), Opening(hello), w, {});
    Chain(INIT, TerminalRun(req, hello), Losing() + Opening(hello), w, {});
    StagedToo(s3.mpx.queue, MakeElem(s3.nextId, hello), e);
    FinishedForGood(s2, Losing() + Opening(hello));
  }
}
