/** From the bytes to the caller: each reply that a request counts is the nodes of exactly one message, however
    the bytes came and whatever happened in between, except where a connection was lost in the middle of
    it. */
module WholeReplies {
  import opened Bytes
  import opened Resp3
  import opened MultiplexerSpec
  import opened Queues
  import opened Invariants
  import opened Correlation
  import opened Histories
  import opened Resumption
  import opened Regularity
  import opened Classification
  import opened ConnectionSpec
  import opened Runs
  import opened Safety
  import Parser = ParserSpec

  // What each slot was handed.

  /** The nodes handed over under one reply slot, in order. */
  function NodesFor(ds: seq<Delivery>, slot: Slot): (ns: seq<Node>) {
    if ds == [] then []
    else
      var last := ds[|ds| - 1];
      NodesFor(ds[..|ds| - 1], slot) +
      if last.ToRequest? && last.id == slot.id && last.index == slot.index then [last.node] else []
  }

  lemma {:induction false} NodesForAppend(a: seq<Delivery>, b: seq<Delivery>, slot: Slot)
    ensures NodesFor(a + b, slot) == NodesFor(a, slot) + NodesFor(b, slot)
  {
    if b == [] {
      assert a + b == a;
    } else {
      assert (a + b)[..|a + b| - 1] == a + b[..|b| - 1];
      NodesForAppend(a, b[..|b| - 1], slot);
    }
  }

  lemma {:induction false} NodesForSlot(nodes: seq<Node>, slot: Slot, other: Slot)
    ensures NodesFor(ToSlot(slot, nodes), other) == if other == slot then nodes else []
  {
    if nodes != [] {
      var init := nodes[..|nodes| - 1];
      assert ToSlot(slot, nodes)[..|nodes| - 1] == ToSlot(slot, init);
      NodesForSlot(init, slot, other);
      assert nodes == init + [nodes[|nodes| - 1]];
    }
  }

  lemma {:induction false} NodesForReceiver(nodes: seq<Node>, slot: Slot)
    ensures NodesFor(Deliver(nodes, None), slot) == []
  {
    if nodes != [] {
      var init := nodes[..|nodes| - 1];
      assert Deliver(nodes, None)[..|nodes| - 1] == Deliver(init, None);
      NodesForReceiver(init, slot);
    }
  }

  lemma {:induction false} NoNodes(ds: seq<Delivery>, slot: Slot)
    requires forall d :: d in ds && d.ToRequest? ==> d.id != slot.id
    ensures NodesFor(ds, slot) == []
  {
    if ds != [] {
      assert ds == ds[..|ds| - 1] + [ds[|ds| - 1]];
      NoNodes(ds[..|ds| - 1], slot);
    }
  }

  // The invariant.

  /** The connection lives and a reply has been read in part. */
  predicate Mid(s: Mpx) {
    s.parser != Parser.INITIAL && !s.onPush && !s.cancelCalled
  }

  function FrontSlot(s: Mpx): (slot: Slot)
    requires s.queue != []
  {
    Slot(s.queue[0].id, s.queue[0].Index())
  }

  /** Behind what a lost connection left, if any, stand the nodes of the reply being read. */
  ghost predicate Begun(p: Parser.State, ns: seq<Node>, torn: bool) {
    exists k :: 0 <= k <= |ns| && Tracked(p, ns[k..]) && (torn <==> k > 0)
  }

  /** The reply that has begun belongs to the request in front. */
  ghost predicate MidOk(s: Mpx, torn: set<Slot>) {
    Mid(s) ==>
      && s.readBuffer != [] && !IsNextPush(s)
      && Begun(s.parser, NodesFor(s.deliveries, FrontSlot(s)), FrontSlot(s) in torn)
  }

  /** Nothing was handed over behind index `from`, and at `from` only what a lost connection left, unless
      that reply is being read. */
  ghost predicate NothingFrom(ds: seq<Delivery>, torn: set<Slot>, id: nat, from: int, begun: bool) {
    && (forall i: int :: i > from ==> NodesFor(ds, Slot(id, i)) == [] && Slot(id, i) !in torn)
    && (!begun ==> (NodesFor(ds, Slot(id, from)) == [] <==> Slot(id, from) !in torn))
  }

  ghost predicate Untouched(s: Mpx, torn: set<Slot>) {
    forall e :: e in s.queue ==>
                  NothingFrom(s.deliveries, torn, e.id, e.Index(), Mid(s) && e.id == s.queue[0].id)
  }

  /** What a slot holds once its reply is complete. */
  ghost predicate WholeUnless(ns: seq<Node>, torn: bool) {
    IsMessage(ns) <==> Regular(ns) && !torn
  }

  ghost predicate AllWhole(ds: seq<Delivery>, torn: set<Slot>, id: nat, n: int) {
    forall i: int :: 0 <= i < n ==> WholeUnless(NodesFor(ds, Slot(id, i)), Slot(id, i) in torn)
  }

  ghost predicate AllAnswered(s: Mpx, torn: set<Slot>) {
    forall e :: e in Everyone(s) ==> AllWhole(s.deliveries, torn, e.id, e.Index())
  }

  ghost predicate SlotsKnown(s: Mpx, torn: set<Slot>) {
    && (forall d :: d in s.deliveries && d.ToRequest? ==> Count(Everyone(s), d.id) > 0)
    && (forall x :: x in torn ==> Count(Everyone(s), x.id) > 0)
  }

  predicate Untorn(torn: set<Slot>, id: nat, n: int) {
    forall x :: x in torn && x.id == id ==> x.index >= n
  }

  predicate NeverTorn(torn: set<Slot>, id: nat) {
    forall x :: x in torn ==> x.id != id
  }

  /** A request that is not to be repeated leaves with the connection that tears its reply. */
  ghost predicate OneShotsWhole(s: Mpx, torn: set<Slot>) {
    && (forall e :: e in s.queue && OneShot(e) ==> NeverTorn(torn, e.id))
    && (forall e :: e in Everyone(s) && OneShot(e) ==> Untorn(torn, e.id, e.Index()))
  }

  ghost predicate WholeOk(s: Mpx, torn: set<Slot>) {
    && MidOk(s, torn) && Untouched(s, torn) && AllAnswered(s, torn) && SlotsKnown(s, torn) && OneShotsWhole(s, torn)
    && (!s.cancelCalled ==> Resumable(s.parser))
    && |s.readBuffer| + 2 < SIZE
  }

  /** The slot that a lost connection leaves with nodes of an unfinished reply. */
  function Tear(s: Mpx): (torn: set<Slot>) {
    if s.queue != [] && NodesFor(s.deliveries, FrontSlot(s)) != [] then {FrontSlot(s)} else {}
  }

  /** Enough to give up the connection. */
  ghost predicate LossReady(s: Mpx, torn: set<Slot>) {
    && (forall e :: e in s.queue ==> NothingFrom(s.deliveries, torn + Tear(s), e.id, e.Index(), false))
    && (forall e :: e in s.queue && e.IsWaiting() ==> NothingFrom(s.deliveries, torn, e.id, e.Index(), false))
    && AllAnswered(s, torn) && SlotsKnown(s, torn) && OneShotsWhole(s, torn) && |s.readBuffer| + 2 < SIZE
  }

  lemma {:induction false} ReadyForLoss(s: Mpx, torn: set<Slot>)
    requires Wf(s) && WholeOk(s, torn)
    ensures LossReady(s, torn)
  {
    hide NodesFor, Count, Everyone, AllAnswered, SlotsKnown, OneShotsWhole, Tracked;
    hide Shape, AllGoneOk, AllQueuedOk, UsageOk;
    forall e | e in s.queue ensures NothingFrom(s.deliveries, torn + Tear(s), e.id, e.Index(), false) {
      FrontIsOnly(s);
      assert s.queue == [s.queue[0]] + s.queue[1..];
      assert e.id == s.queue[0].id ==> e == s.queue[0];
      assert NothingFrom(s.deliveries, torn, e.id, e.Index(), Mid(s) && e.id == s.queue[0].id);
    }
    forall e | e in s.queue && e.IsWaiting() ensures NothingFrom(s.deliveries, torn, e.id, e.Index(), false) {
      FrontIsOnly(s);
      assert s.queue == [s.queue[0]] + s.queue[1..];
      assert Mid(s) ==> !s.queue[0].IsWaiting();
      assert Mid(s) ==> e.id != s.queue[0].id;
    }
  }

  // The operations other than reading.

  /** The request in front is still there. */
  predicate SameFront(s: Mpx, t: Mpx) {
    && s.queue != [] && t.queue != []
    && t.queue[0].id == s.queue[0].id && t.queue[0].req == s.queue[0].req
    && t.queue[0].remaining == s.queue[0].remaining && t.queue[0].IsWaiting() == s.queue[0].IsWaiting()
  }

  lemma {:induction false} AnsweredKept(s: Mpx, t: Mpx, torn: set<Slot>)
    requires AllAnswered(s, torn) && Descends(s, t, None) && t.deliveries == s.deliveries
    ensures AllAnswered(t, torn)
  {
    hide NodesFor, Everyone, AllWhole;
    forall e | e in Everyone(t) ensures AllWhole(t.deliveries, torn, e.id, e.Index()) {
      assert Has(Everyone(s), e, None);
      var d :| d in Everyone(s) && Same(d, e, None);
    }
  }

  lemma {:induction false} OneShotsKept(s: Mpx, t: Mpx, torn: set<Slot>)
    requires OneShotsWhole(s, torn) && Descends(s, t, None) && QueueDescends(s, t)
    ensures OneShotsWhole(t, torn)
  {
    hide Everyone, NeverTorn, Untorn;
    forall e | e in Everyone(t) && OneShot(e) ensures Untorn(torn, e.id, e.Index()) {
      assert Has(Everyone(s), e, None);
      var d :| d in Everyone(s) && Same(d, e, None);
    }
    forall e | e in t.queue && OneShot(e) ensures NeverTorn(torn, e.id) {
      assert Has(s.queue, e, None);
      var d :| d in s.queue && Same(d, e, None);
    }
  }

  lemma {:induction false} UntouchedKept(s: Mpx, t: Mpx, torn: set<Slot>)
    requires Untouched(s, torn) && QueueDescends(s, t) && t.deliveries == s.deliveries
    requires Mid(t) == Mid(s) && (Mid(s) ==> SameFront(s, t))
    ensures Untouched(t, torn)
  {
    hide NodesFor, NothingFrom;
    forall e | e in t.queue
      ensures NothingFrom(t.deliveries, torn, e.id, e.Index(), Mid(t) && e.id == t.queue[0].id)
    {
      assert Has(s.queue, e, None);
      var d :| d in s.queue && Same(d, e, None);
    }
  }

  lemma {:induction false} QuietWhole(s: Mpx, t: Mpx, torn: set<Slot>)
    requires WholeOk(s, torn) && QueueDescends(s, t) && Descends(s, t, None) && SameCount(s, t)
    requires t.deliveries == s.deliveries && t.parser == s.parser && t.onPush == s.onPush
    requires t.cancelCalled == s.cancelCalled && s.readBuffer <= t.readBuffer && |t.readBuffer| + 2 < SIZE
    requires Mid(s) ==> SameFront(s, t)
    ensures WholeOk(t, torn)
  {
    hide NodesFor, Everyone, Count, Begun, Untouched, AllAnswered, OneShotsWhole, QueueDescends, Descends;
    AnsweredKept(s, t, torn);
    UntouchedKept(s, t, torn);
    OneShotsKept(s, t, torn);
  }

  lemma {:induction false} FrontWhileMid(s: Mpx, i: Interference, torn: set<Slot>)
    requires Wf(s) && MidOk(s, torn) && Mid(s) && Allowed(s, i)
    ensures SameFront(s, Interfere(s, i))
  {
    hide Wf, Interfere, Allowed, Begun, NodesFor;
    FrontStays(s, i);
  }

  lemma {:induction false} Unfold(s: Mpx, t: Mpx, torn: set<Slot>)
    ensures WholeOk(s, torn) ==> MidOk(s, torn) && |s.readBuffer| + 2 < SIZE
    ensures Follows(s, t, None) ==> Descends(s, t, None) && StillWaiting(s, t)
    ensures SameCensus(s, t) ==> SameCount(s, t)
  {
    hide MidOk, Descends, StillWaiting, Count, Everyone;
  }

  lemma {:induction false} CancelWaitingWhole(s: Mpx, torn: set<Slot>)
    requires Wf(s) && WholeOk(s, torn)
    ensures WholeOk(CancelWaiting(s), torn)
  {
    hide Wf, WholeOk, Follows, Select, MapElems, Depart, SameCensus;
    CancelWaitingKeeps(s);
    CancelWaitingFollows(s);
    Unfold(s, CancelWaiting(s), torn);
    if Mid(s) {
      FrontWhileMid(s, CancellingWaiting, torn);
    }
    QuietWhole(s, CancelWaiting(s), torn);
  }

  lemma {:induction false} CommitWriteWhole(s: Mpx, torn: set<Slot>)
    requires Wf(s) && WholeOk(s, torn)
    ensures WholeOk(CommitWrite(s), torn)
  {
    hide Wf, WholeOk, Follows, Select, MapElems, Depart, SameCensus;
    CommitWriteKeeps(s);
    CommitWriteFollows(s);
    Unfold(s, CommitWrite(s), torn);
    if Mid(s) {
      FrontWhileMid(s, CommittingWrite, torn);
    }
    QuietWhole(s, CommitWrite(s), torn);
  }

  lemma {:induction false} PrepareWriteWhole(s: Mpx, torn: set<Slot>)
    requires Wf(s) && WholeOk(s, torn)
    ensures WholeOk(PrepareWrite(s), torn)
  {
    hide Wf, WholeOk, Follows, MapElems, Stagings, Payloads, CommandCount, Lead, SameCensus, Descends;
    PrepareWriteKeeps(s);
    ShapeOf(s);
    PrepareDescends(s);
    Unfold(s, PrepareWrite(s), torn);
    if Mid(s) {
      FrontWhileMid(s, PreparingWrite, torn);
    }
    QuietWhole(s, PrepareWrite(s), torn);
  }

  lemma {:induction false} RemoveWhole(s: Mpx, id: nat, torn: set<Slot>)
    requires Wf(s) && WholeOk(s, torn) && InQueue(s, id)
    ensures WholeOk(Remove(s, id), torn)
  {
    hide Wf, WholeOk, Follows, SameCensus, Descends, IndexOf;
    RemoveKeeps(s, id);
    RemoveDescends(s, id);
    Unfold(s, Remove(s, id), torn);
    if Mid(s) {
      FrontWhileMid(s, Removing(id), torn);
    }
    QuietWhole(s, Remove(s, id), torn);
  }

  lemma {:induction false} AppendWhole(s: Mpx, data: bytes, torn: set<Slot>)
    requires WholeOk(s, torn) && |s.readBuffer| + |data| + 2 < SIZE
    ensures WholeOk(Append(s, data), torn)
  {
    hide WholeOk, Descends, Everyone, Count;
    var t := Append(s, data);
    SelfFollows(s, t);
    Unfold(s, t, torn);
    assert SameCount(s, t) by {
      assert Everyone(t) == Everyone(s) by {
        EveryoneSame(s, t);
      }
    }
    forall e | e in t.queue ensures Has(s.queue, e, None) {
      assert Same(e, e, None);
    }
    assert Mid(s) ==> s.queue != [] by {
      MidHasFront(s, torn);
    }
    QuietWhole(s, t, torn);
  }

  lemma {:induction false} EveryoneSame(s: Mpx, t: Mpx)
    requires t.queue == s.queue && t.gone == s.gone
    ensures Everyone(t) == Everyone(s)
  {
  }

  lemma {:induction false} MidHasFront(s: Mpx, torn: set<Slot>)
    requires WholeOk(s, torn)
    ensures Mid(s) ==> s.queue != [] && !s.queue[0].IsWaiting() && s.queue[0].remaining > 0
  {
    hide Begun, NodesFor, Untouched, AllAnswered, SlotsKnown, OneShotsWhole;
  }

  lemma {:induction false} AddWhole(s: Mpx, e: Elem, torn: set<Slot>)
    requires Wf(s) && WholeOk(s, torn) && e == MakeElem(e.id, e.req) && Count(Everyone(s), e.id) == 0
    requires forall id: nat :: Count(Everyone(Add(s, e)), id) == Count(Everyone(s), id) + if id == e.id then 1 else 0
    ensures WholeOk(Add(s, e), torn)
  {
    hide Wf, NodesFor, Everyone, Count, Begun, Insert;
    var t := Add(s, e);
    AddDescends(s, e);
    if Mid(s) {
      FrontWhileMid(s, Adding(e), torn);
    }
    forall i: int ensures NodesFor(s.deliveries, Slot(e.id, i)) == [] {
      NoNodes(s.deliveries, Slot(e.id, i));
    }
  }

  /** After a loss, exactly the slot that was being read, if it got anything, is left with nodes that belong
      to no complete reply. */
  lemma {:induction false} LossWhole(s: Mpx, torn: set<Slot>)
    requires LossReady(s, torn) && !s.cancelCalled && Distinct(s) && SameCount(s, CancelOnConnLost(s))
    ensures WholeOk(CancelOnConnLost(s), torn + Tear(s))
  {
    hide NodesFor, Everyone, Count, NothingFrom, AllWhole, Select, CancelOnConnLost, Descends, AllAnswered, Distinct;
    hide OneShotsWhole, SlotsKnown, Tear;
    var t := CancelOnConnLost(s);
    ConnLostFollows(s);
    LostFields(s);
    ConnLostWaiting(s);
    TearAnswered(s, torn);
    AnsweredKept(s, t, torn + Tear(s));
    TearKnown(s, torn);
    KnownKept(s, t, torn + Tear(s));
    TearOneShots(s, t, torn);
    forall e | e in t.queue ensures NothingFrom(t.deliveries, torn + Tear(s), e.id, e.Index(), false) {
      assert Has(s.queue, e, None);
      var d :| d in s.queue && Same(d, e, None);
    }
  }

  lemma {:induction false} KnownKept(s: Mpx, t: Mpx, torn: set<Slot>)
    requires SlotsKnown(s, torn) && SameCount(s, t) && t.deliveries == s.deliveries
    ensures SlotsKnown(t, torn)
  {
    hide Count, Everyone;
  }

  lemma {:induction false} TearKnown(s: Mpx, torn: set<Slot>)
    requires SlotsKnown(s, torn)
    ensures SlotsKnown(s, torn + Tear(s))
  {
    hide Count, NodesFor;
    if s.queue != [] {
      CountHas(Everyone(s), 0);
    }
  }

  /** The slot torn is one whose reply is not complete. */
  lemma {:induction false} TearAnswered(s: Mpx, torn: set<Slot>)
    requires AllAnswered(s, torn) && Distinct(s)
    ensures AllAnswered(s, torn + Tear(s))
  {
    hide NodesFor, Everyone, Distinct, WholeUnless;
    forall e | e in Everyone(s) ensures AllWhole(s.deliveries, torn + Tear(s), e.id, e.Index()) {
      assert AllWhole(s.deliveries, torn, e.id, e.Index());
      if s.queue != [] && e.id == s.queue[0].id {
        InEveryone(s, s.queue[0]);
        UniqueElem(s, e, s.queue[0]);
      }
    }
  }

  lemma {:induction false} TearOneShots(s: Mpx, t: Mpx, torn: set<Slot>)
    requires OneShotsWhole(s, torn) && Distinct(s) && Descends(s, t, None) && StillWaiting(s, t)
    requires forall e :: e in t.queue ==> e.IsWaiting()
    requires LossReady(s, torn)
    ensures OneShotsWhole(t, torn + Tear(s))
  {
    hide NodesFor, Everyone, Distinct, AllAnswered, SlotsKnown;
    forall e | e in Everyone(t) && OneShot(e) ensures Untorn(torn + Tear(s), e.id, e.Index()) {
      assert Has(Everyone(s), e, None);
      var d :| d in Everyone(s) && Same(d, e, None);
      assert Untorn(torn, d.id, d.Index());
      if s.queue != [] && d.id == s.queue[0].id {
        InEveryone(s, s.queue[0]);
        UniqueElem(s, d, s.queue[0]);
      }
    }
    forall e | e in t.queue && OneShot(e) ensures NeverTorn(torn + Tear(s), e.id) {
      assert HasWaiting(s.queue, e);
      var d :| d in s.queue && d.IsWaiting() && Same(d, e, None);
      assert NeverTorn(torn, d.id);
      if d.id == s.queue[0].id {
        InEveryone(s, s.queue[0]);
        InEveryone(s, d);
        UniqueElem(s, d, s.queue[0]);
        assert NothingFrom(s.deliveries, torn, d.id, d.Index(), false);
      }
    }
  }

  lemma {:induction false} LostFields(s: Mpx)
    requires !s.cancelCalled
    ensures
      var t := CancelOnConnLost(s);
      t.deliveries == s.deliveries && t.readBuffer == s.readBuffer && t.cancelCalled
  {
    hide Select, MapElems, Depart;
  }

  lemma {:induction false} ResetWhole(s: Mpx, torn: set<Slot>)
    requires Wf(s) && WholeOk(s, torn) && AllWaiting(s.queue)
    ensures WholeOk(Reset(s), torn)
  {
    hide NodesFor, Everyone, Count, NothingFrom, AllWhole, Begun, Wf;
    EveryoneSame(s, Reset(s));
    MidHasFront(s, torn);
  }

  // Reading.

  lemma {:induction false} Elsewhere(ds: seq<Delivery>, nodes: seq<Node>, slot: Slot)
    ensures NodesFor(ds + ToSlot(slot, nodes), slot) == NodesFor(ds, slot) + nodes
    ensures forall x :: x != slot ==> NodesFor(ds + ToSlot(slot, nodes), x) == NodesFor(ds, x)
    ensures forall x :: NodesFor(ds + Deliver(nodes, None), x) == NodesFor(ds, x)
  {
    hide NodesFor;
    NodesForAppend(ds, ToSlot(slot, nodes), slot);
    NodesForSlot(nodes, slot, slot);
    forall x | x != slot ensures NodesFor(ds + ToSlot(slot, nodes), x) == NodesFor(ds, x) {
      NodesForAppend(ds, ToSlot(slot, nodes), x);
      NodesForSlot(nodes, slot, x);
    }
    forall x ensures NodesFor(ds + Deliver(nodes, None), x) == NodesFor(ds, x) {
      NodesForAppend(ds, Deliver(nodes, None), x);
      NodesForReceiver(nodes, x);
    }
  }

  /** What a read leaves in the multiplexer, field by field. */
  lemma {:induction false} ReadLeaves(s: Mpx, fault: Option<Parser.Fault>)
    requires CanRead(s)
    ensures
      var r := CommitRead(s, fault);
      var p := Parser.Parse(s.parser, s.readBuffer, fault);
      var push, t := s.onPush || IsNextPush(s), r.mpx;
      && (!push ==> s.queue != [])
      && t.deliveries == s.deliveries + (if push then Deliver(p.nodes, None) else ToSlot(FrontSlot(s), p.nodes))
      && t.cancelCalled == s.cancelCalled
      && (push || r.read.NeedMore? ==> t.queue == s.queue && t.gone == s.gone)
      && (r.read.NeedMore? ==>
            p.end.Partial? && t.parser == p.state && t.onPush == push && t.readBuffer == s.readBuffer)
      && (r.read.Message? ==>
            p.end.Complete? && t.parser == Parser.INITIAL && !t.onPush && |t.readBuffer| <= |s.readBuffer|)
      && (r.read.Failure? ==> t.readBuffer == s.readBuffer)
  {
    hide Parser.Parse;
    var p := Parser.Parse(s.parser, s.readBuffer, fault);
    if !(s.onPush || IsNextPush(s)) {
      assert Deliver(p.nodes, Some(s.queue[0])) == ToSlot(FrontSlot(s), p.nodes);
    }
  }

  lemma {:induction false} ReadResumable(s: Mpx, fault: Option<Parser.Fault>)
    requires CanRead(s) && Resumable(s.parser)
    ensures
      var r := CommitRead(s, fault);
      var p := Parser.Parse(s.parser, s.readBuffer, fault);
      && (r.read.NeedMore? || r.read.Message? ==>
            Resumable(r.mpx.parser) && p == Parser.Parse(s.parser, s.readBuffer, None))
      && (r.read.NeedMore? && r.mpx.parser == Parser.INITIAL ==> s.parser == Parser.INITIAL && p.nodes == [])
  {
    hide Parser.Parse, CommitRead;
    ReadLeaves(s, fault);
    FaultUnused(s.parser, s.readBuffer, fault);
    if CommitRead(s, fault).read.NeedMore? {
      PartialIsResumable(s.parser, s.readBuffer);
    }
  }

  lemma {:induction false} PushReadWhole(s: Mpx, fault: Option<Parser.Fault>, torn: set<Slot>)
    requires Wf(s) && WholeOk(s, torn) && CanRead(s) && !s.cancelCalled && (s.onPush || IsNextPush(s))
    ensures
      var r := CommitRead(s, fault);
      && (r.read.NeedMore? || r.read.Message? ==> WholeOk(r.mpx, torn))
      && (r.read.Failure? ==> LossReady(r.mpx, torn) && Tear(r.mpx) == Tear(s))
  {
    hide Wf, NodesFor, Everyone, Count, Begun, Parser.Parse, CommitRead, Deliver, WholeUnless, Resumable;
    hide NeverTorn, Untorn;
    var r := CommitRead(s, fault);
    var nodes := Parser.Parse(s.parser, s.readBuffer, fault).nodes;
    ReadLeaves(s, fault);
    ReadResumable(s, fault);
    Elsewhere(s.deliveries, nodes, Slot(0, 0));
    EveryoneSame(s, r.mpx);
    assert forall d :: d in r.mpx.deliveries && d.ToRequest? ==> d in s.deliveries by {
      ReceiverOnly(nodes);
    }
    ReadyForLoss(s, torn);
    assert !Mid(s) && (r.read.NeedMore? || r.read.Message? ==> !Mid(r.mpx));
  }

  lemma {:induction false} ReceiverOnly(nodes: seq<Node>)
    ensures forall d :: d in Deliver(nodes, None) ==> d.ToReceiver?
  {
  }

  /** What the slot in front holds: the leftovers of lost connections, then what the parser holds open. */
  lemma {:induction false} FrontIsBegun(s: Mpx, torn: set<Slot>)
    requires WholeOk(s, torn) && !s.cancelCalled && !s.onPush && s.queue != []
    ensures Begun(s.parser, NodesFor(s.deliveries, FrontSlot(s)), FrontSlot(s) in torn)
  {
    hide NodesFor, Tracked, AllAnswered, SlotsKnown, OneShotsWhole;
    if s.parser == Parser.INITIAL {
      var ns := NodesFor(s.deliveries, FrontSlot(s));
      assert s.queue[0] in s.queue;
      assert NothingFrom(s.deliveries, torn, s.queue[0].id, s.queue[0].Index(), false);
      StartIsTracked();
      assert ns[|ns|..] == [];
    }
  }

  /** Reading on extends the reply behind the leftovers; complete, it makes the slot one message exactly if
      it is regular and there are no leftovers. */
  lemma {:induction false} BegunGrows(p: Parser.State, view: bytes, ns: seq<Node>, torn: bool)
    requires p.Ok() && Resumable(p) && p.consumed <= |view| && |view| + 2 < SIZE && Begun(p, ns, torn)
    ensures
      var r := Parser.Parse(p, view, None);
      && (r.end.Partial? ==> Begun(r.state, ns + r.nodes, torn))
      && (r.end.Complete? ==> WholeUnless(ns + r.nodes, torn))
  {
    hide Parser.Parse, Tracked, IsMessage, Regular, AtRoot, Resumable;
    var r := Parser.Parse(p, view, None);
    var k :| 0 <= k <= |ns| && Tracked(p, ns[k..]) && (torn <==> k > 0);
    var a, m := ns[..k], ns[k..] + r.nodes;
    ResumeTracks(p, view, ns[k..]);
    assert (ns + r.nodes)[k..] == m;
    assert ns + r.nodes == a + m;
    if r.end.Complete? {
      LeftoversSpoil(a, m);
      assert k == 0 ==> a + m == m;
    }
  }

  lemma {:induction false} AnsweredGrows(s: Mpx, t: Mpx, nodes: seq<Node>, bump: Option<nat>, torn: set<Slot>)
    requires Distinct(s) && s.queue != [] && AllAnswered(s, torn) && Descends(s, t, bump)
    requires bump == None || bump == Some(s.queue[0].id)
    requires t.deliveries == s.deliveries + ToSlot(FrontSlot(s), nodes)
    requires bump.Some? ==> WholeUnless(NodesFor(s.deliveries, FrontSlot(s)) + nodes, FrontSlot(s) in torn)
    ensures AllAnswered(t, torn)
  {
    hide NodesFor, Everyone, Count, Distinct, WholeUnless, ToSlot;
    var front := s.queue[0];
    Elsewhere(s.deliveries, nodes, FrontSlot(s));
    InEveryone(s, front);
    forall e | e in Everyone(t) ensures AllWhole(t.deliveries, torn, e.id, e.Index()) {
      assert Has(Everyone(s), e, bump);
      var d :| d in Everyone(s) && Same(d, e, bump);
      if d.id == front.id {
        UniqueElem(s, d, front);
      }
      assert AllWhole(s.deliveries, torn, d.id, d.Index());
      forall i: int | 0 <= i < e.Index()
        ensures WholeUnless(NodesFor(t.deliveries, Slot(e.id, i)), Slot(e.id, i) in torn)
      {
        assert i < d.Index() ==> Slot(e.id, i) != FrontSlot(s);
        assert i < d.Index() ==> WholeUnless(NodesFor(s.deliveries, Slot(d.id, i)), Slot(d.id, i) in torn);
        assert i >= d.Index() ==> Slot(e.id, i) == FrontSlot(s);
      }
    }
  }

  lemma {:induction false} OneShotsGrow(s: Mpx, t: Mpx, bump: Option<nat>, torn: set<Slot>)
    requires Distinct(s) && s.queue != [] && OneShotsWhole(s, torn) && Descends(s, t, bump)
    requires bump == None || bump == Some(s.queue[0].id)
    requires forall e :: e in t.queue ==> Has(s.queue, e, bump)
    ensures OneShotsWhole(t, torn)
  {
    hide Everyone, Distinct, NeverTorn;
    InEveryone(s, s.queue[0]);
    forall e | e in Everyone(t) && OneShot(e) ensures Untorn(torn, e.id, e.Index()) {
      assert Has(Everyone(s), e, bump);
      var d :| d in Everyone(s) && Same(d, e, bump);
      assert Untorn(torn, d.id, d.Index());
      if d.id == s.queue[0].id {
        UniqueElem(s, d, s.queue[0]);
        assert NeverTorn(torn, d.id);
        FrontNeverTorn(torn, d.id);
      }
    }
    forall e | e in t.queue && OneShot(e) ensures NeverTorn(torn, e.id) {
      assert Has(s.queue, e, bump);
      var d :| d in s.queue && Same(d, e, bump);
    }
  }

  lemma {:induction false} FrontNeverTorn(torn: set<Slot>, id: nat)
    requires NeverTorn(torn, id)
    ensures forall n: int :: Untorn(torn, id, n)
  {
  }

  lemma {:induction false} KnownGrows(s: Mpx, t: Mpx, nodes: seq<Node>, torn: set<Slot>)
    requires s.queue != [] && SlotsKnown(s, torn) && SameCount(s, t)
    requires t.deliveries == s.deliveries + ToSlot(FrontSlot(s), nodes)
    ensures SlotsKnown(t, torn)
  {
    hide Count;
    CountHas(Everyone(s), 0);
    var more := ToSlot(FrontSlot(s), nodes);
    assert forall i :: 0 <= i < |more| ==> more[i] == ToRequest(s.queue[0].id, s.queue[0].Index(), nodes[i]);
  }

  lemma {:induction false} PartialReplyUntouched(s: Mpx, t: Mpx, nodes: seq<Node>, torn: set<Slot>)
    requires Untouched(s, torn) && s.queue != [] && t.queue == s.queue && Distinct(s)
    requires t.deliveries == s.deliveries + ToSlot(FrontSlot(s), nodes)
    requires !Mid(t) ==> !Mid(s) && nodes == []
    ensures Untouched(t, torn)
  {
    hide NodesFor, Everyone, Distinct, ToSlot;
    Elsewhere(s.deliveries, nodes, FrontSlot(s));
    FrontIsOnly(s);
    assert s.queue == [s.queue[0]] + s.queue[1..];
    forall e | e in t.queue
      ensures NothingFrom(t.deliveries, torn, e.id, e.Index(), Mid(t) && e.id == t.queue[0].id)
    {
      assert NothingFrom(s.deliveries, torn, e.id, e.Index(), Mid(s) && e.id == s.queue[0].id);
      assert e.id == s.queue[0].id ==> e == s.queue[0];
    }
  }

  lemma {:induction false} CompleteReplyUntouched(s: Mpx, t: Mpx, nodes: seq<Node>, size: nat, torn: set<Slot>)
    requires Untouched(s, torn) && Distinct(s) && s.queue != [] && s.queue[0].remaining > 0
    requires t.queue == CommitResponse(s, size).queue && !Mid(t)
    requires t.deliveries == s.deliveries + ToSlot(FrontSlot(s), nodes)
    ensures Untouched(t, torn)
    ensures forall e :: e in t.queue ==> Has(s.queue, e, Some(s.queue[0].id))
  {
    hide NodesFor, Everyone, Distinct, ToSlot;
    Elsewhere(s.deliveries, nodes, FrontSlot(s));
    FrontIsOnly(s);
    var front := s.queue[0];
    assert s.queue == [front] + s.queue[1..];
    forall e | e in t.queue
      ensures NothingFrom(t.deliveries, torn, e.id, e.Index(), false) && Has(s.queue, e, Some(front.id))
    {
      if e.id == front.id {
        assert e !in s.queue[1..];
        assert e == t.queue[0] && e.Index() == front.Index() + 1;
        assert NothingFrom(s.deliveries, torn, front.id, front.Index(), Mid(s));
        assert Same(front, e, Some(front.id));
      } else {
        assert e in s.queue[1..];
        assert NothingFrom(s.deliveries, torn, e.id, e.Index(), false);
        assert Same(e, e, Some(front.id));
      }
    }
  }

  /** One element of the queue, after the reply in front was refused. */
  lemma {:induction false} RefusedLeaves(s: Mpx, t: Mpx, nodes: seq<Node>, d: Elem, e: Elem, torn: set<Slot>)
    requires LossReady(s, torn) && s.queue != [] && t.queue != [] && d in s.queue && Same(d, e, None)
    requires FrontSlot(t) == FrontSlot(s) && (d.id == s.queue[0].id ==> d == s.queue[0])
    requires d.IsWaiting() == e.IsWaiting() && (d.IsWaiting() ==> d.id != s.queue[0].id)
    requires t.deliveries == s.deliveries + ToSlot(FrontSlot(s), nodes)
    ensures NothingFrom(t.deliveries, torn + Tear(t), e.id, e.Index(), false)
    ensures e.IsWaiting() ==> NothingFrom(t.deliveries, torn, e.id, e.Index(), false)
  {
    hide NodesFor, Everyone, ToSlot, AllAnswered, SlotsKnown, OneShotsWhole;
    Elsewhere(s.deliveries, nodes, FrontSlot(s));
    assert NothingFrom(s.deliveries, torn + Tear(s), d.id, d.Index(), false);
    assert d.IsWaiting() ==> NothingFrom(s.deliveries, torn, d.id, d.Index(), false);
  }

  lemma {:induction false} RefusedReplyReady(s: Mpx, t: Mpx, nodes: seq<Node>, error: Error, torn: set<Slot>)
    requires LossReady(s, torn) && Distinct(s) && s.queue != [] && !s.queue[0].IsWaiting()
    requires t.queue == s.queue[0 := s.queue[0].NotifyError(error)] && Descends(s, t, None) && SameCount(s, t)
    requires t.deliveries == s.deliveries + ToSlot(FrontSlot(s), nodes) && t.readBuffer == s.readBuffer
    ensures LossReady(t, torn)
  {
    hide NodesFor, Everyone, Distinct, ToSlot, Count, AllAnswered, SlotsKnown, Descends, OneShotsWhole, NothingFrom;
    FrontIsOnly(s);
    AnsweredGrows(s, t, nodes, None, torn);
    KnownGrows(s, t, nodes, torn);
    var front := s.queue[0];
    assert t.queue[1..] == s.queue[1..];
    assert t.queue == [t.queue[0]] + s.queue[1..] && s.queue == [front] + s.queue[1..];
    forall e | e in t.queue
      ensures Has(s.queue, e, None) && NothingFrom(t.deliveries, torn + Tear(t), e.id, e.Index(), false)
      ensures e.IsWaiting() ==> NothingFrom(t.deliveries, torn, e.id, e.Index(), false)
    {
      var d := if e == t.queue[0] then front else e;
      assert d in s.queue && Same(d, e, None);
      assert e != t.queue[0] ==> e in s.queue[1..] && e.id != front.id;
      RefusedLeaves(s, t, nodes, d, e, torn);
    }
    OneShotsGrow(s, t, None, torn);
  }

  lemma {:induction false} ReplyQueues(s: Mpx, fault: Option<Parser.Fault>)
    requires CanRead(s) && !(s.onPush || IsNextPush(s))
    ensures
      var r := CommitRead(s, fault);
      && (r.read.Message? ==> !r.read.push && r.mpx.queue == CommitResponse(s, r.read.size).queue)
      && (r.read.Failure? ==> r.mpx.queue == s.queue[0 := s.queue[0].NotifyError(r.read.error)])
  {
    hide Parser.Parse, Deliver;
  }

  /** A read of a reply extends what the slot in front was handed, and nothing else. */
  lemma {:induction false} ReplyReadWhole(s: Mpx, fault: Option<Parser.Fault>, torn: set<Slot>)
    requires Wf(s) && WholeOk(s, torn) && CanRead(s) && !s.cancelCalled && !(s.onPush || IsNextPush(s))
    ensures
      var r := CommitRead(s, fault);
      && (r.read.NeedMore? || r.read.Message? ==> WholeOk(r.mpx, torn))
      && (r.read.Failure? ==> LossReady(r.mpx, torn))
  {
    hide Wf, NodesFor, Everyone, Count, Begun, Parser.Parse, CommitRead, ToSlot, Deliver, WholeUnless, Resumable;
    hide AllAnswered, Untouched, SlotsKnown, Descends, StillWaiting, NoneRemoved, Distinct, CommitResponse;
    hide OneShotsWhole, Tear;
    var r, p := CommitRead(s, fault), Parser.Parse(s.parser, s.readBuffer, fault);
    var t := r.mpx;
    ReadLeaves(s, fault);
    ReadResumable(s, fault);
    ReplyQueues(s, fault);
    ReadFollows(s, fault);
    CommitReadKeeps(s, fault);
    DistinctOf(s);
    KnownGrows(s, t, p.nodes, torn);
    FrontIsBegun(s, torn);
    BegunGrows(s.parser, s.readBuffer, NodesFor(s.deliveries, FrontSlot(s)), FrontSlot(s) in torn);
    match r.read {
      case NeedMore =>
        AnsweredGrows(s, t, p.nodes, None, torn);
        PartialReplyUntouched(s, t, p.nodes, torn);
        Elsewhere(s.deliveries, p.nodes, FrontSlot(s));
        forall e | e in t.queue ensures Has(s.queue, e, None) {
          assert Same(e, e, None);
        }
        OneShotsGrow(s, t, None, torn);
      case Message(_, size) =>
        AnsweredGrows(s, t, p.nodes, Some(s.queue[0].id), torn);
        CompleteReplyUntouched(s, t, p.nodes, size, torn);
        OneShotsGrow(s, t, Some(s.queue[0].id), torn);
      case Failure(_, e) =>
        ReadyForLoss(s, torn);
        RefusedReplyReady(s, t, p.nodes, e, torn);
      case Crash =>
    }
  }

  /** A repeated reply, read in as many steps as it takes.  With `a` left by lost connections and `ns` read so
      far, the slot is one message when the reply is complete if and only if it is regular and nothing was
      left. */
  lemma {:induction false} RepeatedReply(s: Mpx, fault: Option<Parser.Fault>, a: seq<Node>, ns: seq<Node>)
    requires CanRead(s) && !(s.onPush || IsNextPush(s)) && Resumable(s.parser) && |s.readBuffer| + 2 < SIZE
    requires NodesFor(s.deliveries, FrontSlot(s)) == a + ns && Tracked(s.parser, ns)
    requires CommitRead(s, fault).read.Message?
    ensures
      var slot := NodesFor(CommitRead(s, fault).mpx.deliveries, FrontSlot(s));
      IsMessage(slot) <==> a == [] && Regular(slot)
  {
    hide NodesFor, CommitRead, Parser.Parse, ToSlot, Deliver, Tracked, IsMessage, Regular, Resumable;
    var nodes := Parser.Parse(s.parser, s.readBuffer, fault).nodes;
    ReadLeaves(s, fault);
    ReadResumable(s, fault);
    Elsewhere(s.deliveries, nodes, FrontSlot(s));
    assert (a + ns)[|a|..] == ns;
    assert Begun(s.parser, a + ns, a != []);
    BegunGrows(s.parser, s.readBuffer, a + ns, a != []);
  }

  // Over whole runs.

  /** The slot that a step leaves with nodes of an unfinished reply, because it gives up the connection. */
  function TornBy(s: Mpx, t: Mpx): (torn: set<Slot>) {
    if !s.cancelCalled && t.cancelCalled && s.queue != [] && NodesFor(t.deliveries, FrontSlot(s)) != [] then
      {FrontSlot(s)}
    else {}
  }

  /** All slots torn in a run. */
  ghost function TornAfter(torn: set<Slot>, s: Sys, evs: seq<Event>): (r: set<Slot>)
    requires IsRun(s, evs)
    decreases |evs|
  {
    if evs == [] then torn
    else
      var t := Next(s, evs[0]);
      TornAfter(torn + TornBy(s.mpx, t.mpx), t, evs[1..])
  }

  lemma {:induction false} NotTorn(s: Mpx, t: Mpx, torn: set<Slot>)
    requires s.cancelCalled || !t.cancelCalled
    ensures torn + TornBy(s, t) == torn
  {
  }

  /** Giving up the connection from `u`, which a step reaches from `s`. */
  lemma {:induction false} DropWhole(s: Mpx, u: Sys, torn: set<Slot>)
    requires Wf(u.mpx) && (if u.mpx.cancelCalled then WholeOk(u.mpx, torn) else LossReady(u.mpx, torn))
    requires s.cancelCalled == u.mpx.cancelCalled
    requires s.queue == [] <==> u.mpx.queue == []
    requires s.queue != [] ==> FrontSlot(s) == FrontSlot(u.mpx)
    ensures WholeOk(Drop(u).mpx, torn + TornBy(s, Drop(u).mpx))
  {
    hide Wf, WholeOk, LossReady, CancelOnConnLost, Count, Everyone, NodesFor;
    CancelOnConnLostKeeps(u.mpx);
    DistinctOf(u.mpx);
    var t := Drop(u).mpx;
    if u.mpx.cancelCalled {
      LostAgain(u.mpx);
      NotTorn(s, t, torn);
    } else {
      LossWhole(u.mpx, torn);
      LostFields(u.mpx);
      assert TornBy(s, t) == Tear(u.mpx);
    }
  }

  lemma {:induction false} LostAgain(s: Mpx)
    requires s.cancelCalled
    ensures CancelOnConnLost(s) == s
  {
  }

  lemma {:induction false} DropWholeToo(s: Sys, torn: set<Slot>)
    requires Wf(s.mpx) && WholeOk(s.mpx, torn)
    ensures WholeOk(Drop(s).mpx, torn + TornBy(s.mpx, Drop(s).mpx))
  {
    hide Wf, WholeOk, LossReady, Drop, TornBy;
    ReadyForLoss(s.mpx, torn);
    DropWhole(s.mpx, s, torn);
  }

  lemma {:induction false} SubmitWhole(s: Sys, req: Req, torn: set<Slot>)
    requires Books(s) && WholeOk(s.mpx, torn)
    ensures WholeOk(Submit(s, req).mpx, torn)
    ensures Submit(s, req).mpx.cancelCalled == s.mpx.cancelCalled
  {
    hide Wf, WholeOk, Logs, Count, Everyone, Insert;
    var e := MakeElem(s.nextId, req);
    AddKeeps(s.mpx, e);
    AddWhole(s.mpx, e, torn);
  }

  lemma {:induction false} TurnWhole(s: Sys, torn: set<Slot>)
    requires Wf(s.mpx) && WholeOk(s.mpx, torn)
    ensures WholeOk(WriterTurn(s).mpx, torn)
    ensures WriterTurn(s).mpx.cancelCalled == s.mpx.cancelCalled
  {
    hide Wf, WholeOk, Asked, MapElems, Payloads, CommandCount, Stagings, Lead;
    PrepareWriteWhole(s.mpx, torn);
  }

  lemma {:induction false} StartWhole(s: Sys, hello: Req, ping: Option<Req>, torn: set<Slot>)
    requires Books(s) && WholeOk(s.mpx, torn) && AllWaiting(s.mpx.queue)
    ensures WholeOk(Start(s, hello, ping).mpx, torn) && !Start(s, hello, ping).mpx.cancelCalled
  {
    hide Books, WholeOk, Submit, WriterTurn, AllWaiting;
    var u := s.(mpx := Reset(s.mpx), asked := [], answered := [], appended := 0, reader := true,
                base := s.mpx.usage.responseBytes + s.mpx.usage.pushBytes);
    WfOf(s);
    ResetWhole(s.mpx, torn);
    ResetKeepsBooks(s, u);
    SubmitKeepsBooks(u, hello);
    SubmitWhole(u, hello, torn);
    var v := Submit(u, hello);
    if ping.Some? {
      SubmitKeepsBooks(v, ping.value);
      SubmitWhole(v, ping.value, torn);
      WfOf(Submit(v, ping.value));
      TurnWhole(Submit(v, ping.value), torn);
    } else {
      WfOf(v);
      TurnWhole(v, torn);
    }
  }

  lemma {:induction false} SameFrontSlot(s: Mpx, fault: Option<Parser.Fault>)
    requires CanRead(s) && CommitRead(s, fault).read.Failure?
    ensures
      var t := CommitRead(s, fault).mpx;
      (s.queue == [] <==> t.queue == []) && (s.queue != [] ==> FrontSlot(s) == FrontSlot(t))
  {
    hide Parser.Parse, Deliver;
  }

  lemma {:induction false} TakeReadWhole(s: Sys, fault: Option<Parser.Fault>, torn: set<Slot>)
    requires Books(s) && WholeOk(s.mpx, torn) && CanRead(s.mpx) && !s.mpx.cancelCalled
    requires !CommitRead(s.mpx, fault).read.Crash?
    ensures WholeOk(TakeRead(s, fault).mpx, torn + TornBy(s.mpx, TakeRead(s, fault).mpx))
  {
    hide Books, WholeOk, LossReady, CommitRead, Drop, TornBy;
    WfOf(s);
    var r := CommitRead(s.mpx, fault);
    CommitReadKeeps(s.mpx, fault);
    ReadKeepsStatus(s.mpx, fault);
    if s.mpx.onPush || IsNextPush(s.mpx) {
      PushReadWhole(s.mpx, fault, torn);
    } else {
      ReplyReadWhole(s.mpx, fault, torn);
    }
    if r.read.Failure? {
      SameFrontSlot(s.mpx, fault);
      DropWhole(s.mpx, s.(mpx := r.mpx, reader := false), torn);
    } else {
      NotTorn(s.mpx, r.mpx, torn);
    }
  }

  lemma {:induction false} CancelOneWhole(s: Sys, id: nat, terminal: bool, torn: set<Slot>)
    requires Wf(s.mpx) && WholeOk(s.mpx, torn) && Holds(s, id)
    ensures WholeOk(CancelOne(s, id, terminal).mpx, torn + TornBy(s.mpx, CancelOne(s, id, terminal).mpx))
  {
    hide Wf, WholeOk, Drop, Remove, Find, InQueue, TornBy;
    NotTorn(s.mpx, s.mpx, torn);
    if InQueue(s.mpx, id) {
      RemoveWhole(s.mpx, id, torn);
      RemoveKeepsStatus(s.mpx, id);
      NotTorn(s.mpx, Remove(s.mpx, id), torn);
    }
    DropWholeToo(s, torn);
  }

  lemma {:induction false} WriteOverWhole(s: Sys, ok: bool, torn: set<Slot>)
    requires Wf(s.mpx) && WholeOk(s.mpx, torn)
    ensures WholeOk(WriteOver(s, ok).mpx, torn + TornBy(s.mpx, WriteOver(s, ok).mpx))
  {
    hide Wf, WholeOk, Drop, WriterTurn, CommitWrite, TornBy;
    DropWholeToo(s, torn);
    CommitWriteWhole(s.mpx, torn);
    CommitWriteKeeps(s.mpx);
    WriteEnds(s.mpx);
    TurnWhole(s.(mpx := CommitWrite(s.mpx)), torn);
    if ok {
      NotTorn(s.mpx, WriteOver(s, ok).mpx, torn);
    }
  }

  lemma {:induction false} StepWhole(s: Sys, ev: Event, torn: set<Slot>)
    requires Inv(s) && WholeOk(s.mpx, torn) && Enabled(s, ev)
    ensures WholeOk(Next(s, ev).mpx, torn + TornBy(s.mpx, Next(s, ev).mpx))
  {
    hide Books, Submit, Start, WriterTurn, Drop, TakeRead, CancelOne, WriteOver, CancelWaiting, TornBy;
    hide Finish, Find, CommitRead, CanRead, WholeOk, AllWaiting, NoneWaiting;
    WfOf(s);
    var t := Next(s, ev).mpx;
    if s.mpx.cancelCalled || !t.cancelCalled {
      NotTorn(s.mpx, t, torn);
    }
    match ev {
      case Exec(req) => SubmitWhole(s, req, torn);
      case Launch(hello, ping) => StartWhole(s, hello, ping, torn);
      case WriteDone => WriteOverWhole(s, true, torn);
      case WriteFailed => WriteOverWhole(s, false, torn);
      case TimerFired => TurnWhole(s, torn);
      case Receive(data) => AppendWhole(s.mpx, data, torn);
      case ReadMessage(fault) => TakeReadWhole(s, fault, torn);
      case ReadFailed => DropWholeToo(s, torn);
      case CancelRun => DropWholeToo(s, torn);
      case CancelExec =>
        CancelWaitingWhole(s.mpx, torn);
        CancelWaitingKeepsBuffer(s.mpx);
      case ExecCancelled(id, terminal) => CancelOneWhole(s, id, terminal, torn);
      case ExecFinished(id) => FinishMpx(s, id);
      case _ =>
    }
  }

  lemma {:induction false} FinishMpx(s: Sys, id: nat)
    ensures Finish(s, id).mpx == s.mpx
  {
  }

  lemma {:induction false} RunWhole(s: Sys, evs: seq<Event>, torn: set<Slot>)
    requires Inv(s) && WholeOk(s.mpx, torn) && IsRun(s, evs)
    ensures Inv(After(s, evs)) && WholeOk(After(s, evs).mpx, TornAfter(torn, s, evs))
    decreases |evs|
  {
    hide Books, Control, Next, Enabled, WholeOk, TornBy;
    if evs != [] {
      StepKeepsBooks(s, evs[0]);
      StepKeepsControl(s, evs[0]);
      StaysSound(s, evs[0]);
      StepWhole(s, evs[0], torn);
      var t := Next(s, evs[0]);
      RunWhole(t, evs[1..], torn + TornBy(s.mpx, t.mpx));
    }
  }

  lemma {:induction false} InitWhole()
    ensures WholeOk(INIT.mpx, {})
  {
    assert Everyone(EMPTY) == [];
  }

  /** Every reply is one whole message, exactly.  In every reachable state, over any number of connections,
      reads cut anywhere and any interleaving, for every request whatever its flags: an answered index was
      handed the pre-order nodes of exactly one message if and only if what came is regular and no
      connection was lost in the middle of that reply.  A request that is not to be repeated never counts a
      reply that was torn. */
  lemma {:induction false} RepliesAreWholeMessages(evs: seq<Event>)
    requires IsRun(INIT, evs)
    ensures
      var s, torn := After(INIT, evs).mpx, TornAfter({}, INIT, evs);
      && (forall e, i: int :: e in Everyone(s) && 0 <= i < AnsweredOf(e) ==>
            WholeUnless(NodesFor(s.deliveries, Slot(e.id, i)), Slot(e.id, i) in torn))
      && (forall e, i: int :: e in Everyone(s) && e.req.cfg.cancelIfUnresponded && 0 <= i < AnsweredOf(e) ==>
            Slot(e.id, i) !in torn)
      && (forall d :: d in s.gone && d.exit.Completed? ==> AnsweredOf(d.elem) == d.elem.req.expected)
  {
    hide Books, Control, Next, Enabled, After, IsRun, NodesFor, WholeUnless, Everyone, Wf, TornAfter;
    InitInv();
    InitWhole();
    RunWhole(INIT, evs, {});
    var s, torn := After(INIT, evs).mpx, TornAfter({}, INIT, evs);
    forall e, i: int | e in Everyone(s) && 0 <= i < AnsweredOf(e)
      ensures WholeUnless(NodesFor(s.deliveries, Slot(e.id, i)), Slot(e.id, i) in torn)
    {
      assert AllWhole(s.deliveries, torn, e.id, e.Index());
    }
    forall e, i: int | e in Everyone(s) && e.req.cfg.cancelIfUnresponded && 0 <= i < AnsweredOf(e)
      ensures Slot(e.id, i) !in torn
    {
      assert OneShot(e) && Untorn(torn, e.id, e.Index());
    }
    WfOf(After(INIT, evs));
    GoneIsOk(s);
    forall d | d in s.gone && d.exit.Completed? ensures AnsweredOf(d.elem) == d.elem.req.expected {
      assert GoneOk(d);
    }
  }
}
