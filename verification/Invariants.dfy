/** What every operation of the multiplexer keeps, in any order of calls. */
module Invariants {
  import opened Bytes
  import opened Resp3
  import opened MultiplexerSpec
  import opened Queues
  import Parser = ParserSpec

  /** An element in the queue: it still has replies to come unless it expects none, a written one expects
      some, and it was notified exactly if it carries an error. */
  predicate QueuedOk(e: Elem) {
    && (if e.req.expected == 0 then e.remaining == 0 else 1 <= e.remaining <= e.req.expected)
    && (e.status.Written? ==> e.req.expected > 0)
    && (e.ec.None? <==> e.notified == 0)
  }

  /** An element that left: what its exit says about it.  Without an error it was notified once, or not at
      all if the user took it back. */
  predicate GoneOk(d: Departure) {
    && d.elem.remaining <= d.elem.req.expected
    && (match d.exit
        case Completed => d.elem.req.expected > 0 && d.elem.remaining == 0 && !d.elem.IsWaiting()
        case Released => d.elem.req.expected == 0 && d.elem.status.Written?
        case Aborted => d.elem.ec.Some?
        case Removed => d.elem.IsWaiting())
    && (d.elem.ec.None? ==> d.elem.notified == if d.exit.Removed? then 0 else 1)
  }

  predicate AllQueuedOk(q: seq<Elem>) {
    forall e :: e in q ==> QueuedOk(e)
  }

  predicate AllGoneOk(ds: seq<Departure>) {
    forall d :: d in ds ==> GoneOk(d)
  }

  function Elems(ds: seq<Departure>): (es: seq<Elem>)
    ensures |es| == |ds| && forall i :: 0 <= i < |ds| ==> es[i] == ds[i].elem
  {
    seq(|ds|, i requires 0 <= i < |ds| => ds[i].elem)
  }

  /** Everything that was ever added. */
  function Everyone(s: Mpx): (es: seq<Elem>) {
    s.queue + Elems(s.gone)
  }

  function ReadSizeOf(e: Elem): int {
    e.readSize
  }

  function AnsweredOf(e: Elem): int {
    e.req.expected - e.remaining
  }

  /** No element is held twice. */
  ghost predicate Distinct(s: Mpx) {
    forall id: nat :: Count(Everyone(s), id) <= 1
  }

  /** The counters of received replies and bytes are the sums over all elements. */
  predicate UsageOk(s: Mpx) {
    && s.usage.responseBytes == Sum(Everyone(s), ReadSizeOf)
    && s.usage.responsesReceived == Sum(Everyone(s), AnsweredOf)
  }

  ghost predicate ParserOk(s: Mpx) {
    s.parser.Ok() && s.parser.consumed <= |s.readBuffer|
  }

  ghost predicate Wf(s: Mpx) {
    Shape(s.queue) && AllQueuedOk(s.queue) && AllGoneOk(s.gone) && Distinct(s) && UsageOk(s) && ParserOk(s)
  }

  /** The same elements are accounted for, and their sums agree. */
  ghost predicate SameCensus(s: Mpx, t: Mpx) {
    && (forall id: nat :: Count(Everyone(t), id) == Count(Everyone(s), id))
    && Sum(Everyone(t), ReadSizeOf) == Sum(Everyone(s), ReadSizeOf)
    && Sum(Everyone(t), AnsweredOf) == Sum(Everyone(s), AnsweredOf)
  }

  lemma {:induction false} ElemsAppend(ds: seq<Departure>, es: seq<Elem>, exit: Exit)
    ensures Elems(ds + Depart(es, exit)) == Elems(ds) + es
  {
  }

  // The three operations that split the queue.

  lemma {:induction false} SplitKeepsOne(
    q: seq<Elem>, ds: seq<Departure>, keep: Elem -> bool, drop: Elem -> bool, m: Elem -> Elem, exit: Exit,
    id: nat, h: Elem -> int)
    requires Complement(keep, drop)
    requires forall e :: m(e).id == e.id && h(m(e)) == h(e)
    ensures
      var after := Select(q, keep) + Elems(ds + Depart(MapElems(Select(q, drop), m), exit));
      && Count(after, id) == Count(q + Elems(ds), id)
      && Sum(after, h) == Sum(q + Elems(ds), h)
  {
    hide Count, Sum, Select;
    var kept, out := Select(q, keep), MapElems(Select(q, drop), m);
    ElemsAppend(ds, out, exit);
    assert kept + (Elems(ds) + out) == kept + Elems(ds) + out;
    CountAppend(kept + Elems(ds), out, id);
    CountAppend(kept, Elems(ds), id);
    CountAppend(q, Elems(ds), id);
    SumAppend(kept + Elems(ds), out, h);
    SumAppend(kept, Elems(ds), h);
    SumAppend(q, Elems(ds), h);
    MapKeeps(Select(q, drop), m, id, h);
    SelectSplits(q, keep, drop, id, h);
  }

  lemma {:induction false} SplitKeeps(
    s: Mpx, t: Mpx, keep: Elem -> bool, drop: Elem -> bool, m: Elem -> Elem, exit: Exit)
    requires Complement(keep, drop)
    requires forall e :: m(e).id == e.id && m(e).readSize == e.readSize && AnsweredOf(m(e)) == AnsweredOf(e)
    requires t.queue == Select(s.queue, keep)
    requires t.gone == s.gone + Depart(MapElems(Select(s.queue, drop), m), exit)
    ensures SameCensus(s, t)
  {
    hide Count, Sum, Select;
    forall id: nat ensures Count(Everyone(t), id) == Count(Everyone(s), id) {
      SplitKeepsOne(s.queue, s.gone, keep, drop, m, exit, id, ReadSizeOf);
    }
    SplitKeepsOne(s.queue, s.gone, keep, drop, m, exit, 0, ReadSizeOf);
    SplitKeepsOne(s.queue, s.gone, keep, drop, m, exit, 0, AnsweredOf);
  }

  /** Changing elements in place without touching what is counted. */
  lemma {:induction false} MapQueueKeeps(s: Mpx, t: Mpx, m: Elem -> Elem)
    requires forall e :: m(e).id == e.id && m(e).readSize == e.readSize && AnsweredOf(m(e)) == AnsweredOf(e)
    requires t.queue == MapElems(s.queue, m) && t.gone == s.gone
    ensures SameCensus(s, t)
  {
    hide Count, Sum;
    var g := Elems(s.gone);
    forall id: nat ensures Count(Everyone(t), id) == Count(Everyone(s), id) {
      CountAppend(s.queue, g, id);
      CountAppend(t.queue, g, id);
      MapKeeps(s.queue, m, id, ReadSizeOf);
    }
    SumAppend(s.queue, g, ReadSizeOf);
    SumAppend(t.queue, g, ReadSizeOf);
    SumAppend(s.queue, g, AnsweredOf);
    SumAppend(t.queue, g, AnsweredOf);
    MapKeeps(s.queue, m, 0, ReadSizeOf);
    MapKeeps(s.queue, m, 0, AnsweredOf);
  }

  lemma {:induction false} GoneAppend(ds: seq<Departure>, es: seq<Elem>, exit: Exit)
    requires AllGoneOk(ds) && forall e :: e in es ==> GoneOk(Departure(e, exit))
    ensures AllGoneOk(ds + Depart(es, exit))
  {
    forall d | d in ds + Depart(es, exit) ensures GoneOk(d) {
      if d !in ds {
        var i :| 0 <= i < |es| && Depart(es, exit)[i] == d;
        assert es[i] in es;
      }
    }
  }

  lemma {:induction false} CancelWaitingKeeps(s: Mpx)
    requires Wf(s)
    ensures Wf(CancelWaiting(s)) && SameCensus(s, CancelWaiting(s))
  {
    hide Count, Sum, Select, Shape;
    var t := CancelWaiting(s);
    var out := MapElems(Select(s.queue, IsWaiting), Abort);
    SplitKeeps(s, t, IsActive, IsWaiting, Abort, Aborted);
    SelectShape(s.queue, IsActive);
    SelectMembers(s.queue, IsActive);
    SelectMembers(s.queue, IsWaiting);
    MapMembers(Select(s.queue, IsWaiting), Abort);
    GoneAppend(s.gone, out, Aborted);
  }

  lemma {:induction false} CancelOnConnLostKeeps(s: Mpx)
    requires Wf(s)
    ensures Wf(CancelOnConnLost(s)) && SameCensus(s, CancelOnConnLost(s))
  {
    hide Count, Sum, Select, Shape;
    if !s.cancelCalled {
      var out := MapElems(Select(s.queue, Perishes), Abort);
      var mid := s.(queue := Select(s.queue, Survives), gone := s.gone + Depart(out, Aborted));
      var t := CancelOnConnLost(s);
      SplitKeeps(s, mid, Survives, Perishes, Abort, Aborted);
      MapQueueKeeps(mid, t, Requeue);
      AllWaitingShape(t.queue);
      SelectMembers(s.queue, Survives);
      SelectMembers(s.queue, Perishes);
      MapMembers(Select(s.queue, Perishes), Abort);
      MapMembers(Select(s.queue, Survives), Requeue);
      GoneAppend(s.gone, out, Aborted);
    }
  }

  lemma {:induction false} AllWaitingShape(q: seq<Elem>)
    requires forall i :: 0 <= i < |q| ==> q[i].IsWaiting()
    ensures Shape(q)
  {
  }

  lemma {:induction false} MarkWrittenShape(q: seq<Elem>)
    requires Shape(q)
    ensures Shape(MapElems(q, MarkWritten))
  {
    var r := MapElems(q, MarkWritten);
    forall i, j | 0 <= i < j < |r| ensures Rank(r[i]) <= Rank(r[j]) {
      assert Rank(q[i]) <= Rank(q[j]);
    }
  }

  lemma {:induction false} CommitWriteKeeps(s: Mpx)
    requires Wf(s)
    ensures Wf(CommitWrite(s)) && SameCensus(s, CommitWrite(s))
  {
    hide Count, Sum, Select, Shape;
    var q := MapElems(s.queue, MarkWritten);
    var mid, t := s.(queue := q), CommitWrite(s);
    var out := MapElems(Select(q, IsReleasable), Release);
    MapQueueKeeps(s, mid, MarkWritten);
    SplitKeeps(mid, t, IsRetained, IsReleasable, Release, Released);
    MarkWrittenShape(s.queue);
    SelectShape(q, IsRetained);
    MapMembers(s.queue, MarkWritten);
    SelectMembers(q, IsRetained);
    SelectMembers(q, IsReleasable);
    MapMembers(Select(q, IsReleasable), Release);
    forall e | e in out ensures GoneOk(Departure(e, Released)) {
      var d :| d in Select(q, IsReleasable) && e == Release(d);
      var c :| c in s.queue && d == MarkWritten(c);
      assert QueuedOk(c);
    }
    GoneAppend(s.gone, out, Released);
  }

  // The operations that insert, take out or change one element.

  /** Splitting a queue at one position. */
  lemma {:induction false} CountAround(a: seq<Elem>, e: Elem, b: seq<Elem>, id: nat, h: Elem -> int)
    ensures Count(a + [e] + b, id) == Count(a + b, id) + if e.id == id then 1 else 0
    ensures Sum(a + [e] + b, h) == Sum(a + b, h) + h(e)
  {
    hide Count, Sum;
    CountAppend(a + [e], b, id);
    CountAppend(a, [e], id);
    CountAppend(a, b, id);
    SumAppend(a + [e], b, h);
    SumAppend(a, [e], h);
    SumAppend(a, b, h);
    Single(e, id, h);
  }

  /** The place where `add` puts a new element. */
  function AddPoint(s: Mpx, e: Elem): (k: nat)
    ensures k <= |s.queue|
  {
    if e.req.helloPriority then Lead(s.queue) else |s.queue|
  }

  lemma {:induction false} AddIs(s: Mpx, e: Elem)
    ensures Add(s, e).queue == s.queue[..AddPoint(s, e)] + [e] + s.queue[AddPoint(s, e)..]
  {
  }

  lemma {:induction false} AddKeeps(s: Mpx, e: Elem)
    requires Wf(s) && e == MakeElem(e.id, e.req) && Count(Everyone(s), e.id) == 0
    ensures Wf(Add(s, e))
    ensures forall id: nat :: Count(Everyone(Add(s, e)), id) == Count(Everyone(s), id) + if id == e.id then 1 else 0
  {
    hide Count, Sum;
    var t, k := Add(s, e), AddPoint(s, e);
    var a, b := s.queue[..k], s.queue[k..];
    AddIs(s, e);
    var rest := b + Elems(s.gone);
    assert Everyone(t) == a + [e] + rest;
    assert Everyone(s) == a + rest;
    forall id: nat ensures Count(Everyone(t), id) == Count(Everyone(s), id) + if id == e.id then 1 else 0 {
      CountAround(a, e, rest, id, ReadSizeOf);
    }
    CountAround(a, e, rest, 0, ReadSizeOf);
    CountAround(a, e, rest, 0, AnsweredOf);
    AddShape(s, e);
  }

  /** `add` never moves a request ahead of one already staged or written. */
  lemma {:induction false} AddShape(s: Mpx, e: Elem)
    requires Shape(s.queue) && e.IsWaiting()
    ensures Shape(Add(s, e).queue)
    ensures AddPoint(s, e) >= Lead(s.queue)
    ensures forall i :: 0 <= i < |s.queue| && !s.queue[i].IsWaiting() ==> Add(s, e).queue[i] == s.queue[i]
  {
    hide Shape, Insert;
    LeadIs(s.queue);
    AddIs(s, e);
    var q, k := s.queue, AddPoint(s, e);
    var a, b := q[..k], q[k..];
    assert q == a + b && Add(s, e).queue == a + ([e] + b);
    ShapeAppend(a, b);
    forall x | x in b ensures Rank(x) == 2 {
      var i :| k <= i < |q| && q[i] == x;
    }
    SingleShape(e);
    ShapeAppend([e], b);
    ShapeAppend(a, [e] + b);
  }

  lemma {:induction false} SingleShape(e: Elem)
    ensures Shape([e])
  {
  }

  /** Removing the element at `i` moves it from the queue to the departures. */
  lemma {:induction false} RemoveMoves(s: Mpx, i: nat)
    requires i < |s.queue|
    ensures
      var a, e, rest := s.queue[..i], s.queue[i], s.queue[i + 1..] + Elems(s.gone);
      var t := s.(queue := s.queue[..i] + s.queue[i + 1..], gone := s.gone + [Departure(e, Removed)]);
      && Everyone(s) == a + [e] + rest
      && Everyone(t) == (a + rest) + [e] + []
  {
    var a, e, b, g := s.queue[..i], s.queue[i], s.queue[i + 1..], Elems(s.gone);
    assert s.queue == a + [e] + b;
    assert Elems(s.gone + [Departure(e, Removed)]) == g + [e];
  }

  lemma {:induction false} RemoveKeeps(s: Mpx, id: nat)
    requires Wf(s) && InQueue(s, id)
    ensures Wf(Remove(s, id)) && SameCensus(s, Remove(s, id))
  {
    hide Count, Sum, Everyone, Shape;
    var t, i := Remove(s, id), IndexOf(s.queue, id);
    var e := s.queue[i];
    if e.IsWaiting() {
      var a, rest := s.queue[..i], s.queue[i + 1..] + Elems(s.gone);
      assert QueuedOk(e);
      RemoveMoves(s, i);
      forall x: nat ensures Count(Everyone(t), x) == Count(Everyone(s), x) {
        RemoveCounts(a, e, rest, x, ReadSizeOf);
      }
      RemoveCounts(a, e, rest, 0, ReadSizeOf);
      RemoveCounts(a, e, rest, 0, AnsweredOf);
      RemoveShape(s.queue, i);
    }
  }

  lemma {:induction false} RemoveCounts(a: seq<Elem>, e: Elem, b: seq<Elem>, id: nat, h: Elem -> int)
    ensures Count((a + b) + [e] + [], id) == Count(a + [e] + b, id)
    ensures Sum((a + b) + [e] + [], h) == Sum(a + [e] + b, h)
  {
    CountAround(a, e, b, id, h);
    CountAround(a + b, e, [], id, h);
    assert a + b + [] == a + b;
  }

  lemma {:induction false} RemoveShape(q: seq<Elem>, i: nat)
    requires Shape(q) && i < |q|
    ensures Shape(q[..i] + q[i + 1..])
  {
    var r := q[..i] + q[i + 1..];
    forall j, k | 0 <= j < k < |r| ensures Rank(r[j]) <= Rank(r[k]) {
      var j', k' := if j < i then j else j + 1, if k < i then k else k + 1;
      assert r[j] == q[j'] && r[k] == q[k'];
    }
  }

  /** Staging only marks what waits; everything else about the queue stays. */
  function StageWaiting(e: Elem): Elem {
    if e.IsWaiting() then Stage(e) else e
  }

  lemma {:induction false} PrepareIsMap(s: Mpx)
    requires Shape(s.queue)
    ensures PrepareWrite(s).queue == MapElems(s.queue, StageWaiting)
  {
    LeadIs(s.queue);
  }

  lemma {:induction false} PrepareWriteKeeps(s: Mpx)
    requires Wf(s)
    ensures Wf(PrepareWrite(s)) && SameCensus(s, PrepareWrite(s))
  {
    hide Count, Sum;
    hide Shape, Lead, Everyone;
    var t := PrepareWrite(s);
    PrepareIsMap(s);
    MapQueueKeeps(s, t, StageWaiting);
    MapMembers(s.queue, StageWaiting);
    StageShape(s.queue);
  }

  lemma {:induction false} StageShape(q: seq<Elem>)
    requires Shape(q)
    ensures Shape(MapElems(q, StageWaiting))
  {
    var r := MapElems(q, StageWaiting);
    forall i, j | 0 <= i < j < |r| ensures Rank(r[i]) <= Rank(r[j]) {
      assert Rank(q[i]) <= Rank(q[j]);
    }
  }

  // Reading.

  lemma {:induction false} ResponseCensus(s: Mpx, size: nat)
    requires Wf(s) && s.queue != [] && s.queue[0].remaining > 0 && !s.queue[0].IsWaiting()
    ensures
      var t := CommitResponse(s, size);
      && (forall id: nat :: Count(Everyone(t), id) == Count(Everyone(s), id))
      && Sum(Everyone(t), ReadSizeOf) == Sum(Everyone(s), ReadSizeOf) + size
      && Sum(Everyone(t), AnsweredOf) == Sum(Everyone(s), AnsweredOf) + 1
  {
    hide Count, Sum;
    var t := CommitResponse(s, size);
    var d, rest := s.queue[0], s.queue[1..] + Elems(s.gone);
    var e := d.(readSize := d.readSize + size, remaining := d.remaining - 1);
    assert Everyone(s) == [] + [d] + rest;
    if e.remaining == 0 {
      assert Elems(t.gone) == Elems(s.gone) + [e.NotifyDone()];
      assert Everyone(t) == rest + [e.NotifyDone()] + [];
      forall id: nat ensures Count(Everyone(t), id) == Count(Everyone(s), id) {
        ReplaceCounts(rest, d, e.NotifyDone(), id, ReadSizeOf);
      }
      ReplaceCounts(rest, d, e.NotifyDone(), 0, ReadSizeOf);
      ReplaceCounts(rest, d, e.NotifyDone(), 0, AnsweredOf);
    } else {
      assert Everyone(t) == [] + [e] + rest;
      forall id: nat ensures Count(Everyone(t), id) == Count(Everyone(s), id) {
        ReplaceCounts(rest, d, e, id, ReadSizeOf);
      }
      ReplaceCounts(rest, d, e, 0, ReadSizeOf);
      ReplaceCounts(rest, d, e, 0, AnsweredOf);
    }
  }

  /** An element at the front replaced by a changed one, kept there or moved to the back. */
  lemma {:induction false} ReplaceCounts(rest: seq<Elem>, d: Elem, e: Elem, id: nat, h: Elem -> int)
    requires d.id == e.id
    ensures Count([] + [e] + rest, id) == Count([] + [d] + rest, id) == Count(rest + [e] + [], id)
    ensures Sum([] + [e] + rest, h) == Sum([] + [d] + rest, h) - h(d) + h(e) == Sum(rest + [e] + [], h)
  {
    CountAround([], d, rest, id, h);
    CountAround([], e, rest, id, h);
    CountAround(rest, e, [], id, h);
    assert [] + rest == rest && rest + [] == rest;
  }

  lemma {:induction false} FrontCensus(s: Mpx, e: Elem)
    requires s.queue != [] && e.id == s.queue[0].id && e.readSize == s.queue[0].readSize
    requires AnsweredOf(e) == AnsweredOf(s.queue[0])
    ensures SameCensus(s, s.(queue := s.queue[0 := e]))
  {
    hide Count, Sum;
    var t := s.(queue := s.queue[0 := e]);
    var d, rest := s.queue[0], s.queue[1..] + Elems(s.gone);
    assert Everyone(s) == [] + [d] + rest;
    assert Everyone(t) == [] + [e] + rest;
    forall id: nat ensures Count(Everyone(t), id) == Count(Everyone(s), id) {
      ReplaceCounts(rest, d, e, id, ReadSizeOf);
    }
    ReplaceCounts(rest, d, e, 0, ReadSizeOf);
    ReplaceCounts(rest, d, e, 0, AnsweredOf);
  }

  lemma {:induction false} CommitResponseKeeps(s: Mpx, size: nat)
    requires Wf(s) && s.queue != [] && s.queue[0].remaining > 0 && !s.queue[0].IsWaiting()
    ensures
      var t := CommitResponse(s, size);
      Shape(t.queue) && AllQueuedOk(t.queue) && AllGoneOk(t.gone) && Distinct(t)
  {
    hide Count, Sum;
    ResponseCensus(s, size);
    var t := CommitResponse(s, size);
    assert QueuedOk(s.queue[0]);
    forall i, j | 0 <= i < j < |t.queue| ensures Rank(t.queue[i]) <= Rank(t.queue[j]) {
      var n := |s.queue| - |t.queue|;
      assert Rank(s.queue[i + n]) <= Rank(s.queue[j + n]);
    }
  }

  lemma {:induction false} CommitReadKeeps(s: Mpx, fault: Option<Parser.Fault>)
    requires Wf(s) && s.readBuffer != []
    ensures Wf(CommitRead(s, fault).mpx)
    ensures forall id: nat :: Count(Everyone(CommitRead(s, fault).mpx), id) == Count(Everyone(s), id)
  {
    hide Count, Sum, Parser.Parse;
    var r := CommitRead(s, fault);
    var push := s.onPush || IsNextPush(s);
    if !push {
      assert s.queue != [] && s.queue[0].remaining > 0 && !s.queue[0].IsWaiting();
      if r.read.Failure? {
        FrontCensus(s, s.queue[0].NotifyError(r.read.error));
        FrontErrorShape(s.queue, r.read.error);
      } else if r.read.Message? {
        CommitResponseKeeps(s, r.read.size);
        ResponseCensus(s, r.read.size);
      }
    }
  }

  lemma {:induction false} FrontErrorShape(q: seq<Elem>, e: Error)
    requires q != [] && Shape(q) && AllQueuedOk(q)
    ensures Shape(q[0 := q[0].NotifyError(e)]) && AllQueuedOk(q[0 := q[0].NotifyError(e)])
  {
    var r := q[0 := q[0].NotifyError(e)];
    assert QueuedOk(q[0]);
    forall i, j | 0 <= i < j < |r| ensures Rank(r[i]) <= Rank(r[j]) {
      assert Rank(q[i]) <= Rank(q[j]);
    }
  }

  lemma {:induction false} ResetKeeps(s: Mpx)
    requires Wf(s)
    ensures Wf(Reset(s)) && SameCensus(s, Reset(s))
  {
  }

  lemma {:induction false} AppendKeeps(s: Mpx, data: bytes)
    requires Wf(s)
    ensures Wf(Append(s, data)) && SameCensus(s, Append(s, data))
  {
  }
}
