/** What happens to single requests over many operations: where each one comes from, how often its payload
    was staged and which of its replies came. */
module Histories {
  import opened Bytes
  import opened Resp3
  import opened MultiplexerSpec
  import opened Queues
  import opened Invariants
  import opened Correlation
  import Parser = ParserSpec

  // Every request keeps its identity.

  /** `e` is what became of `d`; exactly the element `bump` has had one more reply. */
  predicate Same(d: Elem, e: Elem, bump: Option<nat>) {
    d.id == e.id && d.req == e.req && e.remaining == d.remaining - if bump == Some(d.id) then 1 else 0
  }

  ghost predicate Has(q: seq<Elem>, e: Elem, bump: Option<nat>) {
    exists d :: d in q && Same(d, e, bump)
  }

  ghost predicate Descends(s: Mpx, t: Mpx, bump: Option<nat>) {
    forall e :: e in Everyone(t) ==> Has(Everyone(s), e, bump)
  }

  /** A request that may be sent once only. */
  predicate OneShot(e: Elem) {
    e.req.cfg.cancelIfUnresponded
  }

  ghost predicate HasWaiting(q: seq<Elem>, e: Elem) {
    exists d :: d in q && d.IsWaiting() && Same(d, e, None)
  }

  /** No request that may be sent once goes back to waiting. */
  ghost predicate StillWaiting(s: Mpx, t: Mpx) {
    forall e :: e in t.queue && e.IsWaiting() && OneShot(e) ==> HasWaiting(s.queue, e)
  }

  ghost predicate NoneRemoved(s: Mpx, t: Mpx) {
    forall d :: d in t.gone && d.exit.Removed? ==> d in s.gone
  }

  /** Everything in the queue was there before. */
  ghost predicate QueueDescends(s: Mpx, t: Mpx) {
    forall e :: e in t.queue ==> Has(s.queue, e, None)
  }

  ghost predicate Follows(s: Mpx, t: Mpx, bump: Option<nat>) {
    && Descends(s, t, bump) && StillWaiting(s, t) && NoneRemoved(s, t)
    && t.staged == s.staged && t.usage.bytesSent == s.usage.bytesSent
  }

  lemma {:induction false} InEveryone(s: Mpx, e: Elem)
    ensures e in Everyone(s) <==> e in s.queue || exists d :: d in s.gone && d.elem == e
  {
    var g := Elems(s.gone);
    if e in g {
      var i :| 0 <= i < |g| && g[i] == e;
      assert s.gone[i] in s.gone && s.gone[i].elem == e;
    }
    if d :| d in s.gone && d.elem == e {
      var i :| 0 <= i < |s.gone| && s.gone[i] == d;
      assert g[i] == e;
    }
  }

  /** It is enough to trace what is in the queue and what has just left. */
  lemma {:induction false} DescendsFrom(s: Mpx, t: Mpx, out: seq<Elem>, exit: Exit, bump: Option<nat>)
    requires t.gone == s.gone + Depart(out, exit)
    requires forall e :: e in t.queue ==> Has(s.queue, e, bump)
    requires forall e :: e in out ==> Has(s.queue, e, bump)
    requires bump.Some? ==> forall d :: d in s.gone ==> d.elem.id != bump.value
    ensures Descends(s, t, bump)
  {
    forall d | d in t.gone ensures d in s.gone || d.elem in out {
      var i :| 0 <= i < |t.gone| && t.gone[i] == d;
      assert i < |s.gone| || d == Depart(out, exit)[i - |s.gone|];
    }
    forall e | e in Everyone(t) ensures Has(Everyone(s), e, bump) {
      InEveryone(t, e);
      if e in t.queue || e in out {
        assert Has(s.queue, e, bump);
        var d :| d in s.queue && Same(d, e, bump);
        InEveryone(s, d);
      } else {
        InEveryone(s, e);
        assert Same(e, e, bump);
      }
    }
  }

  lemma {:induction false} CancelWaitingFollows(s: Mpx)
    ensures Follows(s, CancelWaiting(s), None) && QueueDescends(s, CancelWaiting(s))
  {
    hide Select, Everyone, Descends;
    var out := MapElems(Select(s.queue, IsWaiting), Abort);
    SelectMembers(s.queue, IsActive);
    SelectMembers(s.queue, IsWaiting);
    MapMembers(Select(s.queue, IsWaiting), Abort);
    forall e | e in Select(s.queue, IsActive) ensures Has(s.queue, e, None) {
      assert Same(e, e, None);
    }
    forall e | e in out ensures Has(s.queue, e, None) {
      var d :| d in Select(s.queue, IsWaiting) && e == Abort(d);
      assert Same(d, e, None);
    }
    DescendsFrom(s, CancelWaiting(s), out, Aborted, None);
  }

  lemma {:induction false} ConnLostFollows(s: Mpx)
    ensures Follows(s, CancelOnConnLost(s), None) && QueueDescends(s, CancelOnConnLost(s))
  {
    hide Select, Everyone, Descends;
    if s.cancelCalled {
      SelfFollows(s, s);
      forall e | e in s.queue ensures Has(s.queue, e, None) {
        assert Same(e, e, None);
      }
    } else {
      var t := CancelOnConnLost(s);
      var kept, out := Select(s.queue, Survives), MapElems(Select(s.queue, Perishes), Abort);
      SelectMembers(s.queue, Survives);
      SelectMembers(s.queue, Perishes);
      MapMembers(Select(s.queue, Perishes), Abort);
      MapMembers(kept, Requeue);
      forall e | e in t.queue ensures Has(s.queue, e, None) && (OneShot(e) ==> HasWaiting(s.queue, e)) {
        var d :| d in kept && e == Requeue(d);
        assert Same(d, e, None);
      }
      forall e | e in out ensures Has(s.queue, e, None) {
        var d :| d in Select(s.queue, Perishes) && e == Abort(d);
        assert Same(d, e, None);
      }
      DescendsFrom(s, t, out, Aborted, None);
    }
  }

  lemma {:induction false} CommitWriteFollows(s: Mpx)
    ensures Follows(s, CommitWrite(s), None) && QueueDescends(s, CommitWrite(s))
  {
    hide Select, Everyone, Descends;
    var t, q := CommitWrite(s), MapElems(s.queue, MarkWritten);
    var out := MapElems(Select(q, IsReleasable), Release);
    MapMembers(s.queue, MarkWritten);
    SelectMembers(q, IsRetained);
    SelectMembers(q, IsReleasable);
    MapMembers(Select(q, IsReleasable), Release);
    forall e | e in t.queue ensures Has(s.queue, e, None) && (e.IsWaiting() ==> HasWaiting(s.queue, e)) {
      var d :| d in s.queue && e == MarkWritten(d);
      assert Same(d, e, None);
    }
    forall e | e in out ensures Has(s.queue, e, None) {
      var c :| c in Select(q, IsReleasable) && e == Release(c);
      var d :| d in s.queue && c == MarkWritten(d);
      assert Same(d, e, None);
    }
    DescendsFrom(s, t, out, Released, None);
  }

  /** Operations that leave the queue and the departures alone. */
  lemma {:induction false} SelfFollows(s: Mpx, t: Mpx)
    requires t.queue == s.queue && t.gone == s.gone
    requires t.staged == s.staged && t.usage.bytesSent == s.usage.bytesSent
    ensures Follows(s, t, None)
  {
    forall e | e in Everyone(t) ensures Has(Everyone(s), e, None) {
      assert Same(e, e, None);
    }
    forall e | e in t.queue && e.IsWaiting() ensures HasWaiting(s.queue, e) {
      assert e in s.queue && Same(e, e, None);
    }
  }

  lemma {:induction false} FrontReplaced(s: Mpx, t: Mpx, bump: Option<nat>)
    requires s.queue != [] && t.queue != [] && t.queue[1..] == s.queue[1..] && t.gone == s.gone
    requires Same(s.queue[0], t.queue[0], bump)
    requires bump.Some? ==> bump.value == s.queue[0].id && Distinct(s)
    ensures Descends(s, t, bump)
  {
    hide Everyone, Descends;
    FrontIsOnly(s);
    assert s.queue == [s.queue[0]] + s.queue[1..] && t.queue == [t.queue[0]] + s.queue[1..];
    forall e | e in t.queue ensures Has(s.queue, e, bump) {
      if e != t.queue[0] {
        assert e in s.queue[1..];
        assert Same(e, e, bump);
      }
    }
    assert t.gone == s.gone + Depart([], Completed);
    DescendsFrom(s, t, [], Completed, bump);
  }

  lemma {:induction false} FrontIsOnly(s: Mpx)
    requires s.queue != []
    ensures Distinct(s) ==> forall e :: e in s.queue[1..] ==> e.id != s.queue[0].id
    ensures Distinct(s) ==> forall d :: d in s.gone ==> d.elem.id != s.queue[0].id
  {
    var all := Everyone(s);
    if Distinct(s) {
      CountedOnce(all, 0);
      assert forall i :: 0 < i < |s.queue| ==> all[i] == s.queue[i];
      assert forall i :: 0 <= i < |s.gone| ==> all[|s.queue| + i] == s.gone[i].elem;
    }
  }

  /** A reply is counted for the request in front, and for no other. */
  lemma {:induction false} ResponseFollows(s: Mpx, size: nat)
    requires Distinct(s) && s.queue != [] && s.queue[0].remaining > 0 && !s.queue[0].IsWaiting()
    ensures Follows(s, CommitResponse(s, size), Some(s.queue[0].id))
  {
    hide Everyone, Descends, Distinct;
    var t, d := CommitResponse(s, size), s.queue[0];
    var e := d.(readSize := d.readSize + size, remaining := d.remaining - 1);
    if e.remaining > 0 {
      FrontReplaced(s, t, Some(d.id));
    } else {
      FrontIsOnly(s);
      var out := [e.NotifyDone()];
      assert t.gone == s.gone + Depart(out, Completed);
      forall x | x in t.queue ensures Has(s.queue, x, Some(d.id)) {
        assert x in s.queue[1..];
        assert Same(x, x, Some(d.id));
      }
      assert Same(d, out[0], Some(d.id));
      DescendsFrom(s, t, out, Completed, Some(d.id));
    }
    forall x | x in t.queue && x.IsWaiting() ensures HasWaiting(s.queue, x) {
      assert x in s.queue && Same(x, x, None);
    }
  }

  lemma {:induction false} FollowsToo(s: Mpx, t: Mpx, u: Mpx, bump: Option<nat>)
    requires Follows(s, t, bump) && u.queue == t.queue && u.gone == t.gone
    requires u.staged == t.staged && u.usage.bytesSent == t.usage.bytesSent
    ensures Follows(s, u, bump)
  {
    assert Everyone(u) == Everyone(t);
  }

  lemma {:induction false} ReadFollows(s: Mpx, fault: Option<Parser.Fault>)
    requires Wf(s) && s.readBuffer != []
    ensures
      var r := CommitRead(s, fault);
      var bump := if r.read.Message? && !r.read.push then Some(s.queue[0].id) else None;
      Follows(s, r.mpx, bump)
  {
    hide Parser.Parse, Follows, Deliver, Distinct, UsageOk, AllGoneOk, AllQueuedOk, Shape, Everyone;
    var r := CommitRead(s, fault);
    if s.onPush || IsNextPush(s) {
      SelfFollows(s, r.mpx);
    } else {
      match r.read {
        case Message(_, size) =>
          ResponseFollows(s, size);
          FollowsToo(s, CommitResponse(s, size), r.mpx, Some(s.queue[0].id));
        case Failure(_, e) =>
          ErrorFollows(s, r.mpx, e);
        case NeedMore => SelfFollows(s, r.mpx);
        case Crash => SelfFollows(s, r.mpx);
      }
    }
  }

  lemma {:induction false} ErrorFollows(s: Mpx, t: Mpx, e: Error)
    requires s.queue != [] && !s.queue[0].IsWaiting()
    requires t.queue == s.queue[0 := s.queue[0].NotifyError(e)] && t.gone == s.gone
    requires t.staged == s.staged && t.usage.bytesSent == s.usage.bytesSent
    ensures Follows(s, t, None)
  {
    assert t.queue[1..] == s.queue[1..];
    FrontReplaced(s, t, None);
    forall x | x in t.queue && x.IsWaiting() ensures HasWaiting(s.queue, x) {
      var i :| 0 <= i < |t.queue| && t.queue[i] == x;
      assert s.queue[i] == x && Same(x, x, None);
    }
  }

  lemma {:induction false} PrepareDescends(s: Mpx)
    requires Shape(s.queue)
    ensures Descends(s, PrepareWrite(s), None) && QueueDescends(s, PrepareWrite(s))
    ensures forall e :: e in PrepareWrite(s).queue ==> !e.IsWaiting()
  {
    hide Descends, Everyone, Shape;
    PrepareIsMap(s);
    MapMembers(s.queue, StageWaiting);
    var t := PrepareWrite(s);
    forall e | e in t.queue ensures Has(s.queue, e, None) && !e.IsWaiting() {
      var d :| d in s.queue && e == StageWaiting(d);
      assert Same(d, e, None);
    }
    assert t.gone == s.gone + Depart([], Aborted);
    DescendsFrom(s, t, [], Aborted, None);
  }

  lemma {:induction false} AddDescends(s: Mpx, e: Elem)
    ensures forall x :: x in Add(s, e).queue <==> x in s.queue || x == e
    ensures forall x :: x in Everyone(Add(s, e)) <==> x in Everyone(s) || x == e
  {
    AddIs(s, e);
    var k := AddPoint(s, e);
    assert s.queue == s.queue[..k] + s.queue[k..];
  }

  lemma {:induction false} RemoveDescends(s: Mpx, id: nat)
    requires InQueue(s, id)
    ensures Descends(s, Remove(s, id), None) && StillWaiting(s, Remove(s, id)) && QueueDescends(s, Remove(s, id))
    ensures forall d :: d in Remove(s, id).gone && d.exit.Removed? ==> d in s.gone || d.elem.id == id
  {
    hide Descends, Everyone;
    var t, i := Remove(s, id), IndexOf(s.queue, id);
    if s.queue[i].IsWaiting() {
      var out := [s.queue[i]];
      forall e | e in t.queue || e in out ensures e in s.queue && Has(s.queue, e, None) {
        assert Same(e, e, None);
      }
      assert t.gone == s.gone + Depart(out, Removed);
      DescendsFrom(s, t, out, Removed, None);
    } else {
      SelfFollows(s, t);
      forall e | e in s.queue ensures Has(s.queue, e, None) {
        assert Same(e, e, None);
      }
    }
  }

  // At most one staging.

  /** How often this request was put into the write buffer. */
  function StagedCount(ss: seq<Staging>, id: nat): (n: nat) {
    if ss == [] then 0 else StagedCount(ss[..|ss| - 1], id) + if ss[|ss| - 1].id == id then 1 else 0
  }

  lemma {:induction false} StagedCountAppend(a: seq<Staging>, b: seq<Staging>, id: nat)
    ensures StagedCount(a + b, id) == StagedCount(a, id) + StagedCount(b, id)
  {
    if b == [] {
      assert a + b == a;
    } else {
      assert (a + b)[..|a + b| - 1] == a + b[..|b| - 1];
      StagedCountAppend(a, b[..|b| - 1], id);
    }
  }

  lemma {:induction false} StagedCountIs(batch: seq<Elem>, id: nat)
    ensures StagedCount(Stagings(batch), id) == Count(batch, id)
  {
    if batch != [] {
      StagedCountIs(batch[..|batch| - 1], id);
      assert Stagings(batch)[..|batch| - 1] == Stagings(batch[..|batch| - 1]);
    }
  }

  lemma {:induction false} NeverStaged(ss: seq<Staging>, id: nat)
    requires forall x :: x in ss ==> x.id != id
    ensures StagedCount(ss, id) == 0
  {
    if ss != [] {
      assert ss == ss[..|ss| - 1] + [ss[|ss| - 1]];
      NeverStaged(ss[..|ss| - 1], id);
    }
  }

  /** What waits and may be sent once was not sent before, so none of its replies came either. */
  ghost predicate WaitingUnstaged(s: Mpx) {
    forall e :: e in s.queue && e.IsWaiting() && OneShot(e) ==> StagedCount(s.staged, e.id) == 0 && Unanswered(e)
  }

  ghost predicate StagedAtMostOnce(s: Mpx) {
    forall e :: e in Everyone(s) && OneShot(e) ==> StagedCount(s.staged, e.id) <= 1
  }

  ghost predicate StagedKnown(s: Mpx) {
    forall x :: x in s.staged ==> Count(Everyone(s), x.id) > 0
  }

  ghost predicate StagedOnce(s: Mpx) {
    WaitingUnstaged(s) && StagedAtMostOnce(s) && StagedKnown(s)
  }

  ghost predicate SameCount(s: Mpx, t: Mpx) {
    forall id: nat :: Count(Everyone(t), id) == Count(Everyone(s), id)
  }

  lemma {:induction false} StagedOnceKept(s: Mpx, t: Mpx, bump: Option<nat>)
    requires Descends(s, t, bump) && StillWaiting(s, t) && t.staged == s.staged && SameCount(s, t)
    requires StagedOnce(s)
    ensures StagedOnce(t)
  {
    hide Count, StagedCount, Everyone;
    forall e | e in t.queue && e.IsWaiting() && OneShot(e)
      ensures StagedCount(t.staged, e.id) == 0 && Unanswered(e)
    {
      assert HasWaiting(s.queue, e);
      var d :| d in s.queue && d.IsWaiting() && Same(d, e, None);
    }
    forall e | e in Everyone(t) && OneShot(e) ensures StagedCount(t.staged, e.id) <= 1 {
      assert Has(Everyone(s), e, bump);
      var d :| d in Everyone(s) && Same(d, e, bump);
    }
  }

  lemma {:induction false} StagedOnceAdd(s: Mpx, e: Elem)
    requires StagedOnce(s) && Count(Everyone(s), e.id) == 0 && Unanswered(e)
    requires forall id: nat :: Count(Everyone(Add(s, e)), id) == Count(Everyone(s), id) + if id == e.id then 1 else 0
    ensures StagedOnce(Add(s, e))
  {
    hide Count, StagedCount, Everyone;
    AddDescends(s, e);
    NeverStaged(s.staged, e.id);
  }

  /** Within one state an id belongs to one element. */
  lemma {:induction false} UniqueElem(s: Mpx, a: Elem, b: Elem)
    requires Distinct(s) && a in Everyone(s) && b in Everyone(s) && a.id == b.id
    ensures a == b
  {
    var all := Everyone(s);
    var i :| 0 <= i < |all| && all[i] == a;
    var j :| 0 <= j < |all| && all[j] == b;
    CountedOnce(all, i);
  }

  lemma {:induction false} BatchCount(s: Mpx, id: nat)
    ensures Count(s.queue[Lead(s.queue)..], id) <= Count(Everyone(s), id)
  {
    var k := Lead(s.queue);
    assert Everyone(s) == s.queue[..k] + s.queue[k..] + Elems(s.gone);
    CountAppend(s.queue[..k] + s.queue[k..], Elems(s.gone), id);
    CountAppend(s.queue[..k], s.queue[k..], id);
  }

  /** Staging counts each request of the batch once more. */
  lemma {:induction false} StagingCounts(s: Mpx, e: Elem)
    requires Shape(s.queue) && Distinct(s) && StagedOnce(s) && e in Everyone(s) && OneShot(e)
    ensures StagedCount(PrepareWrite(s).staged, e.id) <= 1
  {
    hide Count, StagedCount, Everyone, Shape, Lead;
    var batch := s.queue[Lead(s.queue)..];
    StagedCountAppend(s.staged, Stagings(batch), e.id);
    StagedCountIs(batch, e.id);
    BatchCount(s, e.id);
    if Count(batch, e.id) > 0 {
      CountOnly(batch, e.id);
      var i :| 0 <= i < |batch| && batch[i].id == e.id;
      LeadIs(s.queue);
      assert batch[i] == s.queue[Lead(s.queue) + i];
      InEveryone(s, batch[i]);
      UniqueElem(s, e, batch[i]);
    }
  }

  lemma {:induction false} StagedOncePrepare(s: Mpx)
    requires Wf(s) && StagedOnce(s) && SameCount(s, PrepareWrite(s))
    ensures StagedOnce(PrepareWrite(s))
  {
    hide Count, StagedCount, Everyone, Shape, AllQueuedOk, AllGoneOk, UsageOk, ParserOk, Distinct, Lead;
    var t := PrepareWrite(s);
    PrepareDescends(s);
    forall e | e in Everyone(t) && OneShot(e) ensures StagedCount(t.staged, e.id) <= 1 {
      assert Has(Everyone(s), e, None);
      var d :| d in Everyone(s) && Same(d, e, None);
      StagingCounts(s, d);
    }
    var batch := s.queue[Lead(s.queue)..];
    forall x | x in t.staged ensures Count(Everyone(t), x.id) > 0 {
      if x !in s.staged {
        var i :| 0 <= i < |batch| && Stagings(batch)[i] == x;
        assert batch[i] == s.queue[Lead(s.queue) + i];
        InEveryone(s, batch[i]);
        var j :| 0 <= j < |Everyone(s)| && Everyone(s)[j] == batch[i];
        CountHas(Everyone(s), j);
      }
    }
  }

  // The bytes of the stagings are the bytes of the write buffers.

  function WireBytes(ss: seq<Staging>): (w: bytes) {
    if ss == [] then [] else WireBytes(ss[..|ss| - 1]) + ss[|ss| - 1].payload
  }

  lemma {:induction false} WireBytesAppend(a: seq<Staging>, b: seq<Staging>)
    ensures WireBytes(a + b) == WireBytes(a) + WireBytes(b)
  {
    if b == [] {
      assert a + b == a;
    } else {
      assert (a + b)[..|a + b| - 1] == a + b[..|b| - 1];
      WireBytesAppend(a, b[..|b| - 1]);
    }
  }

  lemma {:induction false} PayloadsAreStaged(batch: seq<Elem>)
    ensures Payloads(batch) == WireBytes(Stagings(batch))
  {
    if batch != [] {
      PayloadsAreStaged(batch[..|batch| - 1]);
      assert Stagings(batch)[..|batch| - 1] == Stagings(batch[..|batch| - 1]);
    }
  }

  /** With an empty buffer to begin with, staging writes exactly the payloads it logs, and counts them. */
  lemma {:induction false} StagedBytes(s: Mpx)
    requires s.writeBuffer == [] && s.usage.bytesSent == |WireBytes(s.staged)|
    ensures PrepareWrite(s).usage.bytesSent == |WireBytes(PrepareWrite(s).staged)|
    ensures WireBytes(PrepareWrite(s).staged) == WireBytes(s.staged) + PrepareWrite(s).writeBuffer
  {
    hide WireBytes, Payloads;
    var batch := s.queue[Lead(s.queue)..];
    WireBytesAppend(s.staged, Stagings(batch));
    PayloadsAreStaged(batch);
    assert [] + Payloads(batch) == Payloads(batch);
  }

  // Which replies came.

  /** The reply indices of one request among all complete replies, in order of arrival. */
  function Indices(replies: seq<Slot>, id: nat): (r: seq<int>) {
    if replies == [] then []
    else
      var last := replies[|replies| - 1];
      Indices(replies[..|replies| - 1], id) + if last.id == id then [last.index] else []
  }

  /** 0, 1, .. n-1. */
  predicate CountsUp(xs: seq<int>, n: int) {
    |xs| == n && forall i :: 0 <= i < |xs| ==> xs[i] == i
  }

  /** Every request got its replies one by one: index 0 first, none twice, none left out. */
  ghost predicate RepliesOk(s: Mpx, replies: seq<Slot>) {
    && (forall e :: e in Everyone(s) ==> CountsUp(Indices(replies, e.id), AnsweredOf(e)))
    && (forall x :: x in replies ==> Count(Everyone(s), x.id) > 0)
  }

  lemma {:induction false} NoReplies(replies: seq<Slot>, id: nat)
    requires forall x :: x in replies ==> x.id != id
    ensures Indices(replies, id) == []
  {
    if replies != [] {
      assert replies == replies[..|replies| - 1] + [replies[|replies| - 1]];
      NoReplies(replies[..|replies| - 1], id);
    }
  }

  lemma {:induction false} RepliesKept(s: Mpx, t: Mpx, replies: seq<Slot>)
    requires Descends(s, t, None) && SameCount(s, t) && RepliesOk(s, replies)
    ensures RepliesOk(t, replies)
  {
    hide Count, Everyone, Indices;
    forall e | e in Everyone(t) ensures CountsUp(Indices(replies, e.id), AnsweredOf(e)) {
      assert Has(Everyone(s), e, None);
      var d :| d in Everyone(s) && Same(d, e, None);
    }
  }

  lemma {:induction false} RepliesAdd(s: Mpx, e: Elem, replies: seq<Slot>)
    requires RepliesOk(s, replies) && Count(Everyone(s), e.id) == 0 && e == MakeElem(e.id, e.req)
    requires forall id: nat :: Count(Everyone(Add(s, e)), id) == Count(Everyone(s), id) + if id == e.id then 1 else 0
    ensures RepliesOk(Add(s, e), replies)
  {
    hide Count, Everyone, Indices;
    AddDescends(s, e);
    NoReplies(replies, e.id);
  }

  lemma {:induction false} RepliesGrow(s: Mpx, t: Mpx, replies: seq<Slot>)
    requires s.queue != [] && Distinct(s)
    requires Descends(s, t, Some(s.queue[0].id)) && SameCount(s, t) && RepliesOk(s, replies)
    ensures RepliesOk(t, replies + [Slot(s.queue[0].id, s.queue[0].Index())])
  {
    hide Count, Everyone, Indices, Distinct;
    var front := s.queue[0];
    var slot := Slot(front.id, front.Index());
    var more := replies + [slot];
    InEveryone(s, front);
    forall e | e in Everyone(t) ensures CountsUp(Indices(more, e.id), AnsweredOf(e)) {
      assert Has(Everyone(s), e, Some(front.id));
      var d :| d in Everyone(s) && Same(d, e, Some(front.id));
      IndicesSnoc(replies, slot, e.id);
      if d.id == front.id {
        UniqueElem(s, d, front);
      }
    }
    var i :| 0 <= i < |Everyone(s)| && Everyone(s)[i] == front;
    CountHas(Everyone(s), i);
  }

  lemma {:induction false} IndicesSnoc(replies: seq<Slot>, x: Slot, id: nat)
    ensures Indices(replies + [x], id) == Indices(replies, id) + if x.id == id then [x.index] else []
  {
    assert (replies + [x])[..|replies|] == replies;
  }
}
