/** The multiplexer object: a queue of shared elements whose status is updated in place. */
module Multiplexer {
  import opened Bytes
  import opened Resp3
  import opened Queues
  import opened Invariants
  import S = MultiplexerSpec
  import P = ParserSpec
  import Parser

  class Elem {
    const id: nat
    const req: S.Req
    var remaining: nat
    var status: S.Status
    var ec: Option<Error>
    var readSize: nat
    var notified: nat

    function View(): (e: S.Elem)
      reads this
    {
      S.Elem(id, req, remaining, status, ec, readSize, notified)
    }

    constructor (id: nat, req: S.Req)
      ensures View() == S.MakeElem(id, req)
    {
      this.id := id;
      this.req := req;
      remaining, status, ec, readSize, notified := req.expected, S.Waiting, None, 0, 0;
    }

    method NotifyDone()
      modifies this`notified
      ensures View() == old(View()).NotifyDone()
    {
      notified := notified + 1;
    }

    method NotifyError(e: Error)
      modifies this`ec, this`notified
      ensures View() == old(View()).NotifyError(e)
    {
      if ec.None? {
        ec := Some(e);
      }
      notified := notified + 1;
    }

    method CommitResponse(size: nat)
      requires remaining > 0
      modifies this`readSize, this`remaining
      ensures View() == old(View()).(readSize := old(readSize) + size, remaining := old(remaining) - 1)
    {
      readSize := readSize + size;
      remaining := remaining - 1;
    }
  }

  function ViewAll(es: seq<Elem>): (q: seq<S.Elem>)
    reads es
    ensures |q| == |es| && forall i :: 0 <= i < |es| ==> q[i] == es[i].View()
  {
    if es == [] then [] else ViewAll(es[..|es| - 1]) + [es[|es| - 1].View()]
  }

  lemma {:induction false} ViewAllAppend(a: seq<Elem>, b: seq<Elem>)
    ensures ViewAll(a + b) == ViewAll(a) + ViewAll(b)
  {
  }

  lemma {:induction false} ViewAllSlice(es: seq<Elem>, i: nat, j: nat)
    requires i <= j <= |es|
    ensures ViewAll(es[i..j]) == ViewAll(es)[i..j]
  {
  }

  /** Inserting an object inserts its value. */
  lemma {:induction false} ViewAllInsert(es: seq<Elem>, p: nat, e: Elem)
    requires p <= |es|
    ensures ViewAll(es[..p] + [e] + es[p..]) == ViewAll(es)[..p] + [e.View()] + ViewAll(es)[p..]
  {
    ViewAllAppend(es[..p] + [e], es[p..]);
    ViewAllAppend(es[..p], [e]);
    ViewAllSlice(es, 0, p);
    ViewAllSlice(es, p, |es|);
    assert es[0..p] == es[..p] && es[p..|es|] == es[p..];
  }

  /** `std::partition_point`: binary search for the first element that waits. */
  method PartitionPoint(es: seq<Elem>) returns (p: nat)
    requires Shape(ViewAll(es))
    ensures p == S.Lead(ViewAll(es))
  {
    ghost var q := ViewAll(es);
    LeadIs(q);
    var lo, hi := 0, |es|;
    while lo < hi
      invariant 0 <= lo <= hi <= |es|
      invariant lo <= S.Lead(q) <= hi
    {
      var mid := (lo + hi) / 2;
      assert q[mid] == es[mid].View();
      if es[mid].status.Waiting? {
        hi := mid;
      } else {
        lo := mid + 1;
      }
    }
    p := lo;
  }

  /** The objects are all different. */
  ghost predicate Objects(es: seq<Elem>) {
    forall i, j :: 0 <= i < j < |es| ==> es[i] != es[j]
  }

  /** The objects whose value satisfies `f`, in order. */
  function Pick(es: seq<Elem>, f: S.Elem -> bool): (r: seq<Elem>)
    reads es
  {
    if es == [] then []
    else
      var last := es[|es| - 1];
      Pick(es[..|es| - 1], f) + if f(last.View()) then [last] else []
  }

  lemma {:induction false} PickMembers(es: seq<Elem>, f: S.Elem -> bool)
    ensures forall e :: e in Pick(es, f) ==> e in es && f(e.View())
    ensures Objects(es) ==> Objects(Pick(es, f))
  {
    if es != [] {
      var es0, last := es[..|es| - 1], es[|es| - 1];
      assert es == es0 + [last];
      PickMembers(es0, f);
    }
  }

  lemma {:induction false} PickViews(es: seq<Elem>, f: S.Elem -> bool)
    ensures ViewAll(Pick(es, f)) == S.Select(ViewAll(es), f)
  {
    if es != [] {
      var es0, last := es[..|es| - 1], es[|es| - 1];
      PickViews(es0, f);
      ViewAllSnoc(Pick(es0, f), last);
      assert ViewAll(es)[..|es| - 1] == ViewAll(es0);
    }
  }

  lemma {:induction false} PickCovers(es: seq<Elem>, f: S.Elem -> bool, g: S.Elem -> bool)
    requires Complement(f, g)
    ensures forall e :: e in es ==> e in Pick(es, f) || e in Pick(es, g)
  {
    if es != [] {
      var es0, last := es[..|es| - 1], es[|es| - 1];
      assert es == es0 + [last];
      PickCovers(es0, f, g);
      assert g(last.View()) == !f(last.View());
    }
  }

  /** `std::stable_partition`, as the two parts it leaves. */
  method StablePartition(es: seq<Elem>, f: S.Elem -> bool, ghost g: S.Elem -> bool)
    returns (keep: seq<Elem>, drop: seq<Elem>)
    requires Complement(f, g) && Objects(es)
    ensures ViewAll(keep) == S.Select(ViewAll(es), f) && ViewAll(drop) == S.Select(ViewAll(es), g)
    ensures Objects(keep) && Objects(drop)
    ensures forall e :: e in keep ==> e in es && e !in drop
    ensures forall e :: e in drop ==> e in es
    ensures forall e :: e in es ==> e in keep || e in drop
    ensures |keep| + |drop| == |es|
  {
    hide ViewAll, S.Select;
    keep, drop := [], [];
    assert es[..0] == [];
    for i := 0 to |es|
      invariant keep == Pick(es[..i], f) && drop == Pick(es[..i], g)
      invariant |keep| + |drop| == i
    {
      assert es[..i + 1][..i] == es[..i];
      assert g(es[i].View()) == !f(es[i].View());
      if f(es[i].View()) {
        keep := keep + [es[i]];
      } else {
        drop := drop + [es[i]];
      }
    }
    assert es[..|es|] == es;
    PickMembers(es, f);
    PickMembers(es, g);
    PickViews(es, f);
    PickViews(es, g);
    PickCovers(es, f, g);
  }

  lemma {:induction false} ViewAllSnoc(es: seq<Elem>, e: Elem)
    ensures ViewAll(es + [e]) == ViewAll(es) + [e.View()]
  {
  }

  // The loops that visit every element of a range.

  method MarkAllWritten(es: seq<Elem>)
    requires Objects(es)
    modifies es`status
    ensures ViewAll(es) == S.MapElems(old(ViewAll(es)), S.MarkWritten)
  {
    ghost var q := ViewAll(es);
    for i := 0 to |es|
      invariant forall k :: 0 <= k < |es| ==> es[k].View() == if k < i then S.MarkWritten(q[k]) else q[k]
    {
      if es[i].status.Staged? {
        es[i].status := S.Written;
      }
    }
  }

  method MarkAllWaiting(es: seq<Elem>)
    requires Objects(es)
    modifies es`status
    ensures ViewAll(es) == S.MapElems(old(ViewAll(es)), S.Requeue)
  {
    ghost var q := ViewAll(es);
    for i := 0 to |es|
      invariant forall k :: 0 <= k < |es| ==> es[k].View() == if k < i then S.Requeue(q[k]) else q[k]
    {
      es[i].status := S.Waiting;
    }
  }

  method NotifyAllDone(es: seq<Elem>)
    requires Objects(es)
    modifies es`notified
    ensures ViewAll(es) == S.MapElems(old(ViewAll(es)), S.Release)
  {
    ghost var q := ViewAll(es);
    for i := 0 to |es|
      invariant forall k :: 0 <= k < |es| ==> es[k].View() == if k < i then S.Release(q[k]) else q[k]
    {
      es[i].NotifyDone();
    }
  }

  method AbortAll(es: seq<Elem>)
    requires Objects(es)
    modifies es`ec, es`notified
    ensures ViewAll(es) == S.MapElems(old(ViewAll(es)), S.Abort)
  {
    ghost var q := ViewAll(es);
    for i := 0 to |es|
      invariant forall k :: 0 <= k < |es| ==> es[k].View() == if k < i then S.Abort(q[k]) else q[k]
    {
      es[i].NotifyError(OperationAborted);
    }
  }

  lemma {:induction false} OneMorePayload(batch: seq<S.Elem>, i: nat)
    requires i < |batch|
    ensures S.Payloads(batch[..i + 1]) == S.Payloads(batch[..i]) + batch[i].req.payload
    ensures S.CommandCount(batch[..i + 1]) == S.CommandCount(batch[..i]) + batch[i].req.commands
  {
    assert batch[..i + 1][..i] == batch[..i];
  }

  /** Appends `e` and, with HELLO priority, rotates it in front of those that wait. */
  method PushBack(es: seq<Elem>, e: Elem) returns (r: seq<Elem>)
    requires Shape(ViewAll(es)) && e.status.Waiting?
    ensures ViewAll(r) == S.Insert(ViewAll(es), e.View())
    ensures forall x :: x in r <==> x in es || x == e
  {
    hide Shape, S.Lead, ViewAll;
    LeadOfNew(ViewAll(es), e.View());
    ViewAllSnoc(es, e);
    r := es + [e];
    if e.req.helloPriority {
      var p := PartitionPoint(r);
      r := r[..p] + [r[|es|]] + r[p..|es|];
      assert r == es[..p] + [e] + es[p..];
      ViewAllInsert(es, p, e);
    }
  }

  /** Marks the elements from `point` on as staged and coalesces their payloads. */
  method StageLoop(es: seq<Elem>, point: nat, ghost batch: seq<S.Elem>) returns (payload: bytes, commands: nat)
    requires Objects(es) && point + |batch| == |es|
    requires forall k :: point <= k < |es| ==> es[k].req == batch[k - point].req
    modifies es`status
    ensures forall k :: 0 <= k < |es| ==> es[k].status == if point <= k then S.Staged else old(es[k].status)
    ensures payload == S.Payloads(batch) && commands == S.CommandCount(batch)
  {
    payload, commands := [], 0;
    assert S.Payloads(batch[..0]) == [] && S.CommandCount(batch[..0]) == 0;
    hide S.Payloads, S.CommandCount;
    for i := point to |es|
      invariant forall k :: 0 <= k < |es| ==> es[k].status == if point <= k < i then S.Staged else old(es[k].status)
      invariant payload == S.Payloads(batch[..i - point]) && commands == S.CommandCount(batch[..i - point])
    {
      OneMorePayload(batch, i - point);
      payload := payload + es[i].req.payload;
      es[i].status := S.Staged;
      commands := commands + es[i].req.commands;
    }
    assert batch[..|batch|] == batch;
  }

  method StageFrom(es: seq<Elem>, point: nat) returns (payload: bytes, commands: nat)
    requires Objects(es) && point <= |es|
    modifies es`status
    ensures ViewAll(es) == old(ViewAll(es))[..point] + S.MapElems(old(ViewAll(es))[point..], S.Stage)
    ensures payload == S.Payloads(old(ViewAll(es))[point..])
    ensures commands == S.CommandCount(old(ViewAll(es))[point..])
  {
    hide S.Payloads, S.CommandCount, ViewAll, S.MapElems;
    payload, commands := StageLoop(es, point, ViewAll(es)[point..]);
  }

  /** Stages everything that waits. */
  method StageBatch(es: seq<Elem>, ghost s: S.Mpx) returns (n: nat, payload: bytes, commands: nat)
    requires Objects(es) && ViewAll(es) == s.queue && Shape(s.queue)
    modifies es`status
    ensures n == |s.queue| - S.Lead(s.queue)
    ensures
      var t := S.PrepareWrite(s);
      && t == s.(queue := ViewAll(es), writeBuffer := s.writeBuffer + payload, usage := t.usage, staged := t.staged)
      && t.usage == s.usage.(commandsSent := s.usage.commandsSent + commands,
                             bytesSent := s.usage.bytesSent + |s.writeBuffer + payload|)
  {
    hide S.Payloads, S.CommandCount, ViewAll, S.MapElems, Shape, S.Stagings, S.Lead;
    var point := PartitionPoint(es);
    payload, commands := StageFrom(es, point);
    n := |es| - point;
  }

  /** An element that left is recorded as it is. */
  predicate Departed(e: S.Elem, gone: seq<S.Departure>) {
    exists d :: d in gone && d.elem == e
  }

  /** Who is no longer in the queue left it, and nobody came. */
  ghost predicate Leavers(before: seq<Elem>, after: seq<Elem>, gone0: seq<S.Departure>, gone1: seq<S.Departure>)
    reads before
  {
    && gone0 <= gone1
    && (forall x :: x in after ==> x in before)
    && (forall x :: x in before && x !in after ==> Departed(x.View(), gone1))
  }

  lemma {:induction false} NobodyLeaves(es: seq<Elem>, gone: seq<S.Departure>)
    ensures Leavers(es, es, gone, gone)
  {
  }

  lemma {:induction false} FrontLeaves(es: seq<Elem>, gone: seq<S.Departure>, exit: S.Exit)
    requires es != []
    ensures Leavers(es, es[1..], gone, gone + [S.Departure(es[0].View(), exit)])
  {
    var all := gone + [S.Departure(es[0].View(), exit)];
    assert all[|gone|].elem == es[0].View();
    assert es == [es[0]] + es[1..];
  }

  lemma {:induction false} RestLeaves(
    es: seq<Elem>, keep: seq<Elem>, drop: seq<Elem>, gone: seq<S.Departure>, exit: S.Exit)
    requires forall x :: x in keep ==> x in es
    requires forall x :: x in es ==> x in keep || x in drop
    ensures Leavers(es, keep, gone, gone + S.Depart(ViewAll(drop), exit))
  {
    var all := gone + S.Depart(ViewAll(drop), exit);
    forall x | x in drop ensures Departed(x.View(), all) {
      var i :| 0 <= i < |drop| && drop[i] == x;
      assert all[|gone| + i] == S.Departure(x.View(), exit);
    }
  }

  /** Objects that are no longer queued are recorded as they are. */
  ghost predicate Settled(out: set<Elem>, gone: seq<S.Departure>)
    reads out
  {
    forall x :: x in out ==> Departed(x.View(), gone)
  }

  ghost function Without(all: set<Elem>, es: seq<Elem>): (out: set<Elem>) {
    set x | x in all && x !in es
  }

  /** Every object of `all` is queued, or is recorded as it is. */
  ghost predicate Known(all: set<Elem>, es: seq<Elem>, gone: seq<S.Departure>)
    reads all
  {
    (forall x :: x in es ==> x in all) && Settled(Without(all, es), gone)
  }

  lemma {:induction false} StayKnown(
    all: set<Elem>, es0: seq<Elem>, es1: seq<Elem>, gone0: seq<S.Departure>, gone1: seq<S.Departure>)
    requires (forall x :: x in es0 ==> x in all) && Settled(Without(all, es0), gone0)
    requires Leavers(es0, es1, gone0, gone1)
    ensures Known(all, es1, gone1)
  {
    forall x | x in Without(all, es1) ensures Departed(x.View(), gone1) {
      if x !in es0 {
        assert x in Without(all, es0);
        var d :| d in gone0 && d.elem == x.View();
        assert d in gone1;
      }
    }
  }

  lemma {:induction false} JoinKnown(all: set<Elem>, es0: seq<Elem>, es1: seq<Elem>, gone: seq<S.Departure>, e: Elem)
    requires Known(all, es0, gone) && forall x :: x in es1 <==> x in es0 || x == e
    ensures Known(all + {e}, es1, gone)
  {
    forall x | x in Without(all + {e}, es1) ensures Departed(x.View(), gone) {
      assert x in Without(all, es0);
    }
  }

  /** Marks what was staged as written and releases what expects no reply. */
  method WriteAndRelease(es: seq<Elem>, ghost s: S.Mpx) returns (keep: seq<Elem>, drop: seq<Elem>)
    requires Objects(es) && ViewAll(es) == s.queue
    modifies es
    ensures
      var t := S.CommitWrite(s);
      && t == s.(queue := ViewAll(keep), writeBuffer := [], gone := t.gone)
      && t.gone == s.gone + S.Depart(ViewAll(drop), S.Released)
    ensures |keep| + |drop| == |es|
    ensures Leavers(es, keep, s.gone, S.CommitWrite(s).gone)
    ensures forall x :: x in keep ==> x in es
  {
    hide ViewAll, S.Select, Leavers;
    MarkAllWritten(es);
    keep, drop := StablePartition(es, S.IsRetained, S.IsReleasable);
    assert forall i :: 0 <= i < |drop| ==> drop[i] in es;
    assert forall i :: 0 <= i < |keep| ==> keep[i] !in drop;
    ghost var q := ViewAll(keep);
    NotifyAllDone(drop);
    assert ViewAll(keep) == q;
    RestLeaves(es, keep, drop, s.gone, S.Released);
  }

  /** Aborts everything that waits. */
  method AbortWaiting(es: seq<Elem>, ghost s: S.Mpx) returns (keep: seq<Elem>, drop: seq<Elem>)
    requires Objects(es) && ViewAll(es) == s.queue
    modifies es
    ensures
      var t := S.CancelWaiting(s);
      && t == s.(queue := ViewAll(keep), gone := t.gone)
      && t.gone == s.gone + S.Depart(ViewAll(drop), S.Aborted)
    ensures |keep| + |drop| == |es|
    ensures Leavers(es, keep, s.gone, S.CancelWaiting(s).gone)
  {
    hide ViewAll, S.Select, Leavers;
    keep, drop := StablePartition(es, S.IsActive, S.IsWaiting);
    assert forall i :: 0 <= i < |drop| ==> drop[i] in es;
    assert forall i :: 0 <= i < |keep| ==> keep[i] !in drop;
    ghost var q := ViewAll(keep);
    AbortAll(drop);
    assert ViewAll(keep) == q;
    RestLeaves(es, keep, drop, s.gone, S.Aborted);
  }

  /** Aborts what does not survive the loss of the connection; the rest waits again. */
  method AbortPerishing(es: seq<Elem>, ghost s: S.Mpx) returns (keep: seq<Elem>, drop: seq<Elem>)
    requires Objects(es) && ViewAll(es) == s.queue && !s.cancelCalled
    modifies es
    ensures
      var t := S.CancelOnConnLost(s);
      && t == s.(queue := ViewAll(keep), cancelCalled := true, gone := t.gone)
      && t.gone == s.gone + S.Depart(ViewAll(drop), S.Aborted)
    ensures |keep| + |drop| == |es|
    ensures Leavers(es, keep, s.gone, S.CancelOnConnLost(s).gone)
  {
    hide ViewAll, S.Select, Leavers;
    keep, drop := StablePartition(es, S.Survives, S.Perishes);
    assert forall i :: 0 <= i < |drop| ==> drop[i] in es;
    assert forall i :: 0 <= i < |keep| ==> keep[i] in es && keep[i] !in drop;
    ghost var q := ViewAll(keep);
    AbortAll(drop);
    assert ViewAll(keep) == q;
    q := ViewAll(drop);
    MarkAllWaiting(keep);
    assert ViewAll(drop) == q;
    RestLeaves(es, keep, drop, s.gone, S.Aborted);
  }

  /** The element in front takes a reply, and leaves with its last. */
  method AnswerFront(es: seq<Elem>, size: nat, ghost s: S.Mpx) returns (rest: seq<Elem>)
    requires Objects(es) && ViewAll(es) == s.queue && es != [] && es[0].remaining > 0
    modifies es
    ensures
      var t := S.CommitResponse(s, size);
      t == s.(queue := ViewAll(rest), gone := t.gone) && Leavers(es, rest, s.gone, t.gone)
  {
    hide ViewAll, Leavers;
    var front := es[0];
    front.CommitResponse(size);
    FrontChanged(es, s.queue);
    if front.remaining == 0 {
      front.NotifyDone();
      FrontChanged(es, s.queue);
      FrontLeaves(es, s.gone, S.Completed);
      return es[1..];
    }
    NobodyLeaves(es, s.gone);
    rest := es;
  }

  class Multiplexer {
    var readBuffer: bytes
    var writeBuffer: bytes
    var reqs: seq<Elem>
    const parser: Parser.Parser
    var onPush: bool
    var cancelRunCalled: bool
    var usage: S.Usage

    /** What the adapters were handed, the elements that left the queue, as they were then, and the
        payloads that were staged. */
    ghost var deliveries: seq<S.Delivery>
    ghost var gone: seq<S.Departure>
    ghost var staged: seq<S.Staging>

    ghost function View(): (s: S.Mpx)
      requires parser.Valid()
      reads this, reqs, parser, parser.sizes
    {
      S.Mpx(ViewAll(reqs), writeBuffer, readBuffer, parser.View(), onPush, cancelRunCalled, usage,
            deliveries, gone, staged)
    }

    ghost predicate Valid()
      reads this, reqs, parser, parser.sizes
    {
      parser.Valid() && Wf(View())
    }

    constructor ()
      ensures Valid() && View() == S.EMPTY && fresh(parser) && fresh(parser.sizes)
    {
      readBuffer, writeBuffer, reqs, onPush, cancelRunCalled := [], [], [], false, false;
      usage := S.Usage(0, 0, 0, 0, 0, 0);
      parser := new Parser.Parser();
      deliveries, gone, staged := [], [], [];
    }

    lemma {:induction false} Fields()
      requires parser.Valid()
      ensures readBuffer == View().readBuffer && writeBuffer == View().writeBuffer
      ensures cancelRunCalled == View().cancelCalled
    {
    }

    /** No object is queued twice. */
    lemma {:induction false} Separate()
      requires Valid()
      ensures Objects(reqs)
    {
      hide Count, Wf;
      var s := View();
      forall i, j | 0 <= i < j < |reqs| ensures reqs[i] != reqs[j] {
        EveryoneOnce(s, i, j);
        assert Everyone(s)[i] == reqs[i].View() && Everyone(s)[j] == reqs[j].View();
      }
    }

    /** `add`. */
    method Add(e: Elem)
      requires Valid() && e.View() == S.MakeElem(e.id, e.req) && Count(Everyone(View()), e.id) == 0
      modifies this`reqs
      ensures parser.Valid() && View() == S.Add(old(View()), e.View())
      ensures Valid()
      ensures forall x :: x in reqs <==> x in old(reqs) || x == e
    {
      hide Wf, S.Insert, Shape, ViewAll;
      AddKeeps(View(), e.View());
      WfShape(View());
      reqs := PushBack(reqs, e);
    }

    /** `remove`: an element that waits is in the queue exactly once and is taken out. */
    method Remove(e: Elem) returns (removed: bool)
      requires Valid() && (e.status.Waiting? ==> e in reqs)
      modifies this`reqs, this`gone
      ensures removed == e.status.Waiting? && parser.Valid()
      ensures !removed ==> View() == old(View()) && reqs == old(reqs)
      ensures removed ==> S.InQueue(old(View()), e.id) && View() == S.Remove(old(View()), e.id)
      ensures Valid()
      ensures Leavers(old(reqs), reqs, old(gone), gone)
    {
      hide Wf, ViewAll, S.Remove, S.InQueue, S.IndexOf;
      removed := e.status.Waiting?;
      if removed {
        TakeOut(e);
      }
    }

    method TakeOut(e: Elem)
      requires Valid() && e in reqs && e.status.Waiting?
      modifies this`reqs, this`gone
      ensures parser.Valid() && S.InQueue(old(View()), e.id) && View() == S.Remove(old(View()), e.id)
      ensures Valid()
      ensures Leavers(old(reqs), reqs, old(gone), gone)
    {
      hide Wf, ViewAll, S.Remove, S.InQueue, S.IndexOf;
      ghost var s := View();
      var i := Erase(e);
      Removal(s, i, e.id);
      ghost var t := S.Remove(s, e.id);
      gone := t.gone;
      assert ViewAll(reqs) == t.queue;
      assert t.gone[|s.gone|].elem == e.View() && t.gone[|s.gone|] in t.gone;
    }

    /** The object is found and erased. */
    method Erase(e: Elem) returns (ghost i: nat)
      requires Valid() && e in reqs
      modifies this`reqs
      ensures i < |old(reqs)| && old(reqs)[i] == e
      ensures ViewAll(reqs) == old(ViewAll(reqs))[..i] + old(ViewAll(reqs))[i + 1..]
      ensures reqs == old(reqs)[..i] + old(reqs)[i + 1..]
    {
      hide Wf, ViewAll;
      var k := 0;
      while reqs[k] != e
        invariant 0 <= k < |reqs| && e in reqs[k..]
        decreases |reqs| - k
      {
        k := k + 1;
      }
      ViewAllAppend(reqs[..k], reqs[k + 1..]);
      ViewAllSlice(reqs, 0, k);
      ViewAllSlice(reqs, k + 1, |reqs|);
      assert reqs[0..k] == reqs[..k] && reqs[k + 1..|reqs|] == reqs[k + 1..];
      reqs := reqs[..k] + reqs[k + 1..];
      i := k;
    }

    /** `prepare_write`. */
    method PrepareWrite() returns (n: nat)
      requires Valid()
      modifies this`writeBuffer, this`usage, this`staged, reqs`status
      ensures parser.Valid() && View() == S.PrepareWrite(old(View()))
      ensures Valid()
      ensures n == |old(View()).queue| - S.Lead(old(View()).queue)
    {
      hide Wf, ViewAll, Count, Shape, S.Lead, S.PrepareWrite;
      ghost var s := View();
      Separate();
      PrepareWriteKeeps(s);
      WfShape(s);
      var payload: bytes;
      var commands: nat;
      n, payload, commands := StageBatch(reqs, s);
      writeBuffer := writeBuffer + payload;
      usage := usage.(commandsSent := usage.commandsSent + commands, bytesSent := usage.bytesSent + |writeBuffer|);
      staged := S.PrepareWrite(s).staged;
    }

    /** `commit_write`. */
    method CommitWrite() returns (n: nat)
      requires Valid()
      modifies this`writeBuffer, this`reqs, this`gone, reqs
      ensures parser.Valid() && View() == S.CommitWrite(old(View()))
      ensures Valid()
      ensures Leavers(old(reqs), reqs, old(gone), gone)
      ensures forall x :: x in reqs ==> x in old(reqs)
      ensures n == |old(reqs)| - |reqs|
    {
      hide Wf, ViewAll, Count, S.CommitWrite, Leavers;
      ghost var s := View();
      Separate();
      CommitWriteKeeps(s);
      writeBuffer := [];
      var keep, drop := WriteAndRelease(reqs, s);
      reqs := keep;
      gone := S.CommitWrite(s).gone;
      n := |drop|;
    }

    /** `cancel_waiting`. */
    method CancelWaiting() returns (n: nat)
      requires Valid()
      modifies this`reqs, this`gone, reqs
      ensures parser.Valid() && View() == S.CancelWaiting(old(View()))
      ensures Valid()
      ensures Leavers(old(reqs), reqs, old(gone), gone)
      ensures n == |old(reqs)| - |reqs|
    {
      hide Wf, ViewAll, Count, S.CancelWaiting, Leavers;
      ghost var s := View();
      Separate();
      CancelWaitingKeeps(s);
      var keep, drop := AbortWaiting(reqs, s);
      reqs := keep;
      gone := S.CancelWaiting(s).gone;
      n := |drop|;
    }

    /** `cancel_on_conn_lost`: does nothing when called again before `reset`. */
    method CancelOnConnLost() returns (n: nat)
      requires Valid()
      modifies this`reqs, this`gone, this`cancelRunCalled, reqs
      ensures parser.Valid() && View() == S.CancelOnConnLost(old(View()))
      ensures Valid()
      ensures Leavers(old(reqs), reqs, old(gone), gone)
      ensures n == |old(reqs)| - |reqs|
    {
      hide Wf, ViewAll, Leavers;
      if cancelRunCalled {
        NobodyLeaves(reqs, gone);
        return 0;
      }
      hide S.CancelOnConnLost;
      n := LoseConnection();
    }

    method LoseConnection() returns (n: nat)
      requires Valid() && !cancelRunCalled
      modifies this`reqs, this`gone, this`cancelRunCalled, reqs
      ensures parser.Valid() && View() == S.CancelOnConnLost(old(View()))
      ensures Valid()
      ensures Leavers(old(reqs), reqs, old(gone), gone)
      ensures n == |old(reqs)| - |reqs|
    {
      hide Wf, ViewAll, Count, Leavers, S.CancelOnConnLost;
      ghost var s := View();
      Separate();
      CancelOnConnLostKeeps(s);
      cancelRunCalled := true;
      var keep, drop := AbortPerishing(reqs, s);
      reqs := keep;
      gone := S.CancelOnConnLost(s).gone;
      n := |drop|;
    }

    /** `reset`. */
    method Reset()
      requires Valid()
      modifies this`writeBuffer, this`readBuffer, this`onPush, this`cancelRunCalled, parser, parser.sizes
      ensures parser.Valid() && View() == S.Reset(old(View()))
      ensures Valid()
    {
      hide Wf, ViewAll;
      ResetKeeps(View());
      writeBuffer := [];
      readBuffer := [];
      parser.Reset();
      onPush := false;
      cancelRunCalled := false;
    }

    /** The reader appends what arrived. */
    method Append(data: bytes)
      requires Valid()
      modifies this`readBuffer
      ensures parser.Valid() && View() == S.Append(old(View()), data)
      ensures Valid()
    {
      hide Wf, ViewAll;
      AppendKeeps(View(), data);
      readBuffer := readBuffer + data;
    }

    /** `is_next_push`. */
    predicate IsNextPush()
      requires readBuffer != []
      reads this, reqs
    {
      || ToType(readBuffer[0]).Push?
      || reqs == []
      || reqs[0].remaining == 0
      || reqs[0].status.Waiting?
    }

    /** `on_finish_parsing`. */
    method OnFinishParsing(push: bool) returns (size: nat)
      requires parser.Valid() && parser.consumed <= |readBuffer|
      modifies this`usage, this`onPush, this`readBuffer, parser, parser.sizes
      ensures parser.Valid() && View() == S.FinishParsing(old(View()), push)
      ensures size == old(parser.consumed)
    {
      hide ViewAll;
      size := parser.consumed;
      if push {
        usage := usage.(pushesReceived := usage.pushesReceived + 1, pushBytes := usage.pushBytes + size);
      } else {
        usage := usage.(responsesReceived := usage.responsesReceived + 1,
                        responseBytes := usage.responseBytes + size);
      }
      onPush := false;
      readBuffer := readBuffer[size..];
      parser.Reset();
    }

    /** The reply in the buffer is complete: the request in front takes it, and leaves with its last. */
    method FinishResponse()
      requires parser.Valid() && Objects(reqs) && reqs != [] && reqs[0].remaining > 0
      modifies this`reqs, this`gone, reqs
      ensures parser.Valid() && View() == S.CommitResponse(old(View()), parser.consumed)
      ensures Leavers(old(reqs), reqs, old(gone), gone)
    {
      hide ViewAll, Leavers, S.CommitResponse;
      ghost var s := View();
      reqs := AnswerFront(reqs, parser.consumed, s);
      gone := S.CommitResponse(s, parser.consumed).gone;
    }

    /** Then the counters, the buffer and the parser are made ready for the next message. */
    method FinishReply() returns (size: nat)
      requires parser.Valid() && Objects(reqs) && reqs != [] && reqs[0].remaining > 0
      requires parser.consumed <= |readBuffer|
      modifies this`reqs, this`gone, this`usage, this`onPush, this`readBuffer, reqs, parser, parser.sizes
      ensures parser.Valid() && size == old(parser.consumed)
      ensures View() == S.FinishParsing(S.CommitResponse(old(View()), old(parser.consumed)), false)
      ensures Leavers(old(reqs), reqs, old(gone), gone)
    {
      hide ViewAll, Leavers, S.CommitResponse, S.FinishParsing;
      FinishResponse();
      size := OnFinishParsing(false);
    }

    /** The adapter refused the reply: the request in front is told, and stays. */
    method FailFront(e: Error)
      requires parser.Valid() && Objects(reqs) && reqs != []
      modifies reqs
      ensures parser.Valid()
      ensures View() == old(View()).(queue := old(View()).queue[0 := old(View()).queue[0].NotifyError(e)])
    {
      hide ViewAll;
      ghost var q := ViewAll(reqs);
      reqs[0].NotifyError(e);
      FrontChanged(reqs, q);
    }

    /** `commit_read`.  `fault` says which node of this call the adapter refuses, if any. */
    method CommitRead(fault: Option<P.Fault>) returns (r: S.Read)
      requires Valid() && readBuffer != []
      modifies this`reqs, this`gone, this`onPush, this`usage, this`readBuffer, this`deliveries
      modifies reqs, parser, parser.sizes
      ensures parser.Valid() && r == S.CommitRead(old(View()), fault).read
      ensures !r.Crash? ==> View() == S.CommitRead(old(View()), fault).mpx
      ensures !r.Crash? ==> Valid()
      ensures r.Failure? ==> reqs == old(reqs)
      ensures Leavers(old(reqs), reqs, old(gone), gone)
    {
      hide Wf, ViewAll, Count, P.Parse, S.CommitRead;
      ghost var s := View();
      assert |s.queue| == |reqs| && (reqs != [] ==> s.queue[0] == reqs[0].View());
      Separate();
      ReadParts(s, fault);
      CommitReadKeeps(s, fault);
      if !onPush {
        onPush := IsNextPush();
      }
      if onPush {
        r := ReadPush(fault);
      } else {
        r := ReadReply(fault);
      }
    }

    /** The message goes to the receive adapter. */
    method ReadPush(fault: Option<P.Fault>) returns (r: S.Read)
      requires parser.Valid() && S.CanRead(View()) && onPush
      modifies this`onPush, this`usage, this`readBuffer, this`deliveries, parser, parser.sizes
      ensures parser.Valid() && r == S.CommitRead(old(View()), fault).read
      ensures !r.Crash? ==> View() == S.CommitRead(old(View()), fault).mpx
    {
      hide ViewAll, P.Parse;
      var end, nodes := Parser.Parse(parser, readBuffer, fault);
      if end.Crashed? {
        return S.Crash;
      }
      deliveries := deliveries + S.Deliver(nodes, None);
      if end.Partial? {
        return S.NeedMore;
      }
      if end.Failed? {
        return S.Failure(true, end.error);
      }
      var size := OnFinishParsing(true);
      r := S.Message(true, size);
    }

    /** The message goes to the adapter of the request in front. */
    method ReadReply(fault: Option<P.Fault>) returns (r: S.Read)
      requires parser.Valid() && S.CanRead(View()) && Objects(reqs) && !onPush && !IsNextPush()
      modifies this`reqs, this`gone, this`onPush, this`usage, this`readBuffer, this`deliveries
      modifies reqs, parser, parser.sizes
      ensures parser.Valid() && r == S.CommitRead(old(View()), fault).read
      ensures !r.Crash? ==> View() == S.CommitRead(old(View()), fault).mpx
      ensures r.Failure? ==> reqs == old(reqs)
      ensures Leavers(old(reqs), reqs, old(gone), gone)
    {
      hide ViewAll, P.Parse, Leavers, S.CommitResponse, S.FinishParsing;
      ghost var s := View();
      assert s.queue[0] == reqs[0].View();
      var end, nodes := Parser.Parse(parser, readBuffer, fault);
      if end.Crashed? {
        NobodyLeaves(reqs, gone);
        return S.Crash;
      }
      deliveries := deliveries + S.Deliver(nodes, Some(reqs[0].View()));
      if end.Partial? {
        NobodyLeaves(reqs, gone);
        return S.NeedMore;
      }
      if end.Failed? {
        FailFront(end.error);
        NobodyLeaves(reqs, gone);
        return S.Failure(false, end.error);
      }
      var size := FinishReply();
      r := S.Message(false, size);
    }
  }

  lemma {:induction false} LeadOfNew(q: seq<S.Elem>, e: S.Elem)
    requires Shape(q) && e.IsWaiting()
    ensures Shape(q + [e]) && S.Lead(q + [e]) == S.Lead(q)
  {
    LeadIs(q);
    ShapeAppend(q, [e]);
    LeadUnique(q + [e], S.Lead(q));
  }

  /** Only the first object changed. */
  lemma {:induction false} FrontChanged(es: seq<Elem>, q: seq<S.Elem>)
    requires es != [] && |q| == |es| && forall i :: 1 <= i < |es| ==> es[i].View() == q[i]
    ensures ViewAll(es) == q[0 := es[0].View()] && ViewAll(es[1..]) == q[1..]
  {
    assert ViewAll(es[1..]) == q[1..];
  }

  /** Deciding the kind of the message first does not change what is read. */
  lemma {:induction false} ReadParts(s: S.Mpx, fault: Option<P.Fault>)
    requires Wf(s) && s.readBuffer != []
    ensures S.CanRead(s)
    ensures S.CommitRead(s, fault).read.Crash? ||
            S.CommitRead(s.(onPush := s.onPush || S.IsNextPush(s)), fault) == S.CommitRead(s, fault)
    ensures S.CommitRead(s.(onPush := s.onPush || S.IsNextPush(s)), fault).read == S.CommitRead(s, fault).read
  {
    hide P.Parse;
  }

  lemma {:induction false} WfShape(s: S.Mpx)
    requires Wf(s)
    ensures Shape(s.queue)
  {
  }

  lemma {:induction false} EveryoneOnce(s: S.Mpx, i: nat, j: nat)
    requires Wf(s) && i < j < |Everyone(s)|
    ensures Everyone(s)[i].id != Everyone(s)[j].id
  {
    CountedOnce(Everyone(s), i);
  }

  lemma {:induction false} Removal(s: S.Mpx, i: nat, id: nat)
    requires Wf(s) && i < |s.queue| && s.queue[i].id == id && s.queue[i].IsWaiting()
    ensures S.InQueue(s, id) && Wf(S.Remove(s, id))
    ensures
      var t := S.Remove(s, id);
      && t == s.(queue := s.queue[..i] + s.queue[i + 1..], gone := t.gone)
      && t.gone == s.gone + [S.Departure(s.queue[i], S.Removed)]
  {
    hide Count, Wf;
    var j := S.IndexOf(s.queue, id);
    if j < i {
      EveryoneOnce(s, j, i);
    }
    RemoveKeeps(s, id);
  }
}
