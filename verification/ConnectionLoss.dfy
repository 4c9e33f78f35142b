/** What the loss of a connection does to the requests in the queue. */
module ConnectionLoss {
  import opened Bytes
  import opened MultiplexerSpec
  import opened Queues
  import opened Invariants
  import opened Histories
  import opened Runs
  import opened Lifecycle
  import Parser = ParserSpec

  /** Strictly increasing positions in the old queue, one for each element of the new one. */
  ghost predicate InOrder(before: seq<Elem>, now: seq<Elem>, from: seq<nat>) {
    && |from| == |now|
    && (forall i :: 0 <= i < |from| ==> from[i] < |before| && Survives(before[from[i]]))
    && (forall i :: 0 <= i < |from| ==> now[i] == Requeue(before[from[i]]))
    && (forall i, j :: 0 <= i < j < |from| ==> from[i] < from[j])
  }

  lemma {:induction false} SelectInOrder(q: seq<Elem>) returns (from: seq<nat>)
    ensures InOrder(q, MapElems(Select(q, Survives), Requeue), from)
  {
    if q == [] {
      from := [];
    } else {
      var q0, last := q[..|q| - 1], q[|q| - 1];
      from := SelectInOrder(q0);
      var r0 := Select(q0, Survives);
      assert forall i :: 0 <= i < |from| ==> q0[from[i]] == q[from[i]];
      if Survives(last) {
        assert Select(q, Survives) == r0 + [last];
        assert MapElems(r0 + [last], Requeue) == MapElems(r0, Requeue) + [Requeue(last)];
        from := from + [|q| - 1];
      } else {
        assert Select(q, Survives) == r0 + [];
      }
    }
  }

  /** The survivors, and only they, stay; they keep their order and wait again.  The others leave with the
      error `operation_aborted` unless they already had one. */
  lemma {:induction false} SurvivorsStay(s: Mpx)
    requires !s.cancelCalled
    ensures
      var t := CancelOnConnLost(s);
      && (exists from :: InOrder(s.queue, t.queue, from))
      && (forall e :: e in s.queue ==> (Survives(e) ==> Requeue(e) in t.queue))
      && (forall e :: e in s.queue ==> (Perishes(e) ==> Departure(Abort(e), Aborted) in t.gone))
      && CancelOnConnLost(t) == t
  {
    hide Select;
    var t := CancelOnConnLost(s);
    var from := SelectInOrder(s.queue);
    SelectMembers(s.queue, Survives);
    SelectMembers(s.queue, Perishes);
    MapMembers(Select(s.queue, Survives), Requeue);
    var out := MapElems(Select(s.queue, Perishes), Abort);
    MapMembers(Select(s.queue, Perishes), Abort);
    forall e | e in s.queue && Perishes(e) ensures Departure(Abort(e), Aborted) in t.gone {
      assert Abort(e) in out;
      var i :| 0 <= i < |out| && out[i] == Abort(e);
      assert Depart(out, Aborted)[i] == Departure(Abort(e), Aborted);
    }
  }

  /** A write that completes after the loss marks nothing as written and releases nothing. */
  lemma {:induction false} LateCommitWrite(s: Mpx)
    requires AllWaiting(s.queue)
    ensures CommitWrite(s) == s.(writeBuffer := [])
  {
    hide Select;
    var q := MapElems(s.queue, MarkWritten);
    forall i | 0 <= i < |q| ensures q[i] == s.queue[i] {
      assert s.queue[i] in s.queue;
    }
    assert q == s.queue;
    SelectAll(q, IsRetained);
    SelectNone(q, IsReleasable);
    assert s.gone + Depart([], Released) == s.gone;
  }

  /** With no further additions the next batch is exactly the payloads of the survivors, in order. */
  lemma {:induction false} NextBatchIsRetained(s: Mpx)
    requires !s.cancelCalled
    ensures
      var t := Reset(CommitWrite(CancelOnConnLost(s)));
      && PrepareWrite(t).writeBuffer == Payloads(Select(s.queue, Survives))
      && PrepareWrite(t).gone == CancelOnConnLost(s).gone
  {
    hide Select, Payloads, CommandCount;
    var lost := CancelOnConnLost(s);
    var kept := Select(s.queue, Survives);
    ConnLostWaiting(s);
    LateCommitWrite(lost);
    var t := Reset(CommitWrite(lost));
    NoLead(t.queue);
    assert t.queue[0..] == t.queue == MapElems(kept, Requeue);
    SamePayloads(kept);
    assert [] + Payloads(t.queue) == Payloads(t.queue);
  }

  lemma {:induction false} SamePayloads(q: seq<Elem>)
    ensures Payloads(MapElems(q, Requeue)) == Payloads(q)
  {
    if q != [] {
      SamePayloads(q[..|q| - 1]);
      assert MapElems(q, Requeue)[..|q| - 1] == MapElems(q[..|q| - 1], Requeue);
    }
  }

  lemma {:induction false} SelectOne(e: Elem)
    ensures Select([e], Survives) == if Survives(e) then [e] else []
  {
    assert [e][..0] == [];
  }

  lemma {:induction false} FrontAfterLoss(q: seq<Elem>)
    requires q != [] && forall e :: e in q[1..] ==> e.id != q[0].id
    ensures
      var r := MapElems(Select(q, Survives), Requeue);
      if Survives(q[0]) then r != [] && r[0] == Requeue(q[0]) && Count(r, q[0].id) > 0 else Count(r, q[0].id) == 0
  {
    hide Select, Count;
    var rest := Select(q[1..], Survives);
    assert q == [q[0]] + q[1..];
    SelectAppend([q[0]], q[1..], Survives);
    SelectOne(q[0]);
    SelectMembers(q[1..], Survives);
    var r := MapElems(Select(q, Survives), Requeue);
    if Survives(q[0]) {
      assert r[0] == Requeue(q[0]);
      CountHas(r, 0);
    } else {
      assert Select(q, Survives) == rest;
      assert forall i :: 0 <= i < |r| ==> rest[i] in rest && r[i].id == rest[i].id;
      CountNone(r, q[0].id);
    }
  }

  lemma {:induction false} RefusedFront(s: Mpx, fault: Option<Parser.Fault>)
    requires Wf(s) && s.readBuffer != []
    requires CommitRead(s, fault).read.Failure? && !CommitRead(s, fault).read.push
    ensures
      var r := CommitRead(s, fault);
      && s.queue != [] && !s.queue[0].IsWaiting()
      && r.mpx.queue == s.queue[0 := s.queue[0].NotifyError(r.read.error)]
      && r.mpx.cancelCalled == s.cancelCalled
  {
    hide Parser.Parse, Deliver;
  }

  /** A reply that an adapter refuses costs the connection.  The request it was for leaves the queue then if
      and only if it is not to be repeated; otherwise it stays, although its caller was told the error.  Either
      way that error is the one its caller sees, unless it was told another before. */
  lemma {:induction false} RefusedReply(s: Mpx, fault: Option<Parser.Fault>)
    requires Wf(s) && s.readBuffer != [] && !s.cancelCalled
    requires CommitRead(s, fault).read.Failure? && !CommitRead(s, fault).read.push
    ensures
      var front := s.queue[0];
      var t := CancelOnConnLost(CommitRead(s, fault).mpx);
      && (front.req.cfg.cancelIfUnresponded <==> Count(t.queue, front.id) == 0)
      && (!front.req.cfg.cancelIfUnresponded ==>
            && t.queue != [] && t.queue[0].id == front.id && t.queue[0].IsWaiting()
            && t.queue[0].ec == if front.ec.Some? then front.ec else Some(CommitRead(s, fault).read.error))
      && (front.req.cfg.cancelIfUnresponded ==>
            AbortedWith(t, front.id, if front.ec.Some? then front.ec else Some(CommitRead(s, fault).read.error)))
  {
    hide CommitRead, Select, Count, MapElems, Depart, Distinct, UsageOk, Shape, AllQueuedOk, AllGoneOk;
    var r := CommitRead(s, fault).mpx;
    RefusedFront(s, fault);
    DistinctOf(s);
    FrontIsOnly(s);
    assert r.queue[1..] == s.queue[1..];
    FrontAfterLoss(r.queue);
    RefusedFate(s, fault, s.queue[0]);
  }
}
