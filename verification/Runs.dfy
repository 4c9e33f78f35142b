/** What holds in every state that a connection can reach, over any number of connection losses. */
module Runs {
  import opened Bytes
  import opened MultiplexerSpec
  import opened Queues
  import opened Invariants
  import opened Correlation
  import opened Histories
  import opened ConnectionSpec
  import Parser = ParserSpec

  // The books: every request is held once, and the logs agree with the state.

  ghost predicate Ledger(s: Sys) {
    Wf(s.mpx) && forall id: nat :: Count(Everyone(s.mpx), id) == if id < s.nextId then 1 else 0
  }

  /** Every byte received on this connection was consumed by a message or is still in the buffer. */
  predicate BytesOk(s: Sys) {
    s.mpx.usage.responseBytes + s.mpx.usage.pushBytes + |s.mpx.readBuffer| == s.base + s.appended
  }

  ghost predicate RemovedFinished(s: Sys) {
    forall d :: d in s.mpx.gone && d.exit.Removed? ==> d.elem.id in s.finished
  }

  ghost predicate FromSubmitted(s: Sys) {
    forall e :: e in Everyone(s.mpx) ==> e.req in s.submitted
  }

  ghost predicate Logs(s: Sys) {
    && StagedOnce(s.mpx)
    && s.mpx.usage.bytesSent == |WireBytes(s.mpx.staged)|
    && RepliesOk(s.mpx, s.replies)
    && RemovedFinished(s)
    && FromSubmitted(s)
    && BytesOk(s)
  }

  lemma {:induction false} SubmittedKept(s: Sys, t: Sys, bump: Option<nat>)
    requires FromSubmitted(s) && Descends(s.mpx, t.mpx, bump) && s.submitted <= t.submitted
    ensures FromSubmitted(t)
  {
    hide Everyone;
    forall e | e in Everyone(t.mpx) ensures e.req in t.submitted {
      assert Has(Everyone(s.mpx), e, bump);
      var d :| d in Everyone(s.mpx) && Same(d, e, bump);
    }
  }

  ghost predicate Books(s: Sys) {
    Ledger(s) && Logs(s)
  }

  /** Steps that stage nothing, add nothing and complete no reply. */
  lemma {:induction false} QuietStep(s: Sys, t: Sys)
    requires Books(s) && Wf(t.mpx) && SameCount(s.mpx, t.mpx) && Follows(s.mpx, t.mpx, None)
    requires t.nextId == s.nextId && t.replies == s.replies && s.finished <= t.finished && BytesOk(t)
    requires t.submitted == s.submitted
    ensures Books(t)
  {
    hide Wf, Count, Everyone, StagedCount, WireBytes, Descends, StillWaiting, StagedOnce, RepliesOk;
    SubmittedKept(s, t, None);
    StagedOnceKept(s.mpx, t.mpx, None);
    RepliesKept(s.mpx, t.mpx, s.replies);
  }

  lemma {:induction false} DropKeepsBooks(s: Sys)
    requires Books(s)
    ensures Books(Drop(s))
  {
    hide Wf, Count, Everyone, Follows, CancelOnConnLost, BytesOk, StagedOnce, RepliesOk, WireBytes;
    DropBytes(s);
    CancelOnConnLostKeeps(s.mpx);
    ConnLostFollows(s.mpx);
    QuietStep(s, Drop(s));
  }

  lemma {:induction false} DropBytes(s: Sys)
    ensures BytesOk(Drop(s)) <==> BytesOk(s)
  {
    hide Select, MapElems, Depart;
  }

  lemma {:induction false} EnqueueKeepsBooks(s: Sys, req: Req)
    requires Books(s)
    ensures Books(Enqueue(s, req))
  {
    hide Wf, Count, Everyone, StagedCount, WireBytes, Insert, StagedOnce, RepliesOk;
    var e := MakeElem(s.nextId, req);
    AddKeeps(s.mpx, e);
    StagedOnceAdd(s.mpx, e);
    RepliesAdd(s.mpx, e, s.replies);
    AddDescends(s.mpx, e);
  }

  lemma {:induction false} TurnKeepsBooks(s: Sys)
    requires Books(s) && s.mpx.writeBuffer == []
    ensures Books(WriterTurn(s))
  {
    hide Count, Everyone, StagedCount, WireBytes, StagedOnce, RepliesOk, Descends;
    hide Shape, AllQueuedOk, AllGoneOk, Distinct, UsageOk, ParserOk, Asked;
    hide Lead, MapElems, Stagings, Payloads, CommandCount;
    PrepareWriteKeeps(s.mpx);
    StagedOncePrepare(s.mpx);
    StagedBytes(s.mpx);
    PrepareDescends(s.mpx);
    RepliesKept(s.mpx, PrepareWrite(s.mpx), s.replies);
    SubmittedKept(s, WriterTurn(s), None);
  }

  lemma {:induction false} CommitWriteKeepsBooks(s: Sys)
    requires Books(s)
    ensures Books(s.(mpx := CommitWrite(s.mpx)))
  {
    hide Wf, Count, Everyone, Follows, StagedOnce, RepliesOk, WireBytes, Select, MapElems, Depart;
    CommitWriteKeeps(s.mpx);
    CommitWriteFollows(s.mpx);
    QuietStep(s, s.(mpx := CommitWrite(s.mpx)));
  }

  lemma {:induction false} CancelExecKeepsBooks(s: Sys)
    requires Books(s)
    ensures Books(s.(mpx := CancelWaiting(s.mpx)))
  {
    hide Wf, Count, Everyone, Follows, StagedOnce, RepliesOk, WireBytes, Select, MapElems, Depart;
    CancelWaitingKeeps(s.mpx);
    CancelWaitingFollows(s.mpx);
    QuietStep(s, s.(mpx := CancelWaiting(s.mpx)));
  }

  lemma {:induction false} ReceiveKeepsBooks(s: Sys, data: bytes)
    requires Books(s)
    ensures Books(s.(mpx := Append(s.mpx, data), appended := s.appended + |data|))
  {
    hide Wf, Count, Everyone, Follows, StagedOnce, RepliesOk, WireBytes;
    AppendKeeps(s.mpx, data);
    SelfFollows(s.mpx, Append(s.mpx, data));
    QuietStep(s, s.(mpx := Append(s.mpx, data), appended := s.appended + |data|));
  }

  lemma {:induction false} ReadBytes(s: Sys, fault: Option<Parser.Fault>)
    requires BytesOk(s) && CanRead(s.mpx)
    ensures BytesOk(s.(mpx := CommitRead(s.mpx, fault).mpx))
  {
    hide Parser.Parse, Deliver;
  }

  /** A complete reply goes into the log of replies, under the slot of the request in front. */
  lemma {:induction false} ReadKeepsBooks(s: Sys, fault: Option<Parser.Fault>)
    requires Books(s) && CanRead(s.mpx)
    ensures Books(TakeRead(s, fault))
  {
    hide Wf, Count, Everyone, Descends, StillWaiting, StagedOnce, RepliesOk, WireBytes, CommitRead, Distinct, BytesOk;
    var r := CommitRead(s.mpx, fault);
    var u := s.(mpx := r.mpx);
    CommitReadKeeps(s.mpx, fault);
    ReadFollows(s.mpx, fault);
    ReadBytes(s, fault);
    if r.read.Message? && !r.read.push {
      ReplyHasFront(s.mpx, fault);
      StagedOnceKept(s.mpx, r.mpx, Some(s.mpx.queue[0].id));
      assert Distinct(s.mpx) by {
        DistinctOf(s.mpx);
      }
      RepliesGrow(s.mpx, r.mpx, s.replies);
      SameBytes(u, TakeRead(s, fault));
      SubmittedKept(s, TakeRead(s, fault), Some(s.mpx.queue[0].id));
    } else {
      QuietStep(s, u);
      if r.read.Failure? {
        var v := u.(reader := false);
        SameBytes(u, v);
        assert Books(v);
        DropKeepsBooks(v);
      }
    }
  }

  lemma {:induction false} SameBytes(s: Sys, t: Sys)
    requires t.mpx == s.mpx && t.base == s.base && t.appended == s.appended
    ensures BytesOk(s) <==> BytesOk(t)
  {
  }

  lemma {:induction false} DistinctOf(s: Mpx)
    requires Wf(s)
    ensures Distinct(s)
  {
  }

  /** The assertions of `commit_read` hold before every parse of a reply, complete or not: there is a request
      in front, it was handed to the writer, and it waits for a reply. */
  lemma {:induction false} ReplyHasFront(s: Mpx, fault: Option<Parser.Fault>)
    requires CanRead(s)
    ensures !(s.onPush || IsNextPush(s)) ==> s.queue != [] && !s.queue[0].IsWaiting() && s.queue[0].remaining > 0
    ensures
      var read := CommitRead(s, fault).read;
      read.Message? || read.Failure? ==> read.push == (s.onPush || IsNextPush(s))
  {
    hide Parser.Parse, Deliver;
  }

  lemma {:induction false} ResetKeepsBooks(s: Sys, t: Sys)
    requires Books(s)
    requires t.mpx == Reset(s.mpx) && t.nextId == s.nextId && t.replies == s.replies && t.finished == s.finished
    requires t.submitted == s.submitted
    requires t.base == s.mpx.usage.responseBytes + s.mpx.usage.pushBytes && t.appended == 0
    ensures Books(t)
  {
    hide Wf, Count, Everyone, Follows, StagedOnce, RepliesOk, WireBytes;
    ResetKeeps(s.mpx);
    SelfFollows(s.mpx, Reset(s.mpx));
    QuietStep(s, t);
  }

  lemma {:induction false} SubmitKeepsBooks(s: Sys, req: Req)
    requires Books(s)
    ensures Books(Submit(s, req)) && Submit(s, req).mpx.writeBuffer == s.mpx.writeBuffer
  {
    hide Books, Insert;
    EnqueueKeepsBooks(s, req);
  }

  lemma {:induction false} StartKeepsBooks(s: Sys, hello: Req, ping: Option<Req>)
    requires Books(s)
    ensures Books(Start(s, hello, ping))
  {
    hide Books, Submit, WriterTurn;
    var u := s.(mpx := Reset(s.mpx), asked := [], answered := [], appended := 0, reader := true,
                base := s.mpx.usage.responseBytes + s.mpx.usage.pushBytes);
    ResetKeepsBooks(s, u);
    SubmitKeepsBooks(u, hello);
    var v := Submit(u, hello);
    if ping.Some? {
      SubmitKeepsBooks(v, ping.value);
      TurnKeepsBooks(Submit(v, ping.value));
    } else {
      TurnKeepsBooks(v);
    }
  }

  // Cancelling one operation.

  /** What `exec_op` holds is an element of the queue as long as it waits without an error. */
  lemma {:induction false} WaitingIsQueued(s: Sys, id: nat)
    requires Books(s) && Holds(s, id) && id !in s.finished
    requires Find(s, id).IsWaiting() && Find(s, id).ec.None?
    ensures InQueue(s.mpx, id) && s.mpx.queue[IndexOf(s.mpx.queue, id)] == Find(s, id)
    ensures Count(s.mpx.queue, id) == 1
  {
    hide Count, StagedOnce, RepliesOk, WireBytes, Everyone, Find;
    var e := Find(s, id);
    InEveryone(s.mpx, e);
    forall d | d in s.mpx.gone ensures d.elem != e {
      assert GoneOk(d);
    }
    var j :| 0 <= j < |s.mpx.queue| && s.mpx.queue[j] == e;
    var f := s.mpx.queue[IndexOf(s.mpx.queue, id)];
    InEveryone(s.mpx, f);
    UniqueElem(s.mpx, e, f);
    QueueCount(s.mpx, j);
  }

  lemma {:induction false} QueueCount(s: Mpx, j: nat)
    requires Distinct(s) && j < |s.queue|
    ensures Count(s.queue, s.queue[j].id) == 1
  {
    CountHas(s.queue, j);
    CountAppend(s.queue, Elems(s.gone), s.queue[j].id);
    assert Count(Everyone(s), s.queue[j].id) <= 1;
  }

  lemma {:induction false} RemoveKeepsBooks(s: Sys, id: nat)
    requires Books(s) && InQueue(s.mpx, id)
    ensures Books(Finish(s.(mpx := Remove(s.mpx, id)), id))
  {
    hide Wf, Count, Everyone, Descends, StillWaiting, StagedOnce, RepliesOk, WireBytes, IndexOf;
    var m := Remove(s.mpx, id);
    RemoveKeeps(s.mpx, id);
    RemoveDescends(s.mpx, id);
    StagedOnceKept(s.mpx, m, None);
    RepliesKept(s.mpx, m, s.replies);
    SubmittedKept(s, Finish(s.(mpx := m), id), None);
  }

  lemma {:induction false} FinishKeepsBooks(s: Sys, id: nat)
    requires Books(s)
    ensures Books(Finish(s, id))
  {
    hide Ledger, StagedOnce, RepliesOk, WireBytes;
    assert Ledger(Finish(s, id)) by {
      assert Ledger(s);
      LedgerOf(s, Finish(s, id));
    }
  }

  lemma {:induction false} LedgerOf(s: Sys, t: Sys)
    requires t.mpx == s.mpx && t.nextId == s.nextId && Ledger(s)
    ensures Ledger(t)
  {
  }

  lemma {:induction false} CancelOneKeepsBooks(s: Sys, id: nat, terminal: bool)
    requires Books(s) && Holds(s, id) && id !in s.finished
    ensures Books(CancelOne(s, id, terminal)) && (CancelOne(s, id, terminal).broken ==> s.broken)
  {
    hide Books, Find, Remove, CancelOnConnLost, Everyone;
    var e := Find(s, id);
    if e.ec.Some? {
      FinishKeepsBooks(s, id);
    } else if e.IsWaiting() {
      WaitingIsQueued(s, id);
      RemoveKeepsBooks(s, id);
    } else if terminal {
      DropKeepsBooks(s);
      FinishKeepsBooks(Drop(s), id);
    }
  }

  // The coroutines: who is suspended where.

  predicate AllWaiting(q: seq<Elem>) {
    forall e :: e in q ==> e.IsWaiting()
  }

  predicate NoneWaiting(q: seq<Elem>) {
    forall e :: e in q ==> !e.IsWaiting()
  }

  /** A parked writer has an open connection and nothing to send. */
  predicate ParkedIdle(s: Sys) {
    && (s.writer.Parked? ==> s.open && NoneWaiting(s.mpx.queue))
    && (s.writer.Parked? || s.writer.Woken? ==> s.mpx.writeBuffer == [])
  }

  /** An open connection in use has its reader and was not yet given up; without one nothing is in flight. */
  predicate InStep(s: Sys) {
    && (s.open && (!s.writer.Off? || s.reader) ==> s.reader && !s.mpx.cancelCalled)
    && (s.mpx.cancelCalled || !s.reader ==> AllWaiting(s.mpx.queue))
  }

  predicate Control(s: Sys) {
    ParkedIdle(s) && InStep(s)
  }

  lemma {:induction false} ConnLostWaiting(s: Mpx)
    requires s.cancelCalled ==> AllWaiting(s.queue)
    ensures AllWaiting(CancelOnConnLost(s).queue) && CancelOnConnLost(s).cancelCalled
    ensures CancelOnConnLost(s).writeBuffer == s.writeBuffer
  {
    hide Select;
    if !s.cancelCalled {
      MapMembers(Select(s.queue, Survives), Requeue);
    }
  }

  lemma {:induction false} DropKeepsControl(s: Sys)
    requires InStep(s) && (s.writer.Parked? || s.writer.Woken? ==> s.mpx.writeBuffer == [])
    ensures Control(Drop(s)) && !Drop(s).open && Drop(s).mpx.cancelCalled && !Drop(s).writer.Parked?
    ensures Drop(s).reader == s.reader
  {
    hide CancelOnConnLost, AllWaiting;
    ConnLostWaiting(s.mpx);
  }

  lemma {:induction false} EnqueueKeepsControl(s: Sys, req: Req)
    requires Control(s)
    ensures Control(Enqueue(s, req))
  {
    hide Insert, Everyone;
    AddDescends(s.mpx, MakeElem(s.nextId, req));
  }

  lemma {:induction false} TurnKeepsControl(s: Sys)
    requires Shape(s.mpx.queue) && s.mpx.writeBuffer == [] && s.reader && !s.mpx.cancelCalled
    requires s.open || s.mpx.queue[Lead(s.mpx.queue)..] != []
    ensures Control(WriterTurn(s))
  {
    hide Lead, Shape, MapElems, Payloads, CommandCount, Stagings, Asked, Descends;
    PrepareDescends(s.mpx);
    if s.mpx.queue[Lead(s.mpx.queue)..] == [] {
      NothingStaged(s.mpx);
    }
  }

  lemma {:induction false} NothingStaged(s: Mpx)
    requires s.queue[Lead(s.queue)..] == []
    ensures PrepareWrite(s).writeBuffer == s.writeBuffer
  {
    assert Payloads([]) == [];
  }

  lemma {:induction false} CommitWriteWaiting(s: Mpx)
    ensures AllWaiting(s.queue) ==> AllWaiting(CommitWrite(s).queue)
    ensures NoneWaiting(s.queue) ==> NoneWaiting(CommitWrite(s).queue)
  {
    hide Select;
    var q := MapElems(s.queue, MarkWritten);
    MapMembers(s.queue, MarkWritten);
    SelectMembers(q, IsRetained);
  }

  lemma {:induction false} WriteDoneKeepsControl(s: Sys)
    requires Control(s) && Wf(s.mpx) && s.writer.Writing?
    ensures Control(Next(s, WriteDone))
  {
    hide WriterTurn, Wf, CommitWrite;
    var m := CommitWrite(s.mpx);
    CommitWriteWaiting(s.mpx);
    CommitWriteKeeps(s.mpx);
    WriteEnds(s.mpx);
    if s.open {
      ShapeOf(m);
      TurnKeepsControl(s.(mpx := m));
    }
  }

  lemma {:induction false} WriteEnds(s: Mpx)
    ensures CommitWrite(s).writeBuffer == [] && CommitWrite(s).cancelCalled == s.cancelCalled
  {
    hide Select, MapElems, Depart;
  }

  lemma {:induction false} ShapeOf(s: Mpx)
    requires Wf(s)
    ensures Shape(s.queue)
  {
  }

  lemma {:induction false} CancelWaitingLeaves(s: Mpx)
    ensures NoneWaiting(CancelWaiting(s).queue)
    ensures AllWaiting(s.queue) ==> CancelWaiting(s).queue == []
  {
    hide Select;
    SelectMembers(s.queue, IsActive);
    if AllWaiting(s.queue) {
      SelectNone(s.queue, IsActive);
    }
  }

  lemma {:induction false} ReadKeepsStatus(s: Mpx, fault: Option<Parser.Fault>)
    requires CanRead(s)
    ensures NoneWaiting(s.queue) ==> NoneWaiting(CommitRead(s, fault).mpx.queue)
    ensures CommitRead(s, fault).mpx.writeBuffer == s.writeBuffer
    ensures CommitRead(s, fault).mpx.cancelCalled == s.cancelCalled
  {
    hide Parser.Parse, Deliver;
    var t := CommitRead(s, fault).mpx;
    forall e | e in t.queue && NoneWaiting(s.queue) ensures !e.IsWaiting() {
      var i :| 0 <= i < |t.queue| && t.queue[i] == e;
      assert s.queue[i] in s.queue && s.queue[|s.queue| - |t.queue| + i] in s.queue;
    }
  }

  lemma {:induction false} ReadKeepsControl(s: Sys, fault: Option<Parser.Fault>)
    requires Control(s) && Enabled(s, ReadMessage(fault))
    ensures Control(TakeRead(s, fault))
  {
    hide CommitRead, AllWaiting, NoneWaiting;
    var r := CommitRead(s.mpx, fault);
    ReadKeepsStatus(s.mpx, fault);
    if r.read.Failure? {
      var u := s.(mpx := r.mpx);
      DropReader(u);
    }
  }

  /** The reader gives up. */
  lemma {:induction false} DropReader(s: Sys)
    requires Control(s)
    ensures Control(Drop(s.(reader := false))) && Drop(s.(reader := false)) == Drop(s).(reader := false)
  {
    hide CancelOnConnLost, AllWaiting;
    DropKeepsControl(s);
    ConnLostWaiting(s.mpx);
  }

  lemma {:induction false} RemoveKeepsStatus(s: Mpx, id: nat)
    requires InQueue(s, id)
    ensures forall e :: e in Remove(s, id).queue ==> e in s.queue
    ensures Remove(s, id).writeBuffer == s.writeBuffer && Remove(s, id).cancelCalled == s.cancelCalled
  {
  }

  lemma {:induction false} CancelOneKeepsControl(s: Sys, id: nat, terminal: bool)
    requires Control(s) && Holds(s, id)
    ensures Control(CancelOne(s, id, terminal))
  {
    hide Find, Drop, Remove, InQueue;
    if InQueue(s.mpx, id) {
      RemoveKeepsStatus(s.mpx, id);
    }
    DropKeepsControl(s);
  }

  // Starting on a new connection.

  lemma {:induction false} NoLead(q: seq<Elem>)
    requires AllWaiting(q)
    ensures Lead(q) == 0
  {
    assert q != [] ==> q[0] in q;
  }

  /** The handshake goes first.  Whatever survived the last connection, and whatever was added since, the
      first bytes written are those of HELLO; then come all the others, in the order of the queue. */
  lemma {:induction false} HelloFirst(s: Sys, hello: Req, ping: Option<Req>)
    requires InStep(s) && Enabled(s, Launch(hello, ping))
    ensures
      var t := Start(s, hello, ping);
      var tail := if ping.Some? then ping.value.payload else [];
      && t.writer.Writing? && t.reader && t.open == s.open && !t.mpx.cancelCalled
      && t.mpx.writeBuffer == hello.payload + Payloads(s.mpx.queue) + tail
      && t.mpx.queue != [] && t.mpx.queue[0] == MakeElem(s.nextId, hello).Mark(Staged)
  {
    hide Payloads, CommandCount, Asked;
    var h := MakeElem(s.nextId, hello);
    var m := Reset(s.mpx);
    NoLead(s.mpx.queue);
    var q := [h] + s.mpx.queue;
    assert Insert(s.mpx.queue, h) == q;
    var e := if ping.Some? then [MakeElem(s.nextId + 1, ping.value)] else [];
    var all := q + e;
    assert AllWaiting(all);
    NoLead(all);
    assert all[0..] == all;
    HelloPayloads(h, s.mpx.queue, e);
    assert [] + Payloads(all) == Payloads(all);
    if ping.None? {
      assert all == q;
    }
  }

  lemma {:induction false} PayloadsAppend(a: seq<Elem>, b: seq<Elem>)
    ensures Payloads(a + b) == Payloads(a) + Payloads(b)
  {
    if b == [] {
      assert a + b == a;
    } else {
      assert (a + b)[..|a + b| - 1] == a + b[..|b| - 1];
      PayloadsAppend(a, b[..|b| - 1]);
    }
  }

  lemma {:induction false} HelloPayloads(h: Elem, q: seq<Elem>, e: seq<Elem>)
    requires |e| <= 1
    ensures
      Payloads([h] + q + e) == h.req.payload + Payloads(q) + if e == [] then [] else e[0].req.payload
  {
    PayloadsAppend([h] + q, e);
    PayloadsAppend([h], q);
    assert [h][..0] == [];
    assert e != [] ==> e[..0] == [];
  }
}
