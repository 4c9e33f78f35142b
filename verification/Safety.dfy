/** The theorems about whole runs. */
module Safety {
  import opened Bytes
  import opened MultiplexerSpec
  import opened Queues
  import opened Invariants
  import opened Correlation
  import opened Histories
  import opened ConnectionSpec
  import opened Runs

  ghost predicate Inv(s: Sys) {
    Books(s) && Control(s) && !s.broken
  }

  lemma {:induction false} InitInv()
    ensures Inv(INIT)
  {
    assert Everyone(EMPTY) == [];
  }

  lemma {:induction false} SameBooks(s: Sys, t: Sys)
    requires Books(s) && t.mpx == s.mpx && t.nextId == s.nextId && t.replies == s.replies
    requires t.finished == s.finished && t.base == s.base && t.appended == s.appended && t.submitted == s.submitted
    ensures Books(t)
  {
    hide Wf, StagedOnce, RepliesOk;
  }

  lemma {:induction false} WokenIsIdle(s: Sys)
    requires Control(s) && s.writer.Woken?
    ensures s.mpx.writeBuffer == []
  {
  }

  /** The assertions of the source about the queue never fail, and `remove` always finds its element. */
  lemma {:induction false} StaysSound(s: Sys, ev: Event)
    requires Books(s) && Enabled(s, ev)
    ensures Next(s, ev).broken ==> s.broken
  {
    hide Books, Add, Reset, PrepareWrite, CommitWrite, CancelWaiting, CancelOnConnLost, CommitRead, CanRead;
    hide CancelOne, Asked, Find;
    if ev.ExecCancelled? {
      CancelOneKeepsBooks(s, ev.id, ev.terminal);
    }
  }

  lemma {:induction false} StepKeepsBooks(s: Sys, ev: Event)
    requires Inv(s) && Enabled(s, ev)
    ensures Books(Next(s, ev))
  {
    hide Books, Submit, Start, WriterTurn, Drop, TakeRead, CancelOne, CommitWrite, CancelWaiting, Control;
    hide Finish, Find, CommitRead, CanRead;
    match ev {
      case Exec(req) => SubmitKeepsBooks(s, req);
      case Launch(hello, ping) => StartKeepsBooks(s, hello, ping);
      case WriteDone =>
        CommitWriteKeepsBooks(s);
        WriteEnds(s.mpx);
        TurnKeepsBooks(s.(mpx := CommitWrite(s.mpx)));
        SameBooks(s.(mpx := CommitWrite(s.mpx)), s.(mpx := CommitWrite(s.mpx), writer := Off));
      case WriteFailed =>
        DropKeepsBooks(s);
        SameBooks(Drop(s), Drop(s).(writer := Off));
      case TimerFired =>
        WokenIsIdle(s);
        TurnKeepsBooks(s);
        SameBooks(s, s.(writer := Off));
      case Receive(data) => ReceiveKeepsBooks(s, data);
      case ReadMessage(fault) => ReadKeepsBooks(s, fault);
      case ReadFailed =>
        DropKeepsBooks(s);
        SameBooks(Drop(s), Drop(s).(reader := false));
      case CancelRun => DropKeepsBooks(s);
      case CancelExec => CancelExecKeepsBooks(s);
      case ExecCancelled(id, terminal) => CancelOneKeepsBooks(s, id, terminal);
      case ExecFinished(id) => FinishKeepsBooks(s, id);
      case Connected => SameBooks(s, s.(open := true));
      case Disconnected => SameBooks(s, s.(open := false));
      case Wake => SameBooks(s, CancelTimer(s));
      case ReaderQuits => SameBooks(s, s.(reader := false));
    }
  }

  lemma {:induction false} StepKeepsControl(s: Sys, ev: Event)
    requires Inv(s) && Enabled(s, ev)
    ensures Control(Next(s, ev))
  {
    hide Books, Start, WriterTurn, Drop, TakeRead, CancelOne, CommitWrite, CancelWaiting, Find, CommitRead;
    hide CanRead, Enqueue;
    match ev {
      case Exec(req) => EnqueueKeepsControl(s, req);
      case Launch(hello, ping) =>
        HelloFirst(s, hello, ping);
      case WriteDone =>
        WfOf(s);
        WriteDoneKeepsControl(s);
      case WriteFailed => DropKeepsControl(s);
      case TimerFired =>
        WfOf(s);
        ShapeOf(s.mpx);
        if s.open {
          TurnKeepsControl(s);
        }
      case ReadMessage(fault) => ReadKeepsControl(s, fault);
      case ReadFailed => DropReader(s);
      case CancelRun => DropKeepsControl(s);
      case CancelExec =>
        CancelWaitingLeaves(s.mpx);
        CancelWaitingKeepsBuffer(s.mpx);
      case ExecCancelled(id, terminal) => CancelOneKeepsControl(s, id, terminal);
      case _ =>
    }
  }

  lemma {:induction false} WfOf(s: Sys)
    requires Books(s)
    ensures Wf(s.mpx)
  {
    hide Wf, Logs;
  }

  lemma {:induction false} CancelWaitingKeepsBuffer(s: Mpx)
    ensures CancelWaiting(s).writeBuffer == s.writeBuffer && CancelWaiting(s).cancelCalled == s.cancelCalled
  {
    hide Select, MapElems, Depart;
  }

  lemma {:induction false} RunKeepsInv(s: Sys, evs: seq<Event>)
    requires Inv(s) && IsRun(s, evs)
    ensures Inv(After(s, evs))
    decreases |evs|
  {
    hide Books, Control, Next, Enabled;
    if evs != [] {
      StepKeepsBooks(s, evs[0]);
      StepKeepsControl(s, evs[0]);
      StaysSound(s, evs[0]);
      RunKeepsInv(Next(s, evs[0]), evs[1..]);
    }
  }

  // The theorems.

  /** No lost wake-up: whenever the writer is parked with no wake under way, the connection is open, the
      write buffer is empty and no request waits. */
  lemma {:induction false} NoLostWakeUp(evs: seq<Event>)
    requires IsRun(INIT, evs)
    ensures
      var s := After(INIT, evs);
      s.writer.Parked? ==> s.open && s.mpx.writeBuffer == [] && NoneWaiting(s.mpx.queue)
  {
    hide Books, Next, Enabled, After, IsRun;
    InitInv();
    RunKeepsInv(INIT, evs);
  }

  /** At-most-once staging: over any number of connections, a request that is not to be repeated has its
      payload put into the write buffer at most once; and the bytes put there are exactly the logged ones. */
  lemma {:induction false} AtMostOnce(evs: seq<Event>)
    requires IsRun(INIT, evs)
    ensures
      var s := After(INIT, evs).mpx;
      && (forall e :: e in Everyone(s) && e.req.cfg.cancelIfUnresponded ==> StagedCount(s.staged, e.id) <= 1)
      && s.usage.bytesSent == |WireBytes(s.staged)|
  {
    hide Wf, Control, Next, Enabled, After, IsRun, StagedCount, WireBytes;
    InitInv();
    RunKeepsInv(INIT, evs);
    var s := After(INIT, evs).mpx;
    forall e | e in Everyone(s) && e.req.cfg.cancelIfUnresponded ensures StagedCount(s.staged, e.id) <= 1 {
      assert OneShot(e);
    }
  }

  /** Conservation: every request ever added is in the queue or left it, once; its exit says what became of
      it; and a success was signalled once, after one complete reply for every index, in order. */
  lemma {:induction false} Conservation(evs: seq<Event>)
    requires IsRun(INIT, evs)
    ensures
      var s := After(INIT, evs);
      && !s.broken
      && (forall id: nat ::
            Count(s.mpx.queue, id) + Count(Elems(s.mpx.gone), id) == if id < s.nextId then 1 else 0)
      && (forall e :: e in s.mpx.queue ==> QueuedOk(e))
      && (forall d :: d in s.mpx.gone ==> GoneOk(d))
      && (forall e :: e in Everyone(s.mpx) && e.IsWaiting() && e.ec.None? && Departure(e, Removed) !in s.mpx.gone ==>
            e in s.mpx.queue)
      && (forall d :: d in s.mpx.gone && d.exit.Completed? ==>
            CountsUp(Indices(s.replies, d.elem.id), d.elem.req.expected))
  {
    hide Wf, Control, Next, Enabled, After, IsRun, Count, Indices, StagedOnce, WireBytes, Everyone;
    InitInv();
    RunKeepsInv(INIT, evs);
    var s := After(INIT, evs);
    forall id: nat
      ensures Count(s.mpx.queue, id) + Count(Elems(s.mpx.gone), id) == if id < s.nextId then 1 else 0
    {
      EveryoneCount(s.mpx, id);
    }
    GoneIsOk(s.mpx);
    forall e | e in Everyone(s.mpx) && e.IsWaiting() && e.ec.None? && Departure(e, Removed) !in s.mpx.gone
      ensures e in s.mpx.queue
    {
      InEveryone(s.mpx, e);
      forall d | d in s.mpx.gone ensures d.elem != e {
        assert GoneOk(d) && d == Departure(d.elem, d.exit);
      }
    }
    forall d | d in s.mpx.gone && d.exit.Completed?
      ensures CountsUp(Indices(s.replies, d.elem.id), d.elem.req.expected)
    {
      InEveryone(s.mpx, d.elem);
      assert GoneOk(d);
    }
  }

  lemma {:induction false} EveryoneCount(s: Mpx, id: nat)
    ensures Count(Everyone(s), id) == Count(s.queue, id) + Count(Elems(s.gone), id)
  {
    CountAppend(s.queue, Elems(s.gone), id);
  }

  lemma {:induction false} GoneIsOk(s: Mpx)
    requires Wf(s)
    ensures AllGoneOk(s.gone) && AllQueuedOk(s.queue) && Shape(s.queue) && UsageOk(s)
  {
  }

  /** The shape of the queue, in every reachable state: written, then staged, then waiting. */
  lemma {:induction false} QueueShape(evs: seq<Event>)
    requires IsRun(INIT, evs)
    ensures
      var q := After(INIT, evs).mpx.queue;
      && Shape(q)
      && forall i :: 0 <= i < |q| ==> (i < Lead(q) <==> !q[i].IsWaiting())
  {
    hide Wf, Control, Next, Enabled, After, IsRun, Logs, Shape;
    InitInv();
    RunKeepsInv(INIT, evs);
    GoneIsOk(After(INIT, evs).mpx);
    LeadIs(After(INIT, evs).mpx.queue);
  }

  /** Usage: replies and their bytes are the sums over all requests, and every byte received on this
      connection was consumed by a message or is still in the read buffer. */
  lemma {:induction false} UsageConservation(evs: seq<Event>)
    requires IsRun(INIT, evs)
    ensures
      var s := After(INIT, evs);
      && s.mpx.usage.responseBytes == Sum(Everyone(s.mpx), ReadSizeOf)
      && s.mpx.usage.responsesReceived == Sum(Everyone(s.mpx), AnsweredOf)
      && s.mpx.usage.responseBytes + s.mpx.usage.pushBytes - s.base + |s.mpx.readBuffer| == s.appended
  {
    hide Wf, Control, Next, Enabled, After, IsRun, StagedOnce, RepliesOk, WireBytes;
    InitInv();
    RunKeepsInv(INIT, evs);
    GoneIsOk(After(INIT, evs).mpx);
  }

  // The write buffer belongs to the write in progress.

  lemma {:induction false} BufferStays(s: Sys, ev: Event)
    requires s.writer.Writing? && Enabled(s, ev) && !ev.WriteDone? && !ev.WriteFailed?
    ensures Next(s, ev).writer.Writing? && Next(s, ev).mpx.writeBuffer == s.mpx.writeBuffer
  {
    hide CommitRead, CanRead, Find, CancelWaiting, CancelOnConnLost, Remove, InQueue, Insert;
    ConnLostKeepsBuffer(s.mpx);
    CancelWaitingKeepsBuffer(s.mpx);
    match ev {
      case ReadMessage(fault) =>
        ReadKeepsStatus(s.mpx, fault);
        ConnLostKeepsBuffer(CommitRead(s.mpx, fault).mpx);
      case ExecCancelled(id, _) =>
        if InQueue(s.mpx, id) {
          RemoveKeepsStatus(s.mpx, id);
        }
      case _ =>
    }
  }

  lemma {:induction false} ConnLostKeepsBuffer(s: Mpx)
    ensures CancelOnConnLost(s).writeBuffer == s.writeBuffer
  {
    hide Select, MapElems, Depart;
  }

  /** The memory an asynchronous write reads from does not change until that write completes. */
  lemma {:induction false} WriteBufferIsStable(s: Sys, evs: seq<Event>)
    requires s.writer.Writing? && IsRun(s, evs)
    requires forall ev :: ev in evs ==> !ev.WriteDone? && !ev.WriteFailed?
    ensures After(s, evs).writer.Writing? && After(s, evs).mpx.writeBuffer == s.mpx.writeBuffer
    decreases |evs|
  {
    hide Next, Enabled;
    if evs != [] {
      BufferStays(s, evs[0]);
      WriteBufferIsStable(Next(s, evs[0]), evs[1..]);
    }
  }
}
