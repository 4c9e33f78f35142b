/** The connection object: the coroutines' steps as methods on the shared multiplexer. */
module Connection {
  import opened Bytes
  import opened Resp3
  import S = MultiplexerSpec
  import M = Multiplexer
  import P = ParserSpec
  import opened Queues
  import opened Invariants
  import opened Correlation
  import C = ConnectionSpec
  import opened Runs
  import opened Safety
  import opened Histories

  class Connection {
    const mpx: M.Multiplexer
    var open: bool
    var writer: C.Writer
    var reader: bool
    var nextId: nat

    /** The logs of the machine; its other fields are those of this object. */
    ghost var logs: C.Sys

    /** The elements this connection made, each shared with the operation that waits for it. */
    ghost var members: set<M.Elem>

    ghost function View(): (s: C.Sys)
      requires mpx.parser.Valid()
      reads this, mpx, mpx.reqs, mpx.parser, mpx.parser.sizes
    {
      logs.(mpx := mpx.View(), open := open, writer := writer, reader := reader, nextId := nextId)
    }

    /** Every element made is in the queue, or left it and has not changed since. */
    ghost predicate Registered()
      reads this, mpx, members
    {
      M.Known(members, mpx.reqs, mpx.gone)
    }

    ghost predicate Valid()
      reads this, mpx, mpx.reqs, mpx.parser, mpx.parser.sizes, members
    {
      mpx.Valid() && Inv(View()) && Registered()
    }

    constructor ()
      ensures Valid() && View() == C.INIT && members == {}
    {
      mpx := new M.Multiplexer();
      open, writer, reader, nextId := false, C.Off, false, 0;
      logs, members := C.INIT, {};
      new;
      hide Inv, Wf, M.Multiplexer.View;
      InitInv();
    }

    /** `trigger_write`. */
    predicate TriggerWrite()
      requires mpx.parser.Valid()
      reads this, mpx, mpx.reqs, mpx.parser, mpx.parser.sizes
      ensures TriggerWrite() == (View().open && View().mpx.writeBuffer == [])
    {
      open && mpx.writeBuffer == []
    }

    /** `writer_timer_.cancel()`. */
    method CancelTimer()
      requires mpx.Valid()
      modifies this`writer
      ensures View() == C.CancelTimer(old(View()))
    {
      hide Wf, M.Multiplexer.View;
      if writer.Parked? {
        writer := C.Woken;
      }
    }

    /** A new element is put into the queue. */
    method AddNew(req: S.Req) returns (e: M.Elem)
      requires mpx.Valid() && Registered() && Count(Everyone(mpx.View()), nextId) == 0
      modifies this`members, mpx`reqs
      ensures mpx.Valid() && mpx.View() == S.Add(old(mpx.View()), S.MakeElem(nextId, req))
      ensures Registered() && fresh(e) && e.id == nextId && members == old(members) + {e}
      ensures forall x :: x in mpx.reqs ==> x in old(mpx.reqs) || fresh(x)
    {
      hide Wf, Count, S.Add, M.Multiplexer.View, Everyone, M.Known;
      ghost var s := mpx.View();
      e := new M.Elem(nextId, req);
      assert mpx.View() == s;
      mpx.Add(e);
      M.JoinKnown(members, old(mpx.reqs), mpx.reqs, mpx.gone, e);
      members := members + {e};
    }

    /** Adds an element and wakes the writer if there is no write in progress. */
    method Enqueue(req: S.Req) returns (e: M.Elem)
      requires mpx.Valid() && Registered() && Unused(View())
      modifies this`writer, this`nextId, this`logs, this`members, mpx`reqs
      ensures mpx.Valid() && View() == C.Enqueue(old(View()), req) && Unused(View())
      ensures Registered() && fresh(e) && e.id == old(nextId) && members == old(members) + {e}
      ensures forall x :: x in mpx.reqs ==> x in old(mpx.reqs) || fresh(x)
    {
      hide Wf, Count, S.Insert, M.Multiplexer.View, Everyone, Unused, M.Known;
      EnqueueUnused(View(), req);
      e := AddNew(req);
      logs := logs.(submitted := logs.submitted + {req});
      nextId := nextId + 1;
      if TriggerWrite() {
        CancelTimer();
      }
    }

    /** The top of the writer's loop. */
    method WriterTurn()
      requires mpx.Valid() && Registered()
      modifies this`writer, this`logs, mpx, mpx.reqs
      ensures mpx.Valid() && View() == C.WriterTurn(old(View()))
      ensures Registered()
    {
      hide Wf, S.PrepareWrite, S.Lead, M.Multiplexer.View, Asked, M.Settled, M.Leavers;
      ghost var s := View();
      logs := logs.(asked := logs.asked + Asked(s.mpx.queue[S.Lead(s.mpx.queue)..]));
      var n := mpx.PrepareWrite();
      writer := if n == 0 then C.Parked else C.Writing;
      M.NobodyLeaves(mpx.reqs, mpx.gone);
      M.StayKnown(members, mpx.reqs, mpx.reqs, mpx.gone, mpx.gone);
    }

    /** `cancel_run`. */
    method CancelRun()
      requires mpx.Valid() && Registered()
      modifies this`open, this`writer, mpx, mpx.reqs
      ensures mpx.Valid() && View() == C.Drop(old(View()))
      ensures Registered()
    {
      hide Wf, S.CancelOnConnLost, M.Multiplexer.View, M.Settled, M.Leavers;
      open := false;
      CancelTimer();
      var _ := mpx.CancelOnConnLost();
      M.StayKnown(members, old(mpx.reqs), mpx.reqs, old(mpx.gone), mpx.gone);
    }

    /** `exec_op` up to its suspension. */
    method Exec(req: S.Req) returns (e: Option<M.Elem>)
      requires Valid()
      modifies this`writer, this`nextId, this`logs, this`members, mpx`reqs
      ensures mpx.Valid() && View() == C.Submit(old(View()), req)
      ensures Valid()
      ensures e.None? <==> req.cfg.cancelIfNotConnected && !old(open)
      ensures e.Some? ==> fresh(e.value) && e.value.id == old(nextId) && members == old(members) + {e.value}
      ensures e.None? ==> members == old(members)
    {
      hide Inv, Wf, M.Multiplexer.View, C.Enqueue, Unused;
      ghost var s := View();
      StepKeepsInv(s, C.Exec(req));
      if req.cfg.cancelIfNotConnected && !open {
        return None;
      }
      NextIsUnused(s);
      var x := Enqueue(req);
      e := Some(x);
    }

    /** The transport is up. */
    method Connected()
      requires Valid() && writer.Off? && !reader
      modifies this`open
      ensures mpx.Valid() && View() == old(View()).(open := true)
      ensures Valid()
    {
      hide Inv, Wf, M.Multiplexer.View;
      StepKeepsInv(View(), C.Connected);
      open := true;
    }

    /** The transport is replaced, or could not be made, between two launches. */
    method Disconnected()
      requires Valid() && writer.Off? && !reader
      modifies this`open
      ensures mpx.Valid() && View() == old(View()).(open := false)
      ensures Valid()
    {
      hide Inv, Wf, M.Multiplexer.View;
      StepKeepsInv(View(), C.Disconnected);
      open := false;
    }

    /** `run_op` once the transport is up: `reset`, HELLO, then the first ping. */
    method Greet(hello: S.Req, ping: Option<S.Req>)
      requires mpx.Valid() && Registered() && Unused(View())
      requires !hello.cfg.cancelIfNotConnected && (ping.Some? ==> !ping.value.cfg.cancelIfNotConnected)
      modifies this, mpx, mpx.parser, mpx.parser.sizes
      ensures mpx.Valid() && View() == C.Greet(old(View()), hello, ping)
      ensures Registered() && old(members) <= members
      ensures forall x :: x in mpx.reqs ==> x in old(mpx.reqs) || fresh(x)
    {
      hide Wf, M.Multiplexer.View, C.Enqueue, Unused, S.Reset, M.Known;
      ghost var s := View();
      mpx.Reset();
      logs := logs.(asked := [], answered := [], appended := 0,
                    base := s.mpx.usage.responseBytes + s.mpx.usage.pushBytes);
      reader := true;
      ResetUnused(s, View());
      var _ := Enqueue(hello);
      if ping.Some? {
        var _ := Enqueue(ping.value);
      }
    }

    /** Then the reader and the writer are launched. */
    method Launch(hello: S.Req, ping: Option<S.Req>)
      requires Valid() && C.Enabled(View(), C.Launch(hello, ping))
      modifies this, mpx, mpx.reqs, mpx.parser, mpx.parser.sizes
      ensures mpx.Valid() && View() == C.Start(old(View()), hello, ping)
      ensures Valid() && old(members) <= members
    {
      hide Inv, Wf, M.Multiplexer.View, C.WriterTurn, C.Greet, Unused;
      StepKeepsInv(View(), C.Launch(hello, ping));
      NextIsUnused(View());
      Greet(hello, ping);
      assert forall i :: 0 <= i < |mpx.reqs| ==> mpx.reqs[i] in old(mpx.reqs) || fresh(mpx.reqs[i]);
      WriterTurn();
    }

    /** `writer_op` resumed by the completion of a write. */
    method WriteCompleted(ok: bool)
      requires Valid() && writer.Writing?
      modifies this`open, this`writer, this`logs, mpx, mpx.reqs
      ensures mpx.Valid() && View() == C.WriteOver(old(View()), ok)
      ensures Valid()
    {
      hide Inv, Wf, M.Multiplexer.View, C.WriterTurn, S.CommitWrite, C.Drop, M.Settled, M.Leavers;
      StepKeepsInv(View(), if ok then C.WriteDone else C.WriteFailed);
      if !ok {
        CancelRun();
        writer := C.Off;
        return;
      }
      var _ := mpx.CommitWrite();
      M.StayKnown(members, old(mpx.reqs), mpx.reqs, old(mpx.gone), mpx.gone);
      assert forall i :: 0 <= i < |mpx.reqs| ==> mpx.reqs[i] in old(mpx.reqs);
      if !open {
        writer := C.Off;
        return;
      }
      WriterTurn();
    }

    /** `writer_op` resumed by its timer. */
    method TimerFired()
      requires Valid() && writer.Woken?
      modifies this`writer, this`logs, mpx, mpx.reqs
      ensures mpx.Valid() && View() == C.TimerOver(old(View()))
      ensures Valid()
    {
      hide Inv, Wf, M.Multiplexer.View, C.WriterTurn;
      StepKeepsInv(View(), C.TimerFired);
      if !open {
        writer := C.Off;
        return;
      }
      WriterTurn();
    }

    /** The socket delivers bytes into the read buffer. */
    method Receive(data: bytes)
      requires Valid() && reader && |mpx.readBuffer| + |data| < C.MAX_STRING
      modifies this`logs, mpx
      ensures mpx.Valid() && View() == C.Received(old(View()), data)
      ensures Valid()
    {
      hide Inv, Wf, M.Multiplexer.View;
      mpx.Fields();
      StepKeepsInv(View(), C.Receive(data));
      mpx.Append(data);
      logs := logs.(appended := logs.appended + |data|);
    }

    /** `reader_op` around one `commit_read`. */
    method ReadMessage(fault: Option<P.Fault>) returns (r: S.Read)
      requires Valid() && reader && open
      requires S.CanRead(View().mpx) && !S.CommitRead(View().mpx, fault).read.Crash?
      modifies this`open, this`writer, this`reader, this`logs, mpx, mpx.reqs, mpx.parser, mpx.parser.sizes
      ensures r == S.CommitRead(old(View()).mpx, fault).read
      ensures mpx.Valid() && View() == C.TakeRead(old(View()), fault)
      ensures Valid()
    {
      hide Inv, Wf, M.Multiplexer.View, C.Drop, S.CommitRead, S.CanRead, C.TakeRead, M.Settled, M.Leavers;
      ghost var s := View();
      StepKeepsInv(s, C.ReadMessage(fault));
      ReadCases(s, fault);
      mpx.Fields();
      r := mpx.CommitRead(fault);
      M.StayKnown(members, old(mpx.reqs), mpx.reqs, old(mpx.gone), mpx.gone);
      if r.Failure? {
        reader := false;
        CancelRun();
      } else if r.Message? && !r.push {
        Answer(Slot(s.mpx.queue[0].id, s.mpx.queue[0].Index()));
      }
    }

    /** A reply is complete. */
    ghost method Answer(slot: Slot)
      requires mpx.Valid()
      modifies this`logs
      ensures View() == old(View()).(answered := old(View()).answered + [slot], replies := old(View()).replies + [slot])
    {
      hide Wf, M.Multiplexer.View;
      logs := logs.(answered := logs.answered + [slot], replies := logs.replies + [slot]);
    }

    /** `reader_op` resumed by a failed read. */
    method ReadFailed()
      requires Valid() && reader
      modifies this`open, this`writer, this`reader, mpx, mpx.reqs
      ensures mpx.Valid() && View() == C.Drop(old(View())).(reader := false)
      ensures Valid()
    {
      hide Inv, Wf, M.Multiplexer.View, C.Drop;
      StepKeepsInv(View(), C.ReadFailed);
      CancelRun();
      reader := false;
    }

    /** `reader_op` finds the connection closed. */
    method ReaderQuits()
      requires Valid() && reader && !open && mpx.cancelRunCalled
      modifies this`reader
      ensures mpx.Valid() && View() == old(View()).(reader := false)
      ensures Valid()
    {
      hide Inv, Wf, M.Multiplexer.View;
      mpx.Fields();
      StepKeepsInv(View(), C.ReaderQuits);
      reader := false;
    }

    /** `cancel(operation::run)`. */
    method Cancel()
      requires Valid()
      modifies this`open, this`writer, mpx, mpx.reqs
      ensures mpx.Valid() && View() == C.Drop(old(View()))
      ensures Valid()
    {
      hide Inv, Wf, M.Multiplexer.View, C.Drop;
      StepKeepsInv(View(), C.CancelRun);
      CancelRun();
    }

    /** `cancel(operation::exec)`. */
    method CancelExec()
      requires Valid()
      modifies mpx, mpx.reqs
      ensures mpx.Valid() && View() == old(View()).(mpx := S.CancelWaiting(old(View()).mpx))
      ensures Valid()
    {
      hide Inv, Wf, M.Multiplexer.View, S.CancelWaiting, M.Settled, M.Leavers;
      StepKeepsInv(View(), C.CancelExec);
      var _ := mpx.CancelWaiting();
      M.StayKnown(members, old(mpx.reqs), mpx.reqs, old(mpx.gone), mpx.gone);
    }

    /** The element an operation holds is the one the machine knows by its id, queued or gone. */
    lemma {:induction false} Shared(e: M.Elem)
      requires Valid() && e in members
      ensures C.Holds(View(), e.id) && C.Find(View(), e.id) == e.View()
      ensures S.InQueue(View().mpx, e.id) ==> e in mpx.reqs
    {
      hide Inv, Wf, C.Find, S.InQueue, Everyone;
      var s := mpx.View();
      if e in mpx.reqs {
        var i :| 0 <= i < |mpx.reqs| && mpx.reqs[i] == e;
        assert s.queue[i] == e.View();
        KnownInQueue(View(), i);
      } else {
        assert e in M.Without(members, mpx.reqs);
        KnownGone(View(), e.View());
      }
    }

    /** `exec_op` resumed by a cancellation, with the element it shares with the queue.  An element that
        waits without an error is in the queue, so that `remove` finds it.  The result is what the operation
        completes with, if it does. */
    method ExecCancelled(e: M.Elem, terminal: bool) returns (done: Option<Error>)
      requires Valid() && e in members && e.id !in logs.finished
      modifies this`open, this`writer, this`logs, mpx, mpx.reqs
      ensures C.Holds(old(View()), e.id) && mpx.Valid()
      ensures View() == C.CancelOne(old(View()), e.id, terminal)
      ensures Valid()
      ensures done.Some? <==> e.id in logs.finished
      ensures done.Some? ==> done == if old(e.ec).Some? then old(e.ec) else Some(OperationAborted)
    {
      hide Inv, Wf, M.Multiplexer.View, C.Drop, S.Remove, C.Find, S.InQueue, C.Holds, M.Settled, M.Leavers;
      ghost var s := View();
      Shared(e);
      StepKeepsInv(s, C.ExecCancelled(e.id, terminal));
      QueuedWhileWaiting(s, e.id);
      CancelCases(s, e.id, terminal);
      done := e.ec;
      if e.ec.None? {
        var removed := mpx.Remove(e);
        M.StayKnown(members, old(mpx.reqs), mpx.reqs, old(mpx.gone), mpx.gone);
        if !removed && !terminal {
          return None;
        }
        if !removed {
          CancelRun();
        }
        done := Some(OperationAborted);
      }
      Complete(e.id);
    }

    /** `exec_op` resumed by the notification of its element. */
    method ExecFinished(e: M.Elem) returns (ec: Option<Error>, size: nat)
      requires Valid() && e in members && e.id !in logs.finished && e.notified > 0
      modifies this`logs
      ensures mpx.Valid() && View() == C.Finish(old(View()), e.id)
      ensures Valid()
      ensures C.Holds(View(), e.id) && ec == C.Find(View(), e.id).ec
      ensures size == if ec.Some? then 0 else C.Find(View(), e.id).readSize
    {
      hide Inv, Wf, M.Multiplexer.View, C.Find, S.InQueue, C.Holds, M.Known;
      Shared(e);
      StepKeepsInv(View(), C.ExecFinished(e.id));
      Complete(e.id);
      Shared(e);
      ec, size := e.ec, if e.ec.Some? then 0 else e.readSize;
    }

    /** The operation completes towards its caller. */
    ghost method Complete(id: nat)
      requires mpx.Valid()
      modifies this`logs
      ensures View() == C.Finish(old(View()), id)
    {
      hide Wf, M.Multiplexer.View;
      logs := logs.(finished := logs.finished + {id});
    }
  }

  lemma {:induction false} StepKeepsInv(s: C.Sys, ev: C.Event)
    requires Inv(s) && C.Enabled(s, ev)
    ensures Inv(C.Next(s, ev))
  {
    hide Books, Control, C.Next, C.Enabled;
    StepKeepsBooks(s, ev);
    StepKeepsControl(s, ev);
    StaysSound(s, ev);
  }

  /** Ids from the next one on were never given to an element. */
  ghost predicate Unused(s: C.Sys) {
    forall id: nat :: id >= s.nextId ==> Count(Everyone(s.mpx), id) == 0
  }

  lemma {:induction false} NextIsUnused(s: C.Sys)
    requires Inv(s)
    ensures Unused(s)
  {
    hide Wf, Logs, Control;
  }

  lemma {:induction false} EnqueueUnused(s: C.Sys, req: S.Req)
    requires Wf(s.mpx) && Unused(s)
    ensures Unused(C.Enqueue(s, req)) && Count(Everyone(s.mpx), s.nextId) == 0
  {
    hide Wf, Count, Everyone, S.Add;
    AddKeeps(s.mpx, S.MakeElem(s.nextId, req));
  }

  lemma {:induction false} ResetUnused(s: C.Sys, t: C.Sys)
    requires Unused(s) && t.mpx == S.Reset(s.mpx) && t.nextId == s.nextId
    ensures Unused(t)
  {
    assert Everyone(t.mpx) == Everyone(s.mpx);
  }

  lemma {:induction false} KnownInQueue(s: C.Sys, i: nat)
    requires Inv(s) && i < |s.mpx.queue|
    ensures C.Holds(s, s.mpx.queue[i].id) && C.Find(s, s.mpx.queue[i].id) == s.mpx.queue[i]
  {
    hide Wf, Logs, Control;
    var e := s.mpx.queue[i];
    assert Everyone(s.mpx)[i] == e;
    UniqueElem(s.mpx, C.Find(s, e.id), e);
  }

  lemma {:induction false} KnownGone(s: C.Sys, e: S.Elem)
    requires Inv(s) && M.Departed(e, s.mpx.gone)
    ensures C.Holds(s, e.id) && C.Find(s, e.id) == e && !S.InQueue(s.mpx, e.id)
  {
    hide Wf, Logs, Control;
    DistinctOf(s.mpx);
    var d :| d in s.mpx.gone && d.elem == e;
    var j :| 0 <= j < |s.mpx.gone| && s.mpx.gone[j] == d;
    assert Everyone(s.mpx)[|s.mpx.queue| + j] == e;
    UniqueElem(s.mpx, C.Find(s, e.id), e);
    if S.InQueue(s.mpx, e.id) {
      var i := S.IndexOf(s.mpx.queue, e.id);
      M.EveryoneOnce(s.mpx, i, |s.mpx.queue| + j);
      assert false;
    }
  }

  /** What the reader makes of a read. */
  lemma {:induction false} ReadCases(s: C.Sys, fault: Option<P.Fault>)
    requires S.CanRead(s.mpx)
    ensures s.mpx.readBuffer != []
    ensures
      var r := S.CommitRead(s.mpx, fault);
      var u := s.(mpx := r.mpx);
      && (r.read.Failure? ==> C.TakeRead(s, fault) == C.Drop(u.(reader := false)))
      && (!r.read.Failure? && (!r.read.Message? || r.read.push) ==> C.TakeRead(s, fault) == u)
      && (r.read.Message? && !r.read.push ==>
            && s.mpx.queue != []
            && var slot := Slot(s.mpx.queue[0].id, s.mpx.queue[0].Index());
               C.TakeRead(s, fault) == u.(answered := u.answered + [slot], replies := u.replies + [slot]))
  {
    hide S.CommitRead;
    if S.CommitRead(s.mpx, fault).read.Message? && !S.CommitRead(s.mpx, fault).read.push {
      ReplyHasFront(s.mpx, fault);
    }
  }

  /** What becomes of an operation that is cancelled, by the state of its element. */
  lemma {:induction false} CancelCases(s: C.Sys, id: nat, terminal: bool)
    requires C.Holds(s, id)
    requires C.Find(s, id).IsWaiting() && C.Find(s, id).ec.None? ==> S.InQueue(s.mpx, id)
    ensures
      var e := C.Find(s, id);
      C.CancelOne(s, id, terminal) ==
      if e.ec.Some? then C.Finish(s, id)
      else if e.IsWaiting() then C.Finish(s.(mpx := S.Remove(s.mpx, id)), id)
      else if terminal then C.Finish(C.Drop(s), id)
      else s
  {
  }

  lemma {:induction false} QueuedWhileWaiting(s: C.Sys, id: nat)
    requires Inv(s) && C.Holds(s, id) && id !in s.finished
    ensures C.Find(s, id).IsWaiting() && C.Find(s, id).ec.None? ==> S.InQueue(s.mpx, id)
  {
    hide Books, C.Find, S.InQueue;
    if C.Find(s, id).IsWaiting() && C.Find(s, id).ec.None? {
      WaitingIsQueued(s, id);
    }
  }
}
