/** What callers see, on flags and literal errors, over every run. */
module Outcomes {
  import opened Bytes
  import opened Resp3
  import opened Request
  import opened MultiplexerSpec
  import opened Queues
  import opened Invariants
  import opened Correlation
  import opened Histories
  import opened ConnectionSpec
  import opened Runs
  import opened Safety
  import opened Completion
  import opened Lifecycle
  import Parser = ParserSpec

  // Losing a connection.

  /** The two flags decide who leaves with the connection. */
  predicate LeavesWithConnection(e: Elem) {
    || (e.status == Waiting && e.req.cfg.cancelOnConnectionLost)
    || (e.status != Waiting && e.req.cfg.cancelIfUnresponded)
  }

  ghost predicate WaitsAgain(s: Mpx, e: Elem) {
    exists f :: f in s.queue && f.id == e.id && f.req == e.req && f.status == Waiting
  }

  /** `cancel_on_conn_lost` on the flags: who leaves is out of the queue and recorded as aborted, with the error
      it had or `operation_aborted`; who stays is in the queue once, and waits. */
  lemma {:induction false} LossOnFlags(s: Mpx, e: Elem)
    requires Wf(s) && !s.cancelCalled && e in s.queue
    ensures
      var t := CancelOnConnLost(s);
      && (Count(t.queue, e.id) == 0 <==> LeavesWithConnection(e))
      && (LeavesWithConnection(e) ==> AbortedWith(t, e.id, if e.ec.Some? then e.ec else Some(OperationAborted)))
      && (!LeavesWithConnection(e) ==> e.(status := Waiting) in t.queue && Count(t.queue, e.id) == 1)
  {
    hide Wf, CancelOnConnLost, Count;
    var t := CancelOnConnLost(s);
    LossFate(s, e);
    CancelOnConnLostKeeps(s);
    DistinctOf(t);
    if LeavesWithConnection(e) {
      GoneIsNotQueued(t, Departure(Told(e, OperationAborted), Aborted));
      CountNone(t.queue, e.id);
    } else {
      var i :| 0 <= i < |t.queue| && t.queue[i] == e.(status := Waiting);
      QueueCount(t, i);
    }
  }

  /** A request in the queue when a step gives up the connection leaves, or stays and waits, by its flags; its
      caller is told its first error, which is that of the reply just refused or `operation_aborted`. */
  lemma {:induction false} LossOverRuns(evs: seq<Event>, ev: Event, e: Elem)
    requires IsRun(INIT, evs) && Enabled(After(INIT, evs), ev) && GivesUp(After(INIT, evs), ev)
    requires e in After(INIT, evs).mpx.queue
    ensures
      var s, t := After(INIT, evs).mpx, Next(After(INIT, evs), ev).mpx;
      var refused := ev.ReadMessage? && !CommitRead(s, ev.fault).read.push && e.id == s.queue[0].id;
      && (!InQueue(t, e.id) <==> LeavesWithConnection(e))
      && (LeavesWithConnection(e) ==>
            AbortedWith(t, e.id, if e.ec.Some? then e.ec
                                 else if refused then Some(CommitRead(s, ev.fault).read.error)
                                 else Some(OperationAborted)))
      && (!LeavesWithConnection(e) ==> WaitsAgain(t, e))
  {
    hide IsRun, After, Next, Inv, InQueue, Find, CommitRead, CanRead;
    InitInv();
    RunKeepsInv(INIT, evs);
    var s := After(INIT, evs);
    OnePlace(s, ev, e);
    var t, f := Next(s, ev).mpx, FateOf(s, ev, e);
    if LeavesWithConnection(e) {
      assert Departure(f.elem, Aborted) in t.gone;
    } else {
      assert f.elem in t.queue;
    }
  }

  /** Which steps close the connection. */
  lemma {:induction false} ClosingSteps(s: Sys, ev: Event)
    requires Enabled(s, ev)
    ensures Next(s, ev).open <==> ev.Connected? || (s.open && !ev.Disconnected? && !Closes(s, ev))
  {
    hide Add, Remove, PrepareWrite, CommitWrite, CancelWaiting, CancelOnConnLost, InQueue, Asked, Find;
    hide CommitRead, CanRead, Start;
    if ev.Launch? {
      StartFlags(s, ev.hello, ev.ping);
    }
  }

  lemma {:induction false} WriteDoneFlag(s: Sys)
    ensures WriteOver(s, true).mpx.cancelCalled == s.mpx.cancelCalled
  {
    hide CommitWrite, WriterTurn;
    FlagsKept(s.mpx);
    TurnKeepsFlag(s.(mpx := CommitWrite(s.mpx)));
  }

  lemma {:induction false} TakeReadFlag(s: Sys, fault: Option<Parser.Fault>)
    requires CanRead(s.mpx)
    ensures TakeRead(s, fault).mpx.cancelCalled <==> s.mpx.cancelCalled || CommitRead(s.mpx, fault).read.Failure?
  {
    hide CommitRead, CanRead, Drop;
    ReadKeepsStatus(s.mpx, fault);
    DropGivesUp(s.(mpx := CommitRead(s.mpx, fault).mpx, reader := false));
  }

  lemma {:induction false} CancelOneFlag(s: Sys, id: nat, terminal: bool)
    requires Holds(s, id)
    ensures CancelOne(s, id, terminal).mpx.cancelCalled <==>
            s.mpx.cancelCalled || (terminal && Find(s, id).ec.None? && Find(s, id).status != Waiting)
  {
    hide Remove, Drop, InQueue, Find;
    DropGivesUp(s);
    if InQueue(s.mpx, id) {
      RemoveKeepsStatus(s.mpx, id);
    }
  }

  /** The first of them gives it up, until the next launch. */
  lemma {:induction false} GivingUp(s: Sys, ev: Event)
    requires Enabled(s, ev)
    ensures Next(s, ev).mpx.cancelCalled <==> GivesUp(s, ev) || (s.mpx.cancelCalled && !ev.Launch?)
  {
    hide Insert, CancelWaiting, CancelOne, TakeRead, Drop, WriterTurn, Find, CommitRead, CanRead, Start, CommitWrite;
    match ev {
      case Launch(hello, ping) => StartFlags(s, hello, ping);
      case WriteDone => WriteDoneFlag(s);
      case TimerFired => TurnKeepsFlag(s);
      case ReadMessage(fault) => TakeReadFlag(s, fault);
      case CancelExec => FlagsKept(s.mpx);
      case ExecCancelled(id, terminal) => CancelOneFlag(s, id, terminal);
      case _ => DropGivesUp(s);
    }
  }

  lemma {:induction false} DropGivesUp(s: Sys)
    ensures Drop(s).mpx.cancelCalled
  {
    hide CancelOnConnLost;
    FlagsKept(s.mpx);
  }

  lemma {:induction false} TurnKeepsFlag(s: Sys)
    ensures WriterTurn(s).mpx.cancelCalled == s.mpx.cancelCalled
  {
    hide PrepareWrite, Asked;
    FlagsKept(s.mpx);
  }

  lemma {:induction false} FlagsKept(s: Mpx)
    ensures PrepareWrite(s).cancelCalled == s.cancelCalled && CommitWrite(s).cancelCalled == s.cancelCalled
    ensures CancelWaiting(s).cancelCalled == s.cancelCalled && CancelOnConnLost(s).cancelCalled
  {
    hide Select, MapElems, Depart, Stagings, Payloads, CommandCount, Lead;
  }

  lemma {:induction false} StartFlags(s: Sys, hello: Req, ping: Option<Req>)
    ensures !Start(s, hello, ping).mpx.cancelCalled && Start(s, hello, ping).open == s.open
    ensures Start(s, hello, ping).reader && !Start(s, hello, ping).writer.Off?
  {
    hide Insert, MapElems, Stagings, Payloads, CommandCount, Lead, Asked;
  }

  // Errors.

  lemma {:induction false} FateKeepsError(s: Sys, ev: Event, e: Elem)
    requires Enabled(s, ev) && e in s.mpx.queue
    ensures
      var f := FateOf(s, ev, e);
      var refused := ev.ReadMessage? && CommitRead(s.mpx, ev.fault).read.Failure? &&
                     !CommitRead(s.mpx, ev.fault).read.push && e.id == s.mpx.queue[0].id;
      && (e.ec.Some? ==> f.elem.ec == e.ec)
      && (e.ec.None? && f.elem.ec.Some? ==>
            || (refused && f.elem.ec == Some(CommitRead(s.mpx, ev.fault).read.error))
            || (f.elem.ec == Some(OperationAborted) && f.exit == Some(Aborted)))
  {
    hide CommitRead, CanRead, Find;
  }

  /** An error, once told, is never replaced.  And the first one is that of the reply that was refused, or
      `operation_aborted` for a request that leaves. */
  lemma {:induction false} ErrorsAreKept(s: Sys, ev: Event, e: Elem, f: Elem)
    requires Inv(s) && Enabled(s, ev) && e in Everyone(s.mpx) && f in Everyone(Next(s, ev).mpx) && e.id == f.id
    ensures e.ec.Some? ==> f.ec == e.ec
    ensures e.ec.None? && f.ec.Some? ==>
              || (&& ev.ReadMessage? && CommitRead(s.mpx, ev.fault).read.Failure?
                  && !CommitRead(s.mpx, ev.fault).read.push && s.mpx.queue != [] && e.id == s.mpx.queue[0].id
                  && f.ec == Some(CommitRead(s.mpx, ev.fault).read.error))
              || (f.ec == Some(OperationAborted) && Departure(f, Aborted) in Next(s, ev).mpx.gone)
  {
    hide Next, Enabled, Inv, FateOf, Everyone, CommitRead, CanRead, Distinct, InQueue;
    var t := Next(s, ev).mpx;
    StepKeepsDistinct(s, ev);
    InEveryone(s.mpx, e);
    if e in s.mpx.queue {
      OnePlace(s, ev, e);
      FateKeepsError(s, ev, e);
      var x := FateOf(s, ev, e);
      InEveryone(t, x.elem);
      assert x.exit.Some? ==> Departure(x.elem, x.exit.value).elem == x.elem;
      UniqueElem(t, x.elem, f);
    } else {
      StepKeepsGone(s, ev);
      var d :| d in s.mpx.gone && d.elem == e;
      assert d in t.gone;
      InEveryone(t, e);
      UniqueElem(t, e, f);
    }
  }

  /** Over any number of steps. */
  lemma {:induction false} ErrorsForGood(s: Sys, evs: seq<Event>, e: Elem, f: Elem)
    requires Inv(s) && IsRun(s, evs) && e in Everyone(s.mpx) && e.ec.Some?
    requires f in Everyone(After(s, evs).mpx) && f.id == e.id
    ensures f.ec == e.ec
    decreases |evs|
  {
    hide Next, Enabled, Books, Control, Everyone;
    if evs == [] {
      WfOf(s);
      DistinctOf(s.mpx);
      UniqueElem(s.mpx, e, f);
    } else {
      StepKeepsBooks(s, evs[0]);
      StepKeepsControl(s, evs[0]);
      StaysSound(s, evs[0]);
      var x := StillThere(s, evs[0], e);
      ErrorsAreKept(s, evs[0], e, x);
      ErrorsForGood(Next(s, evs[0]), evs[1..], x, f);
    }
  }

  // Submitting.

  /** A request is refused exactly if it wants a connection and there is none.  Otherwise one element more is in
      the queue: this request, waiting, with all its replies to come and nothing told to its caller; and a writer
      that is parked is woken if the connection is open and no write is prepared. */
  lemma {:induction false} SubmittedExactly(s: Sys, req: Req)
    ensures
      var t, e := Next(s, Exec(req)), Elem(s.nextId, req, req.expected, Waiting, None, 0, 0);
      && (t.nextId == s.nextId <==> req.cfg.cancelIfNotConnected && !s.open)
      && (t.nextId == s.nextId ==> t == s)
      && (t.nextId != s.nextId ==>
            && t.nextId == s.nextId + 1 && |t.mpx.queue| == |s.mpx.queue| + 1 && t.mpx.gone == s.mpx.gone
            && t.submitted == s.submitted + {req}
            && t.writer == (if s.open && s.mpx.writeBuffer == [] && s.writer == Parked then Woken else s.writer)
            && forall x :: x in t.mpx.queue <==> x in s.mpx.queue || x == e)
  {
    hide Lead, Everyone;
    AddDescends(s.mpx, MakeElem(s.nextId, req));
  }

  /** A request with the default configuration is always accepted, and leaves with the connection, whether it
      waits or is in flight. */
  lemma {:induction false} DefaultRequest(s: Sys, req: Req, e: Elem)
    requires req.cfg == DEFAULT_CONFIG && e.req == req
    ensures Next(s, Exec(req)).nextId == s.nextId + 1 && LeavesWithConnection(e) && req.cfg.helloWithPriority
  {
    hide Insert;
    SubmittedExactly(s, req);
  }

  // Completing.

  /** An operation that is cancelled completes exactly if its element has an error, waits, or the cancellation is
      terminal; otherwise nothing happens at all. */
  lemma {:induction false} CancelledExactly(s: Sys, id: nat, terminal: bool)
    requires Inv(s) && Enabled(s, ExecCancelled(id, terminal))
    ensures
      var t, e := Next(s, ExecCancelled(id, terminal)), Find(s, id);
      && (id in t.finished <==> e.ec.Some? || e.status == Waiting || terminal)
      && t.finished - {id} == s.finished
      && (id !in t.finished ==> t == s)
      && t.writer.Off? == s.writer.Off? && t.reader == s.reader && t.nextId == s.nextId
  {
    hide Books, Find, Remove, CancelOnConnLost, AllWaiting, NoneWaiting, Everyone;
    if Find(s, id).ec.None? && Find(s, id).IsWaiting() {
      WaitingIsQueued(s, id);
    }
  }

  /** And otherwise an operation completes when it is resumed by its notification, never by another step. */
  lemma {:induction false} CompletedExactly(s: Sys, ev: Event)
    requires Inv(s) && Enabled(s, ev)
    ensures
      Next(s, ev).finished ==
      s.finished +
      match ev
      case ExecFinished(id) => {id}
      case ExecCancelled(id, terminal) =>
        if Find(s, id).ec.Some? || Find(s, id).status == Waiting || terminal then {id} else {}
      case _ => {}
  {
    hide Books, Next, Find, AllWaiting, NoneWaiting, Everyone;
    StepKeepsFinished(s, ev);
    match ev {
      case ExecFinished(id) => FinishedNow(s, id);
      case ExecCancelled(id, terminal) => CancelledExactly(s, id, terminal);
      case _ =>
    }
  }

  lemma {:induction false} FinishedNow(s: Sys, id: nat)
    requires Enabled(s, ExecFinished(id))
    ensures Next(s, ExecFinished(id)).finished == s.finished + {id}
  {
  }

  // The coroutines.

  ghost predicate SomeoneWaits(q: seq<Elem>) {
    exists e :: e in q && e.status == Waiting
  }

  /** Where the writer is after a step. */
  ghost function WriterAfter(s: Sys, ev: Event): (w: Writer)
    requires Enabled(s, ev)
  {
    match ev
    case Exec(req) =>
      if s.open && s.mpx.writeBuffer == [] && s.writer == Parked then Woken else s.writer
    case Launch(_, _) => Writing
    case WriteDone => if !s.open then Off else if SomeoneWaits(s.mpx.queue) then Writing else Parked
    case TimerFired => if !s.open then Off else if SomeoneWaits(s.mpx.queue) then Writing else Parked
    case WriteFailed => Off
    case Wake => Woken
    case _ => if Closes(s, ev) && s.writer == Parked then Woken else s.writer
  }

  /** Whether the reader runs after a step. */
  ghost predicate ReaderAfter(s: Sys, ev: Event)
    requires Enabled(s, ev)
  {
    if ev.ReadFailed? || ev.ReaderQuits? || (ev.ReadMessage? && Closes(s, ev)) then false else ev.Launch? || s.reader
  }

  lemma {:induction false} TurnWriter(s: Sys)
    requires Wf(s.mpx)
    ensures WriterTurn(s).writer == if SomeoneWaits(s.mpx.queue) then Writing else Parked
  {
    hide Wf, PrepareWrite, Asked, Lead;
    ShapeOf(s.mpx);
    LeadIs(s.mpx.queue);
    var q, k := s.mpx.queue, Lead(s.mpx.queue);
    if k < |q| {
      assert q[k] in q && q[k].status == Waiting;
    }
    if SomeoneWaits(q) {
      var e :| e in q && e.status == Waiting;
      var i :| 0 <= i < |q| && q[i] == e;
    }
  }

  lemma {:induction false} WriteKeepsWaiting(s: Mpx)
    ensures SomeoneWaits(CommitWrite(s).queue) <==> SomeoneWaits(s.queue)
  {
    hide Select, MapElems, Depart;
    var q := MapElems(s.queue, MarkWritten);
    SelectMembers(q, IsRetained);
    MapMembers(s.queue, MarkWritten);
    if SomeoneWaits(s.queue) {
      var e :| e in s.queue && e.status == Waiting;
      assert MarkWritten(e) in q;
    }
  }

  lemma {:induction false} WriteDoneWriter(s: Sys)
    requires Wf(s.mpx)
    ensures WriteOver(s, true).writer == if !s.open then Off else if SomeoneWaits(s.mpx.queue) then Writing else Parked
  {
    hide Wf, CommitWrite, WriterTurn, SomeoneWaits;
    CommitWriteKeeps(s.mpx);
    WriteKeepsWaiting(s.mpx);
    TurnWriter(s.(mpx := CommitWrite(s.mpx)));
  }

  lemma {:induction false} StartWriter(s: Sys, hello: Req, ping: Option<Req>)
    requires Books(s)
    ensures Start(s, hello, ping).writer == Writing || hello.cfg.cancelIfNotConnected
  {
    hide Books, WriterTurn, Insert, Everyone;
    var u := s.(mpx := Reset(s.mpx), asked := [], answered := [], appended := 0, reader := true,
                base := s.mpx.usage.responseBytes + s.mpx.usage.pushBytes);
    ResetKeepsBooks(s, u);
    SubmitKeepsBooks(u, hello);
    AddDescends(u.mpx, MakeElem(u.nextId, hello));
    var v := Submit(u, hello);
    WfOf(v);
    if !hello.cfg.cancelIfNotConnected {
      assert SomeoneWaits(v.mpx.queue);
      if ping.Some? {
        SubmitKeepsBooks(v, ping.value);
        AddDescends(v.mpx, MakeElem(v.nextId, ping.value));
        WfOf(Submit(v, ping.value));
        assert SomeoneWaits(Submit(v, ping.value).mpx.queue);
        TurnWriter(Submit(v, ping.value));
      } else {
        TurnWriter(v);
      }
    }
  }

  lemma {:induction false} DropCoroutines(s: Sys)
    ensures Drop(s).writer == (if s.writer == Parked then Woken else s.writer) && Drop(s).reader == s.reader
  {
    hide CancelOnConnLost;
  }

  lemma {:induction false} TakeReadCoroutines(s: Sys, fault: Option<Parser.Fault>)
    requires CanRead(s.mpx)
    ensures
      var t, failed := TakeRead(s, fault), CommitRead(s.mpx, fault).read.Failure?;
      && t.writer == (if failed && s.writer == Parked then Woken else s.writer)
      && t.reader == (s.reader && !failed)
  {
    hide CommitRead, CanRead, Drop;
    DropCoroutines(s.(mpx := CommitRead(s.mpx, fault).mpx, reader := false));
  }

  lemma {:induction false} CancelOneCoroutines(s: Sys, id: nat, terminal: bool)
    requires Holds(s, id)
    ensures
      var t, e := CancelOne(s, id, terminal), Find(s, id);
      && t.writer == (if terminal && e.ec.None? && e.status != Waiting && s.writer == Parked then Woken else s.writer)
      && t.reader == s.reader
  {
    hide Remove, Drop, InQueue, Find;
    DropCoroutines(s);
  }

  /** The coroutines, step by step: in every reachable state a step leaves the writer and the reader where the
      flags of the connection and the queue say. */
  lemma {:induction false} CoroutineSteps(s: Sys, ev: Event)
    requires Inv(s) && Enabled(s, ev)
    ensures Next(s, ev).writer == WriterAfter(s, ev) && (Next(s, ev).reader <==> ReaderAfter(s, ev))
  {
    hide Books, Insert, CancelWaiting, CancelOne, TakeRead, Drop, WriterTurn, Find, CommitRead, CanRead, Start;
    hide CommitWrite, AllWaiting, NoneWaiting, SomeoneWaits;
    WfOf(s);
    match ev {
      case Launch(hello, ping) =>
        StartWriter(s, hello, ping);
        StartFlags(s, hello, ping);
      case WriteDone =>
        WriteDoneWriter(s);
        TurnKeepsReader(s.(mpx := CommitWrite(s.mpx)));
      case TimerFired =>
        TurnWriter(s);
        TurnKeepsReader(s);
      case ReadMessage(fault) => TakeReadCoroutines(s, fault);
      case ExecCancelled(id, terminal) => CancelOneCoroutines(s, id, terminal);
      case _ => DropCoroutines(s);
    }
  }

  lemma {:induction false} TurnKeepsReader(s: Sys)
    ensures WriterTurn(s).reader == s.reader
  {
    hide PrepareWrite, Asked;
  }

  /** A connection that is open and read from has its writer. */
  predicate Served(s: Sys) {
    s.open && s.reader ==> !s.writer.Off?
  }

  lemma {:induction false} StepServed(s: Sys, ev: Event)
    requires Inv(s) && Served(s) && Enabled(s, ev)
    ensures Served(Next(s, ev))
  {
    hide Books, Insert, Remove, PrepareWrite, CommitWrite, CancelWaiting, CancelOnConnLost, InQueue, Asked, Find;
    hide CommitRead, CanRead, Start, AllWaiting, NoneWaiting;
    if ev.Launch? {
      StartFlags(s, ev.hello, ev.ping);
    }
  }

  /** In every reachable state the coroutines fit together: with an open connection and a reader there is a
      writer, the connection was not given up, and with the reader gone or the connection given up nothing is
      in flight. */
  lemma {:induction false} CoroutinesFit(evs: seq<Event>)
    requires IsRun(INIT, evs)
    ensures
      var s := After(INIT, evs);
      && (s.open && s.reader ==> !s.writer.Off? && !s.mpx.cancelCalled)
      && (s.mpx.cancelCalled || !s.reader ==> forall e :: e in s.mpx.queue ==> e.status == Waiting)
  {
    hide Next, Enabled, IsRun, After, Books, NoneWaiting;
    InitInv();
    RunKeepsInv(INIT, evs);
    RunServed(INIT, evs);
  }

  lemma {:induction false} RunServed(s: Sys, evs: seq<Event>)
    requires Inv(s) && Served(s) && IsRun(s, evs)
    ensures Served(After(s, evs))
    decreases |evs|
  {
    hide Next, Enabled, Books, Control, Served;
    if evs != [] {
      StepKeepsBooks(s, evs[0]);
      StepKeepsControl(s, evs[0]);
      StaysSound(s, evs[0]);
      StepServed(s, evs[0]);
      RunServed(Next(s, evs[0]), evs[1..]);
    }
  }

  // Counters.

  /** How a read that completes a message counts. */
  ghost function Messages(s: Sys, evs: seq<Event>, push: bool): (n: nat)
    requires IsRun(s, evs)
    decreases |evs|
  {
    if evs == [] then 0
    else
      (if evs[0].ReadMessage? && CommitRead(s.mpx, evs[0].fault).read.Message? &&
          CommitRead(s.mpx, evs[0].fault).read.push == push then 1 else 0)
      + Messages(Next(s, evs[0]), evs[1..], push)
  }

  lemma {:induction false} ReadCounts(s: Mpx, fault: Option<Parser.Fault>)
    requires CanRead(s)
    ensures
      var r, u, v := CommitRead(s, fault).read, s.usage, CommitRead(s, fault).mpx.usage;
      && v.pushesReceived == u.pushesReceived + (if r.Message? && r.push then 1 else 0)
      && v.responsesReceived == u.responsesReceived + (if r.Message? && !r.push then 1 else 0)
      && v.commandsSent == u.commandsSent
  {
    hide Parser.Parse, Deliver;
  }

  lemma {:induction false} UsageKept(s: Mpx)
    ensures CommitWrite(s).usage == s.usage && CancelWaiting(s).usage == s.usage && CancelOnConnLost(s).usage == s.usage
    ensures PrepareWrite(s).usage.pushesReceived == s.usage.pushesReceived
    ensures PrepareWrite(s).usage.responsesReceived == s.usage.responsesReceived
  {
    hide Select, MapElems, Depart, Stagings, Payloads, CommandCount, Lead;
  }

  lemma {:induction false} RemoveKeepsUsage(s: Mpx, id: nat)
    requires InQueue(s, id)
    ensures Remove(s, id).usage == s.usage
  {
  }

  lemma {:induction false} StartKeepsCounts(s: Sys, hello: Req, ping: Option<Req>)
    ensures
      var u, v := s.mpx.usage, Start(s, hello, ping).mpx.usage;
      v.pushesReceived == u.pushesReceived && v.responsesReceived == u.responsesReceived
  {
    hide Insert, MapElems, Stagings, Payloads, CommandCount, Lead, Asked;
  }

  lemma {:induction false} StepCounts(s: Sys, ev: Event)
    requires Enabled(s, ev)
    ensures
      var u, v := s.mpx.usage, Next(s, ev).mpx.usage;
      var done := ev.ReadMessage? && CommitRead(s.mpx, ev.fault).read.Message?;
      && v.pushesReceived == u.pushesReceived + (if done && CommitRead(s.mpx, ev.fault).read.push then 1 else 0)
      && v.responsesReceived == u.responsesReceived + (if done && !CommitRead(s.mpx, ev.fault).read.push then 1 else 0)
  {
    hide Insert, Remove, PrepareWrite, CommitWrite, CancelWaiting, CancelOnConnLost, InQueue, Asked, Find;
    hide CommitRead, CanRead, Start;
    UsageKept(s.mpx);
    match ev {
      case Launch(hello, ping) => StartKeepsCounts(s, hello, ping);
      case WriteDone => UsageKept(CommitWrite(s.mpx));
      case ReadMessage(fault) =>
        ReadCounts(s.mpx, fault);
        UsageKept(CommitRead(s.mpx, fault).mpx);
      case ExecCancelled(id, _) =>
        if InQueue(s.mpx, id) {
          RemoveKeepsUsage(s.mpx, id);
        }
      case _ =>
    }
  }

  /** The two message counters are the numbers of complete pushes and replies of the run. */
  lemma {:induction false} MessagesAreCounted(s: Sys, evs: seq<Event>)
    requires IsRun(s, evs)
    ensures After(s, evs).mpx.usage.pushesReceived == s.mpx.usage.pushesReceived + Messages(s, evs, true)
    ensures After(s, evs).mpx.usage.responsesReceived == s.mpx.usage.responsesReceived + Messages(s, evs, false)
    decreases |evs|
  {
    hide Next, Enabled, CommitRead, CanRead;
    if evs != [] {
      StepCounts(s, evs[0]);
      MessagesAreCounted(Next(s, evs[0]), evs[1..]);
    }
  }
}
