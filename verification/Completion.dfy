/** When an operation has completed while its request is still in the queue, to be sent again. */
module Completion {
  import opened Bytes
  import opened Resp3
  import opened MultiplexerSpec
  import opened Queues
  import opened Invariants
  import opened Correlation
  import opened Histories
  import opened ConnectionSpec
  import opened Runs
  import opened Safety
  import Parser = ParserSpec

  /** Whoever was told an error, or has completed, and is still queued, is a request that may be sent again. */
  predicate Owed(e: Elem, finished: set<nat>) {
    e.ec.Some? || e.id in finished ==> !OneShot(e)
  }

  predicate AllOwed(q: seq<Elem>, finished: set<nat>) {
    forall e :: e in q ==> Owed(e, finished)
  }

  ghost predicate Settled(s: Sys) {
    AllOwed(s.mpx.queue, s.finished) && forall id :: id in s.finished ==> id < s.nextId
  }

  /** The same request, with the same error. */
  predicate Kin(d: Elem, e: Elem) {
    d.id == e.id && d.req == e.req && d.ec == e.ec
  }

  ghost predicate HasKin(q: seq<Elem>, e: Elem) {
    exists d :: d in q && Kin(d, e)
  }

  ghost predicate Inherits(q: seq<Elem>, r: seq<Elem>) {
    forall e :: e in r ==> HasKin(q, e)
  }

  lemma {:induction false} InheritOwed(q: seq<Elem>, r: seq<Elem>, finished: set<nat>)
    requires AllOwed(q, finished) && Inherits(q, r)
    ensures AllOwed(r, finished)
  {
    forall e | e in r ensures Owed(e, finished) {
      assert HasKin(q, e);
      var d :| d in q && Kin(d, e);
    }
  }

  lemma {:induction false} PartInherits(q: seq<Elem>, r: seq<Elem>)
    requires forall e :: e in r ==> e in q
    ensures Inherits(q, r)
  {
    forall e | e in r ensures HasKin(q, e) {
      assert Kin(e, e);
    }
  }

  lemma {:induction false} MapInherits(q: seq<Elem>, r: seq<Elem>, m: Elem -> Elem)
    requires (forall e :: Kin(e, m(e))) && forall e :: e in r ==> e in MapElems(q, m)
    ensures Inherits(q, r)
  {
    MapMembers(q, m);
    forall e | e in r ensures HasKin(q, e) {
      var d :| d in q && e == m(d);
      assert Kin(d, m(d));
    }
  }

  // What the operations leave in the queue.

  lemma {:induction false} PrepareInherits(s: Mpx)
    requires Shape(s.queue)
    ensures Inherits(s.queue, PrepareWrite(s).queue)
  {
    hide Shape, MapElems, Lead, Payloads, CommandCount, Stagings;
    PrepareIsMap(s);
    MapInherits(s.queue, PrepareWrite(s).queue, StageWaiting);
  }

  lemma {:induction false} CommitWriteInherits(s: Mpx)
    ensures Inherits(s.queue, CommitWrite(s).queue)
  {
    hide Select, MapElems, Depart;
    SelectMembers(MapElems(s.queue, MarkWritten), IsRetained);
    MapInherits(s.queue, CommitWrite(s).queue, MarkWritten);
  }

  lemma {:induction false} CancelWaitingInherits(s: Mpx)
    ensures Inherits(s.queue, CancelWaiting(s).queue)
  {
    hide Select, MapElems, Depart;
    SelectMembers(s.queue, IsActive);
    PartInherits(s.queue, CancelWaiting(s).queue);
  }

  /** After a loss the queue holds those that survived it. */
  lemma {:induction false} LossLeaves(s: Mpx)
    requires !s.cancelCalled
    ensures forall e :: e in CancelOnConnLost(s).queue <==> exists d :: d in s.queue && Survives(d) && e == Requeue(d)
  {
    hide Select, MapElems, Depart;
    SelectMembers(s.queue, Survives);
    MapMembers(Select(s.queue, Survives), Requeue);
  }

  lemma {:induction false} LossInherits(s: Mpx)
    ensures Inherits(s.queue, CancelOnConnLost(s).queue)
  {
    hide CancelOnConnLost;
    if s.cancelCalled {
      LostTwice(s);
      PartInherits(s.queue, s.queue);
    } else {
      LossLeaves(s);
      forall e | e in CancelOnConnLost(s).queue ensures HasKin(s.queue, e) {
        var d :| d in s.queue && Survives(d) && e == Requeue(d);
        assert Kin(d, e);
      }
    }
  }

  lemma {:induction false} LostTwice(s: Mpx)
    requires s.cancelCalled
    ensures CancelOnConnLost(s) == s
  {
  }

  /** A read that is not refused changes no error in the queue. */
  lemma {:induction false} ReadInherits(s: Mpx, fault: Option<Parser.Fault>)
    requires CanRead(s)
    ensures
      var r := CommitRead(s, fault);
      && (!(r.read.Failure? && !r.read.push) ==> Inherits(s.queue, r.mpx.queue))
      && (r.read.Failure? && !r.read.push ==>
            && s.queue != [] && !s.queue[0].IsWaiting()
            && r.mpx.queue == s.queue[0 := s.queue[0].NotifyError(r.read.error)])
  {
    hide Parser.Parse, Deliver, Inherits;
    var r := CommitRead(s, fault).mpx;
    PartInherits(s.queue, s.queue);
    if CommitRead(s, fault).read.Message? && !CommitRead(s, fault).read.push {
      ResponseInherits(s, Parser.Parse(s.parser, s.readBuffer, fault).state.consumed);
    }
  }

  lemma {:induction false} ResponseInherits(s: Mpx, size: nat)
    requires s.queue != [] && s.queue[0].remaining > 0
    ensures Inherits(s.queue, CommitResponse(s, size).queue)
  {
    var q := CommitResponse(s, size).queue;
    forall e | e in q ensures HasKin(s.queue, e) {
      var i :| 0 <= i < |q| && q[i] == e;
      var d := s.queue[|s.queue| - |q| + i];
      assert d in s.queue && Kin(d, e);
    }
  }

  // What every step keeps.

  lemma {:induction false} InheritSettled(s: Sys, t: Sys)
    requires Settled(s) && Inherits(s.mpx.queue, t.mpx.queue) && t.finished == s.finished && s.nextId <= t.nextId
    ensures Settled(t)
  {
    hide AllOwed, Inherits;
    InheritOwed(s.mpx.queue, t.mpx.queue, s.finished);
  }

  lemma {:induction false} EnqueueSettled(s: Sys, req: Req)
    requires Settled(s)
    ensures Settled(Enqueue(s, req))
  {
    hide Insert, Everyone;
    AddDescends(s.mpx, MakeElem(s.nextId, req));
  }

  lemma {:induction false} SubmitSettled(s: Sys, req: Req)
    requires Settled(s)
    ensures Settled(Submit(s, req))
  {
    hide Settled, Enqueue;
    EnqueueSettled(s, req);
  }

  lemma {:induction false} TurnSettled(s: Sys)
    requires Wf(s.mpx) && Settled(s)
    ensures Settled(WriterTurn(s))
  {
    hide PrepareWrite, Asked, Wf, Settled, Inherits;
    ShapeOf(s.mpx);
    PrepareInherits(s.mpx);
    InheritSettled(s, WriterTurn(s));
  }

  lemma {:induction false} StartSettled(s: Sys, hello: Req, ping: Option<Req>)
    requires Books(s) && Settled(s)
    ensures Settled(Start(s, hello, ping))
  {
    hide Books, Submit, WriterTurn;
    var u := s.(mpx := Reset(s.mpx), asked := [], answered := [], appended := 0, reader := true,
                base := s.mpx.usage.responseBytes + s.mpx.usage.pushBytes);
    ResetKeepsBooks(s, u);
    SubmitSettled(u, hello);
    SubmitKeepsBooks(u, hello);
    var v := Submit(u, hello);
    WfOf(v);
    if ping.Some? {
      SubmitSettled(v, ping.value);
      SubmitKeepsBooks(v, ping.value);
      WfOf(Submit(v, ping.value));
      TurnSettled(Submit(v, ping.value));
    } else {
      TurnSettled(v);
    }
  }

  lemma {:induction false} DropSettled(s: Sys)
    requires Settled(s)
    ensures Settled(Drop(s))
  {
    hide CancelOnConnLost, Settled, Inherits;
    LossInherits(s.mpx);
    InheritSettled(s, Drop(s));
  }

  lemma {:induction false} WriteDoneSettled(s: Sys)
    requires Wf(s.mpx) && Settled(s)
    ensures Settled(WriteOver(s, true))
  {
    hide CommitWrite, WriterTurn, Wf, Settled, Inherits;
    CommitWriteKeeps(s.mpx);
    CommitWriteInherits(s.mpx);
    var u := s.(mpx := CommitWrite(s.mpx));
    InheritSettled(s, u);
    TurnSettled(u);
    InheritSettled(s, u.(writer := Off));
  }

  /** A refused request leaves with the connection, unless it may be sent again. */
  lemma {:induction false} RefusedSettled(s: Mpx, t: Mpx, e: Error, finished: set<nat>)
    requires s.queue != [] && !s.queue[0].IsWaiting() && !t.cancelCalled && AllOwed(s.queue, finished)
    requires t.queue == s.queue[0 := s.queue[0].NotifyError(e)]
    ensures AllOwed(CancelOnConnLost(t).queue, finished)
  {
    hide CancelOnConnLost;
    LossLeaves(t);
    forall x | x in CancelOnConnLost(t).queue ensures Owed(x, finished) {
      var d :| d in t.queue && Survives(d) && x == Requeue(d);
      var i :| 0 <= i < |t.queue| && t.queue[i] == d;
      assert s.queue[i] in s.queue && Owed(s.queue[i], finished);
    }
  }

  lemma {:induction false} ReadSettled(s: Sys, fault: Option<Parser.Fault>)
    requires InStep(s) && Settled(s) && Enabled(s, ReadMessage(fault))
    ensures Settled(TakeRead(s, fault))
  {
    hide CommitRead, CancelOnConnLost, AllOwed, Inherits, AllWaiting;
    var r := CommitRead(s.mpx, fault);
    ReadInherits(s.mpx, fault);
    ReadKeepsStatus(s.mpx, fault);
    var u := s.(mpx := r.mpx);
    if r.read.Failure? && !r.read.push {
      RefusedSettled(s.mpx, r.mpx, r.read.error, s.finished);
    } else {
      InheritSettled(s, u);
      if r.read.Failure? {
        InheritSettled(s, u.(reader := false));
        DropSettled(u.(reader := false));
      } else {
        InheritSettled(s, TakeRead(s, fault));
      }
    }
  }

  // Completing one operation.

  lemma {:induction false} Known(s: Sys, id: nat)
    requires Ledger(s) && Holds(s, id)
    ensures id < s.nextId
    ensures forall e :: e in s.mpx.queue && e.id == id ==> e == Find(s, id)
    ensures InQueue(s.mpx, id) <==> Find(s, id) in s.mpx.queue
  {
    hide Count, Wf, Find;
    var all, e := Everyone(s.mpx), Find(s, id);
    var j :| 0 <= j < |all| && all[j] == e;
    CountedOnce(all, j);
    DistinctOf(s.mpx);
    forall x | x in s.mpx.queue && x.id == id ensures x == e {
      assert x in all;
      UniqueElem(s.mpx, x, e);
    }
    if InQueue(s.mpx, id) {
      var i :| 0 <= i < |s.mpx.queue| && s.mpx.queue[i].id == id;
      assert s.mpx.queue[i] in s.mpx.queue;
    }
  }

  lemma {:induction false} FinishSettled(s: Sys, id: nat)
    requires Settled(s) && id < s.nextId && forall e :: e in s.mpx.queue && e.id == id ==> !OneShot(e)
    ensures Settled(Finish(s, id))
  {
    forall e | e in s.mpx.queue ensures Owed(e, s.finished + {id}) {
      assert Owed(e, s.finished);
    }
  }

  lemma {:induction false} RemovedIsGone(s: Mpx, id: nat)
    requires Wf(s) && InQueue(s, id) && s.queue[IndexOf(s.queue, id)].IsWaiting()
    ensures !InQueue(Remove(s, id), id)
    ensures forall e :: e in Remove(s, id).queue ==> e in s.queue
  {
    hide Count, Wf;
    var i, t := IndexOf(s.queue, id), Remove(s, id);
    assert Everyone(s)[i] == s.queue[i];
    DistinctOf(s);
    CountedOnce(Everyone(s), i);
    forall j | 0 <= j < |t.queue| ensures t.queue[j].id != id {
      var k := if j < i then j else j + 1;
      assert t.queue[j] == s.queue[k] == Everyone(s)[k];
    }
  }

  /** Of those that are in flight, the loss leaves in the queue exactly the ones that may be sent again. */
  lemma {:induction false} LossKeepsRepeated(s: Sys, id: nat)
    requires Ledger(s) && InStep(s) && Holds(s, id) && !Find(s, id).IsWaiting()
    ensures InQueue(Drop(s).mpx, id) <==> InQueue(s.mpx, id) && !OneShot(Find(s, id))
    ensures forall e :: e in Drop(s).mpx.queue && e.id == id ==> !OneShot(e)
  {
    hide Wf, Find, CancelOnConnLost, Everyone, Count;
    Known(s, id);
    var e, t := Find(s, id), CancelOnConnLost(s.mpx);
    if s.mpx.cancelCalled {
      LostTwice(s.mpx);
    } else {
      LossLeaves(s.mpx);
      if e in s.mpx.queue && !OneShot(e) {
        assert Survives(e) && Requeue(e) in t.queue;
        var i :| 0 <= i < |t.queue| && t.queue[i] == Requeue(e);
      }
      if InQueue(t, id) {
        var j :| 0 <= j < |t.queue| && t.queue[j].id == id;
        assert t.queue[j] in t.queue;
      }
    }
  }

  /** The operation completes by this step while its element has this state: is the element still queued? */
  predicate StaysQueued(s: Mpx, e: Elem) {
    e in s.queue && (e.ec.Some? || !e.IsWaiting()) && !OneShot(e)
  }

  lemma {:induction false} CancelLeaves(s: Sys, id: nat, terminal: bool)
    requires Inv(s) && Settled(s) && Holds(s, id) && id !in s.finished
    ensures Settled(CancelOne(s, id, terminal))
    ensures id in CancelOne(s, id, terminal).finished ==>
              (InQueue(CancelOne(s, id, terminal).mpx, id) <==> StaysQueued(s.mpx, Find(s, id)))
  {
    hide Logs, Wf, Find, Drop, Remove, Settled, InQueue, AllWaiting, NoneWaiting, Everyone, Count;
    var e := Find(s, id);
    Known(s, id);
    if e.ec.Some? {
      OwedNow(s, e);
      FinishSettled(s, id);
    } else if e.IsWaiting() {
      WaitingIsQueued(s, id);
      RemovedIsGone(s.mpx, id);
      var u := s.(mpx := Remove(s.mpx, id));
      PartInherits(s.mpx.queue, u.mpx.queue);
      InheritSettled(s, u);
      NotQueued(u.mpx, id);
      FinishSettled(u, id);
    } else if terminal {
      LossKeepsRepeated(s, id);
      DropSettled(s);
      DropKeepsIds(s);
      FinishSettled(Drop(s), id);
    }
  }

  lemma {:induction false} OwedNow(s: Sys, e: Elem)
    requires Settled(s) && e.ec.Some?
    ensures e in s.mpx.queue ==> !OneShot(e)
  {
  }

  lemma {:induction false} NotQueued(s: Mpx, id: nat)
    requires !InQueue(s, id)
    ensures forall e :: e in s.queue ==> e.id != id
  {
  }

  lemma {:induction false} DropKeepsIds(s: Sys)
    ensures Drop(s).nextId == s.nextId && Drop(s).finished == s.finished
  {
    hide CancelOnConnLost;
  }

  lemma {:induction false} FinishLeaves(s: Sys, id: nat)
    requires Inv(s) && Settled(s) && Enabled(s, ExecFinished(id))
    ensures Settled(Finish(s, id)) && (InQueue(s.mpx, id) <==> StaysQueued(s.mpx, Find(s, id)))
  {
    hide Logs, Wf, Find, Settled, InQueue, AllWaiting, NoneWaiting, Everyone, Count;
    var e := Find(s, id);
    Known(s, id);
    NotifiedHasError(s.mpx, e);
    if e in s.mpx.queue {
      OwedNow(s, e);
    }
    FinishSettled(s, id);
  }

  lemma {:induction false} NotifiedHasError(s: Mpx, e: Elem)
    requires Wf(s) && e.notified > 0
    ensures e in s.queue ==> e.ec.Some?
  {
    if e in s.queue {
      assert QueuedOk(e);
    }
  }

  lemma {:induction false} StepSettled(s: Sys, ev: Event)
    requires Inv(s) && Settled(s) && Enabled(s, ev)
    ensures Settled(Next(s, ev))
  {
    hide Books, Submit, Start, WriterTurn, Drop, TakeRead, CancelOne, CommitWrite, CancelWaiting, Find;
    hide CommitRead, CanRead, AllWaiting, NoneWaiting, AllOwed;
    WfOf(s);
    match ev {
      case Exec(req) => SubmitSettled(s, req);
      case Launch(hello, ping) => StartSettled(s, hello, ping);
      case WriteDone => WriteDoneSettled(s);
      case WriteFailed => DropSettled(s);
      case TimerFired => TurnSettled(s);
      case ReadMessage(fault) => ReadSettled(s, fault);
      case ReadFailed => DropSettled(s);
      case CancelRun => DropSettled(s);
      case CancelExec =>
        CancelWaitingInherits(s.mpx);
        InheritSettled(s, s.(mpx := CancelWaiting(s.mpx)));
      case ExecCancelled(id, terminal) => CancelLeaves(s, id, terminal);
      case ExecFinished(id) => FinishLeaves(s, id);
      case _ =>
    }
  }

  lemma {:induction false} RunSettled(s: Sys, evs: seq<Event>)
    requires Inv(s) && Settled(s) && IsRun(s, evs)
    ensures Settled(After(s, evs))
    decreases |evs|
  {
    hide Books, Control, Next, Enabled, Settled;
    if evs != [] {
      StepKeepsBooks(s, evs[0]);
      StepKeepsControl(s, evs[0]);
      StaysSound(s, evs[0]);
      StepSettled(s, evs[0]);
      RunSettled(Next(s, evs[0]), evs[1..]);
    }
  }

  lemma {:induction false} InitSettled()
    ensures Settled(INIT)
  {
  }

  /** The steps that can complete an operation. */
  predicate Completes(ev: Event) {
    ev.ExecCancelled? || ev.ExecFinished?
  }

  lemma {:induction false} StepKeepsFinished(s: Sys, ev: Event)
    requires Enabled(s, ev)
    ensures s.finished <= Next(s, ev).finished
    ensures !Completes(ev) ==> Next(s, ev).finished == s.finished
  {
    hide PrepareWrite, CommitWrite, CancelWaiting, CancelOnConnLost, CommitRead, CanRead, Asked;
    hide Find, Remove, InQueue, Insert, Start;
    if ev.Launch? {
      StartKeepsFinished(s, ev.hello, ev.ping);
    }
  }

  lemma {:induction false} StartKeepsFinished(s: Sys, hello: Req, ping: Option<Req>)
    ensures Start(s, hello, ping).finished == s.finished
  {
    hide Add, Reset, PrepareWrite, Asked;
  }

  /** A completed operation stays completed. */
  lemma {:induction false} FinishedForGood(s: Sys, evs: seq<Event>)
    requires IsRun(s, evs)
    ensures s.finished <= After(s, evs).finished
    ensures (forall ev :: ev in evs ==> !Completes(ev)) ==> After(s, evs).finished == s.finished
    decreases |evs|
  {
    hide Next, Enabled;
    if evs != [] {
      StepKeepsFinished(s, evs[0]);
      assert evs[0] in evs;
      FinishedForGood(Next(s, evs[0]), evs[1..]);
    }
  }

  /** In every reachable state: a request that is queued although its operation has completed, or was told an
      error, is one that may be sent again.  So a caller that keeps a one-shot request alive until its
      operation completes keeps it alive as long as the queue refers to it. */
  lemma {:induction false} CompletedIsRepeated(evs: seq<Event>)
    requires IsRun(INIT, evs)
    ensures
      var s := After(INIT, evs);
      forall e :: e in s.mpx.queue && (e.id in s.finished || e.ec.Some?) ==> !e.req.cfg.cancelIfUnresponded
  {
    hide Inv, Next, Enabled, IsRun, After;
    InitInv();
    InitSettled();
    RunSettled(INIT, evs);
    var s := After(INIT, evs);
    forall e | e in s.mpx.queue && (e.id in s.finished || e.ec.Some?) ensures !e.req.cfg.cancelIfUnresponded {
      assert Owed(e, s.finished);
    }
  }

  /** And exactly when it happens: the step that completes an operation leaves its element in the queue if and
      only if the element is there, carries an error or is in flight, and its request may be sent again. */
  lemma {:induction false} CompletionLeavesQueued(evs: seq<Event>, ev: Event)
    requires IsRun(INIT, evs) && Enabled(After(INIT, evs), ev) && Completes(ev)
    requires ev.id in Next(After(INIT, evs), ev).finished
    ensures
      var s := After(INIT, evs);
      InQueue(Next(s, ev).mpx, ev.id) <==> StaysQueued(s.mpx, Find(s, ev.id))
  {
    hide Inv, IsRun, After, CancelOne, Settled, Find, StaysQueued, InQueue;
    InitInv();
    InitSettled();
    RunKeepsInv(INIT, evs);
    RunSettled(INIT, evs);
    var s := After(INIT, evs);
    match ev {
      case ExecCancelled(id, terminal) => CancelLeaves(s, id, terminal);
      case ExecFinished(id) => FinishLeaves(s, id);
    }
  }
}
