/** The life of one request on its own: what each step makes of it, told on its fields and flags alone. */
module Lifecycle {
  import opened Bytes
  import opened Resp3
  import opened MultiplexerSpec
  import opened Queues
  import opened Invariants
  import opened Correlation
  import opened Histories
  import opened ConnectionSpec
  import opened Runs
  import opened Safety
  import opened Completion
  import Parser = ParserSpec

  /** What becomes of an element: its new state, and how it leaves the queue, if it does. */
  datatype Fate = Fate(elem: Elem, exit: Option<Exit>)

  /** The caller is told an error, unless it was told one before. */
  function Told(e: Elem, error: Error): (f: Elem) {
    e.(ec := if e.ec.Some? then e.ec else Some(error), notified := e.notified + 1)
  }

  /** Handed to the writer, if it was not before. */
  function HandedOver(e: Elem): (f: Elem) {
    if e.status == Waiting then e.(status := Staged) else e
  }

  /** The connection is lost.  A request that waits leaves if it is to be cancelled with the connection, one that
      is in flight if it is to be cancelled without a response; any other waits for the next connection. */
  function AfterLoss(e: Elem): (f: Fate) {
    if (if e.status == Waiting then e.req.cfg.cancelOnConnectionLost else e.req.cfg.cancelIfUnresponded) then
      Fate(Told(e, OperationAborted), Some(Aborted))
    else Fate(e.(status := Waiting), None)
  }

  /** The end of a write: what was handed over is written, and what expects no reply is done. */
  function AfterWrite(e: Elem): (f: Fate) {
    if e.status == Waiting then Fate(e, None)
    else if e.req.expected == 0 then Fate(e.(status := Written, notified := e.notified + 1), Some(Released))
    else Fate(e.(status := Written), None)
  }

  /** A complete reply of this size for the request in front. */
  function AfterReply(e: Elem, size: nat): (f: Fate) {
    if e.remaining == 1 then
      Fate(e.(remaining := 0, readSize := e.readSize + size, notified := e.notified + 1), Some(Completed))
    else if e.remaining == 0 then Fate(e, None)
    else Fate(e.(remaining := e.remaining - 1, readSize := e.readSize + size), None)
  }

  /** The steps that close the connection. */
  ghost predicate Closes(s: Sys, ev: Event)
    requires Enabled(s, ev)
  {
    match ev
    case WriteFailed => true
    case ReadFailed => true
    case CancelRun => true
    case ReadMessage(fault) => CommitRead(s.mpx, fault).read.Failure?
    case ExecCancelled(id, terminal) => terminal && Find(s, id).ec.None? && Find(s, id).status != Waiting
    case _ => false
  }

  /** The first of them since the launch gives it up. */
  ghost predicate GivesUp(s: Sys, ev: Event)
    requires Enabled(s, ev)
  {
    !s.mpx.cancelCalled && Closes(s, ev)
  }

  /** What a step makes of an element of the queue. */
  ghost function FateOf(s: Sys, ev: Event, e: Elem): (f: Fate)
    requires Enabled(s, ev) && e in s.mpx.queue
  {
    if GivesUp(s, ev) then
      var refused := ev.ReadMessage? && !CommitRead(s.mpx, ev.fault).read.push && e.id == s.mpx.queue[0].id;
      AfterLoss(if refused then Told(e, CommitRead(s.mpx, ev.fault).read.error) else e)
    else
      match ev
      case Launch(_, _) => Fate(HandedOver(e), None)
      case TimerFired => Fate(if s.open then HandedOver(e) else e, None)
      case WriteDone =>
        var f := AfterWrite(e);
        if f.exit.None? && s.open then f.(elem := HandedOver(f.elem)) else f
      case CancelExec => if e.status == Waiting then Fate(Told(e, OperationAborted), Some(Aborted)) else Fate(e, None)
      case ReadMessage(fault) =>
        var r := CommitRead(s.mpx, fault).read;
        if r.Message? && !r.push && e.id == s.mpx.queue[0].id then AfterReply(e, r.size) else Fate(e, None)
      case ExecCancelled(id, _) =>
        if e.id == id && e.ec.None? && e.status == Waiting then Fate(e, Some(Removed)) else Fate(e, None)
      case _ => Fate(e, None)
  }

  /** The element left as aborted, with this error. */
  ghost predicate AbortedWith(s: Mpx, id: nat, ec: Option<Error>) {
    exists d :: d in s.gone && d.elem.id == id && d.exit == Aborted && d.elem.ec == ec
  }

  /** The element went there. */
  ghost predicate Meets(t: Mpx, f: Fate) {
    if f.exit.None? then f.elem in t.queue else Departure(f.elem, f.exit.value) in t.gone
  }

  // The operations of the multiplexer, element by element.

  lemma {:induction false} SelectKeeps(q: seq<Elem>, f: Elem -> bool, e: Elem)
    requires e in q && f(e)
    ensures e in Select(q, f)
  {
    hide Select;
    SelectMembers(q, f);
  }

  lemma {:induction false} MapKeepsElem(q: seq<Elem>, m: Elem -> Elem, e: Elem)
    requires e in q
    ensures m(e) in MapElems(q, m)
  {
    hide MapElems;
    MapMembers(q, m);
  }

  lemma {:induction false} Departs(gone: seq<Departure>, out: seq<Elem>, exit: Exit, e: Elem)
    requires e in out
    ensures Departure(e, exit) in gone + Depart(out, exit)
  {
    var i :| 0 <= i < |out| && out[i] == e;
    assert (gone + Depart(out, exit))[|gone| + i] == Departure(e, exit);
  }

  lemma {:induction false} PrepareFate(s: Mpx, e: Elem)
    requires Shape(s.queue) && e in s.queue
    ensures HandedOver(e) in PrepareWrite(s).queue
  {
    hide Shape, MapElems, Lead, Payloads, CommandCount, Stagings;
    PrepareIsMap(s);
    MapKeepsElem(s.queue, StageWaiting, e);
  }

  lemma {:induction false} CommitWriteFate(s: Mpx, e: Elem)
    requires e in s.queue
    ensures Meets(CommitWrite(s), AfterWrite(e))
  {
    hide Select, MapElems, Depart;
    var q, f := MapElems(s.queue, MarkWritten), MarkWritten(e);
    MapKeepsElem(s.queue, MarkWritten, e);
    if e.status != Waiting && e.req.expected == 0 {
      SelectKeeps(q, IsReleasable, f);
      MapKeepsElem(Select(q, IsReleasable), Release, f);
      Departs(s.gone, MapElems(Select(q, IsReleasable), Release), Released, Release(f));
    } else {
      SelectKeeps(q, IsRetained, f);
    }
  }

  lemma {:induction false} CancelWaitingFate(s: Mpx, e: Elem)
    requires e in s.queue
    ensures Meets(CancelWaiting(s),
                  if e.status == Waiting then Fate(Told(e, OperationAborted), Some(Aborted)) else Fate(e, None))
  {
    hide Select, MapElems, Depart;
    if e.status == Waiting {
      SelectKeeps(s.queue, IsWaiting, e);
      MapKeepsElem(Select(s.queue, IsWaiting), Abort, e);
      Departs(s.gone, MapElems(Select(s.queue, IsWaiting), Abort), Aborted, Abort(e));
    } else {
      SelectKeeps(s.queue, IsActive, e);
    }
  }

  lemma {:induction false} LossFate(s: Mpx, e: Elem)
    requires !s.cancelCalled && e in s.queue
    ensures Meets(CancelOnConnLost(s), AfterLoss(e))
  {
    hide Select, MapElems, Depart;
    if Perishes(e) {
      SelectKeeps(s.queue, Perishes, e);
      MapKeepsElem(Select(s.queue, Perishes), Abort, e);
      Departs(s.gone, MapElems(Select(s.queue, Perishes), Abort), Aborted, Abort(e));
    } else {
      SelectKeeps(s.queue, Survives, e);
      MapKeepsElem(Select(s.queue, Survives), Requeue, e);
    }
  }

  lemma {:induction false} RemoveFate(s: Mpx, id: nat, e: Elem)
    requires InQueue(s, id) && e in s.queue && s.queue[IndexOf(s.queue, id)].IsWaiting()
    ensures Meets(Remove(s, id), if e == s.queue[IndexOf(s.queue, id)] then Fate(e, Some(Removed)) else Fate(e, None))
  {
    var i, t := IndexOf(s.queue, id), Remove(s, id);
    var j :| 0 <= j < |s.queue| && s.queue[j] == e;
    if e == s.queue[i] {
      assert t.gone[|s.gone|] == Departure(e, Removed);
    } else {
      assert t.queue[if j < i then j else j - 1] == e;
    }
  }

  /** The one in front takes the reply; the others stay as they are. */
  lemma {:induction false} ResponseFate(s: Mpx, size: nat, e: Elem)
    requires Distinct(s) && e in s.queue && s.queue[0].remaining > 0
    ensures Meets(CommitResponse(s, size), if e.id == s.queue[0].id then AfterReply(e, size) else Fate(e, None))
  {
    hide Count;
    var t := CommitResponse(s, size);
    var j :| 0 <= j < |s.queue| && s.queue[j] == e;
    if e.id == s.queue[0].id {
      assert Everyone(s)[0] == s.queue[0] && Everyone(s)[j] == e;
      CountedOnce(Everyone(s), 0);
      if e.remaining == 1 {
        assert t.gone[|s.gone|].elem == AfterReply(e, size).elem;
      } else {
        assert t.queue[0] == AfterReply(e, size).elem;
      }
    } else {
      assert t.queue[j - (|s.queue| - |t.queue|)] == e;
    }
  }

  /** What a read does to the queue and to those that left. */
  lemma {:induction false} ReadParts(s: Mpx, fault: Option<Parser.Fault>)
    requires CanRead(s)
    ensures
      var r, m := CommitRead(s, fault).read, CommitRead(s, fault).mpx;
      && (r.Message? && !r.push ==>
            && s.queue != [] && s.queue[0].remaining > 0
            && m.queue == CommitResponse(s, r.size).queue && m.gone == CommitResponse(s, r.size).gone)
      && (r.Failure? && !r.push ==>
            s.queue != [] && m.queue == s.queue[0 := s.queue[0].NotifyError(r.error)] && m.gone == s.gone)
      && (!(r.Message? || r.Failure?) || r.push ==> m.queue == s.queue && m.gone == s.gone)
      && m.cancelCalled == s.cancelCalled
  {
    hide Parser.Parse, Deliver;
  }

  lemma {:induction false} ReadFate(s: Mpx, fault: Option<Parser.Fault>, e: Elem)
    requires CanRead(s) && Distinct(s) && e in s.queue && !CommitRead(s, fault).read.Failure?
    ensures
      var r := CommitRead(s, fault).read;
      Meets(CommitRead(s, fault).mpx,
            if r.Message? && !r.push && e.id == s.queue[0].id then AfterReply(e, r.size) else Fate(e, None))
  {
    hide CommitRead, CommitResponse;
    ReadParts(s, fault);
    var r := CommitRead(s, fault).read;
    if r.Message? && !r.push {
      ResponseFate(s, r.size, e);
    }
  }

  lemma {:induction false} RefusedFate(s: Mpx, fault: Option<Parser.Fault>, e: Elem)
    requires CanRead(s) && Distinct(s) && e in s.queue && !s.cancelCalled && CommitRead(s, fault).read.Failure?
    ensures
      var r := CommitRead(s, fault);
      Meets(CancelOnConnLost(r.mpx),
            AfterLoss(if !r.read.push && e.id == s.queue[0].id then Told(e, r.read.error) else e))
  {
    hide CommitRead, CancelOnConnLost, AfterLoss, Count;
    ReadParts(s, fault);
    var r := CommitRead(s, fault);
    var j :| 0 <= j < |s.queue| && s.queue[j] == e;
    if !r.read.push && e.id == s.queue[0].id {
      assert Everyone(s)[0] == s.queue[0] && Everyone(s)[j] == e;
      CountedOnce(Everyone(s), 0);
      assert r.mpx.queue[0] == Told(e, r.read.error);
      LossFate(r.mpx, Told(e, r.read.error));
    } else {
      assert r.mpx.queue[j] == e;
      LossFate(r.mpx, e);
    }
  }

  // The steps of the connection.

  lemma {:induction false} TurnFate(s: Sys, e: Elem)
    requires Shape(s.mpx.queue) && e in s.mpx.queue
    ensures HandedOver(e) in WriterTurn(s).mpx.queue
  {
    hide PrepareWrite, Asked, Shape;
    PrepareFate(s.mpx, e);
  }

  lemma {:induction false} SubmitKeepsElem(s: Sys, req: Req, e: Elem)
    requires e in s.mpx.queue
    ensures e in Submit(s, req).mpx.queue
  {
    hide Insert, Everyone;
    AddDescends(s.mpx, MakeElem(s.nextId, req));
  }

  lemma {:induction false} StartFate(s: Sys, hello: Req, ping: Option<Req>, e: Elem)
    requires Books(s) && e in s.mpx.queue
    ensures HandedOver(e) in Start(s, hello, ping).mpx.queue
  {
    hide Books, Submit, WriterTurn;
    var u := s.(mpx := Reset(s.mpx), asked := [], answered := [], appended := 0, reader := true,
                base := s.mpx.usage.responseBytes + s.mpx.usage.pushBytes);
    ResetKeepsBooks(s, u);
    SubmitKeepsElem(u, hello, e);
    SubmitKeepsBooks(u, hello);
    var v := Submit(u, hello);
    WfOf(v);
    ShapeOf(v.mpx);
    if ping.Some? {
      SubmitKeepsElem(v, ping.value, e);
      SubmitKeepsBooks(v, ping.value);
      WfOf(Submit(v, ping.value));
      ShapeOf(Submit(v, ping.value).mpx);
      TurnFate(Submit(v, ping.value), e);
    } else {
      TurnFate(v, e);
    }
  }

  lemma {:induction false} WriteDoneFate(s: Sys, e: Elem)
    requires Wf(s.mpx) && e in s.mpx.queue
    ensures
      var f := AfterWrite(e);
      Meets(WriteOver(s, true).mpx, if f.exit.None? && s.open then f.(elem := HandedOver(f.elem)) else f)
  {
    hide Wf, CommitWrite, AfterWrite, PrepareWrite, Asked;
    CommitWriteFate(s.mpx, e);
    var u, f := s.(mpx := CommitWrite(s.mpx)), AfterWrite(e);
    CommitWriteKeeps(s.mpx);
    ShapeOf(u.mpx);
    if s.open {
      PrepareKeepsGone(u.mpx);
      if f.exit.None? {
        TurnFate(u, f.elem);
      }
    }
  }

  lemma {:induction false} PrepareKeepsGone(s: Mpx)
    ensures PrepareWrite(s).gone == s.gone
  {
    hide Lead, MapElems, Payloads, CommandCount, Stagings;
  }

  lemma {:induction false} CancelOneFate(s: Sys, id: nat, terminal: bool, e: Elem)
    requires Inv(s) && Enabled(s, ExecCancelled(id, terminal)) && e in s.mpx.queue
    ensures Meets(CancelOne(s, id, terminal).mpx, FateOf(s, ExecCancelled(id, terminal), e))
  {
    hide Logs, Wf, Find, Remove, CancelOnConnLost, InQueue, AllWaiting, NoneWaiting, Everyone, Count, AfterLoss;
    var x := Find(s, id);
    Known(s, id);
    if x.ec.None? && x.IsWaiting() {
      WaitingIsQueued(s, id);
      RemoveFate(s.mpx, id, e);
    } else if x.ec.None? && terminal {
      if s.mpx.cancelCalled {
        LostTwice(s.mpx);
      } else {
        LossFate(s.mpx, e);
      }
    }
  }

  lemma {:induction false} DropFate(s: Sys, e: Elem)
    requires e in s.mpx.queue
    ensures Meets(Drop(s).mpx, if s.mpx.cancelCalled then Fate(e, None) else AfterLoss(e))
  {
    hide CancelOnConnLost, AfterLoss;
    if s.mpx.cancelCalled {
      LostTwice(s.mpx);
    } else {
      LossFate(s.mpx, e);
    }
  }

  lemma {:induction false} TakeReadFate(s: Sys, fault: Option<Parser.Fault>, e: Elem)
    requires Inv(s) && Enabled(s, ReadMessage(fault)) && e in s.mpx.queue
    ensures Meets(TakeRead(s, fault).mpx, FateOf(s, ReadMessage(fault), e))
  {
    hide Logs, Wf, CommitRead, CancelOnConnLost, AllWaiting, NoneWaiting, Everyone, Count, AfterLoss, AfterReply;
    DistinctOf(s.mpx);
    if CommitRead(s.mpx, fault).read.Failure? {
      RefusedFate(s.mpx, fault, e);
    } else {
      ReadFate(s.mpx, fault, e);
    }
  }

  lemma {:induction false} StepFate(s: Sys, ev: Event, e: Elem)
    requires Inv(s) && Enabled(s, ev) && e in s.mpx.queue
    ensures Meets(Next(s, ev).mpx, FateOf(s, ev, e))
  {
    hide Books, Submit, Start, WriterTurn, Drop, TakeRead, CancelOne, WriteOver, CancelWaiting, Find, CommitRead;
    hide CanRead, AllWaiting, NoneWaiting, AfterLoss, AfterWrite, AfterReply;
    WfOf(s);
    match ev {
      case Exec(req) => SubmitKeepsElem(s, req, e);
      case Launch(hello, ping) => StartFate(s, hello, ping, e);
      case WriteDone => WriteDoneFate(s, e);
      case WriteFailed => FailedWriteFate(s, e);
      case TimerFired =>
        ShapeOf(s.mpx);
        TurnFate(s, e);
      case ReadMessage(fault) => TakeReadFate(s, fault, e);
      case ReadFailed => DropFate(s, e);
      case CancelRun => DropFate(s, e);
      case CancelExec => CancelWaitingFate(s.mpx, e);
      case ExecCancelled(id, terminal) => CancelOneFate(s, id, terminal, e);
      case _ =>
    }
  }

  lemma {:induction false} FailedWriteFate(s: Sys, e: Elem)
    requires e in s.mpx.queue
    ensures Meets(WriteOver(s, false).mpx, if s.mpx.cancelCalled then Fate(e, None) else AfterLoss(e))
  {
    hide Drop, AfterLoss;
    DropFate(s, e);
  }

  // Those that left stay as they were.

  lemma {:induction false} OperationsKeepGone(s: Mpx)
    ensures s.gone <= CommitWrite(s).gone && s.gone <= CancelWaiting(s).gone && s.gone <= CancelOnConnLost(s).gone
  {
    hide Select, MapElems, Depart;
  }

  lemma {:induction false} RemoveKeepsGone(s: Mpx, id: nat)
    requires InQueue(s, id)
    ensures s.gone <= Remove(s, id).gone
  {
  }

  lemma {:induction false} ReadKeepsGone(s: Mpx, fault: Option<Parser.Fault>)
    requires CanRead(s)
    ensures s.gone <= CommitRead(s, fault).mpx.gone
  {
    hide CommitRead;
    ReadParts(s, fault);
  }

  lemma {:induction false} DropKeepsGone(s: Sys)
    ensures s.mpx.gone <= Drop(s).mpx.gone
  {
    hide CancelOnConnLost;
    OperationsKeepGone(s.mpx);
  }

  lemma {:induction false} TurnKeepsGone(s: Sys)
    ensures WriterTurn(s).mpx.gone == s.mpx.gone
  {
    hide PrepareWrite, Asked;
    PrepareKeepsGone(s.mpx);
  }

  lemma {:induction false} SubmitKeepsGone(s: Sys, req: Req)
    ensures Submit(s, req).mpx.gone == s.mpx.gone
  {
    hide Insert;
  }

  lemma {:induction false} WriteDoneKeepsGone(s: Sys)
    ensures s.mpx.gone <= WriteOver(s, true).mpx.gone
  {
    hide CommitWrite, WriterTurn;
    OperationsKeepGone(s.mpx);
    TurnKeepsGone(s.(mpx := CommitWrite(s.mpx)));
  }

  lemma {:induction false} TakeReadKeepsGone(s: Sys, fault: Option<Parser.Fault>)
    requires CanRead(s.mpx)
    ensures s.mpx.gone <= TakeRead(s, fault).mpx.gone
  {
    hide CommitRead, CanRead, Drop;
    var u := s.(mpx := CommitRead(s.mpx, fault).mpx, reader := false);
    ReadKeepsGone(s.mpx, fault);
    DropKeepsGone(u);
    Longer(s.mpx.gone, u.mpx.gone, Drop(u).mpx.gone);
  }

  lemma {:induction false} Longer(a: seq<Departure>, b: seq<Departure>, c: seq<Departure>)
    requires a <= b <= c
    ensures a <= c
  {
  }

  lemma {:induction false} CancelOneKeepsGone(s: Sys, id: nat, terminal: bool)
    requires Holds(s, id)
    ensures s.mpx.gone <= CancelOne(s, id, terminal).mpx.gone
  {
    hide Remove, Drop, InQueue, Find;
    DropKeepsGone(s);
    if InQueue(s.mpx, id) {
      RemoveKeepsGone(s.mpx, id);
    }
  }

  lemma {:induction false} StepKeepsGone(s: Sys, ev: Event)
    requires Enabled(s, ev)
    ensures s.mpx.gone <= Next(s, ev).mpx.gone
  {
    hide Submit, CancelWaiting, CancelOne, TakeRead, Drop, WriterTurn, Find, CommitRead, CanRead, Start, CommitWrite;
    match ev {
      case Exec(req) => SubmitKeepsGone(s, req);
      case Launch(hello, ping) => StartKeepsGone(s, hello, ping);
      case WriteDone => WriteDoneKeepsGone(s);
      case TimerFired => TurnKeepsGone(s);
      case ReadMessage(fault) => TakeReadKeepsGone(s, fault);
      case CancelExec => OperationsKeepGone(s.mpx);
      case ExecCancelled(id, terminal) => CancelOneKeepsGone(s, id, terminal);
      case _ => DropKeepsGone(s);
    }
  }

  lemma {:induction false} StartKeepsGone(s: Sys, hello: Req, ping: Option<Req>)
    ensures Start(s, hello, ping).mpx.gone == s.mpx.gone
  {
    hide Insert, WriterTurn;
    TurnKeepsGone(Greet(s, hello, ping));
  }

  /** The life of a request.  In every reachable state, for every enabled step: an element of the queue becomes
      what its own fields and flags say, and is then in the queue or gone as they say; one that left has left
      for good and does not change; no element is in two places. */
  lemma {:induction false} LifeOfARequest(evs: seq<Event>, ev: Event)
    requires IsRun(INIT, evs) && Enabled(After(INIT, evs), ev)
    ensures
      var s, t := After(INIT, evs), Next(After(INIT, evs), ev);
      && (forall e :: e in s.mpx.queue ==>
            && Meets(t.mpx, FateOf(s, ev, e)) && FateOf(s, ev, e).elem.id == e.id
            && (InQueue(t.mpx, e.id) <==> FateOf(s, ev, e).exit.None?))
      && s.mpx.gone <= t.mpx.gone
      && (forall d :: d in s.mpx.gone ==> !InQueue(t.mpx, d.elem.id))
  {
    hide IsRun, After, Next, Enabled, Inv, InQueue, Meets, FateOf;
    InitInv();
    RunKeepsInv(INIT, evs);
    var s := After(INIT, evs);
    StepKeepsGone(s, ev);
    forall e | e in s.mpx.queue
      ensures Meets(Next(s, ev).mpx, FateOf(s, ev, e)) && FateOf(s, ev, e).elem.id == e.id
      ensures InQueue(Next(s, ev).mpx, e.id) <==> FateOf(s, ev, e).exit.None?
    {
      OnePlace(s, ev, e);
    }
    forall d | d in s.mpx.gone ensures !InQueue(Next(s, ev).mpx, d.elem.id) {
      StepKeepsDistinct(s, ev);
      GoneIsNotQueued(Next(s, ev).mpx, d);
    }
  }

  lemma {:induction false} StepKeepsDistinct(s: Sys, ev: Event)
    requires Inv(s) && Enabled(s, ev)
    ensures Distinct(Next(s, ev).mpx)
  {
    hide Next, Enabled, Logs, Wf, Control, Distinct;
    StepKeepsBooks(s, ev);
    DistinctOf(Next(s, ev).mpx);
  }

  lemma {:induction false} GoneIsNotQueued(s: Mpx, d: Departure)
    requires Distinct(s) && d in s.gone
    ensures !InQueue(s, d.elem.id)
  {
    hide Count;
    var j :| 0 <= j < |s.gone| && s.gone[j] == d;
    var all := Everyone(s);
    assert all[|s.queue| + j] == d.elem;
    CountedOnce(all, |s.queue| + j);
    forall i | 0 <= i < |s.queue| ensures s.queue[i].id != d.elem.id {
      assert all[i] == s.queue[i];
    }
  }

  lemma {:induction false} FateKeepsId(s: Sys, ev: Event, e: Elem)
    requires Enabled(s, ev) && e in s.mpx.queue
    ensures FateOf(s, ev, e).elem.id == e.id && FateOf(s, ev, e).elem.req == e.req
  {
    hide CommitRead, CanRead, Find;
  }

  lemma {:induction false} OnePlace(s: Sys, ev: Event, e: Elem)
    requires Inv(s) && Enabled(s, ev) && e in s.mpx.queue
    ensures Meets(Next(s, ev).mpx, FateOf(s, ev, e)) && FateOf(s, ev, e).elem.id == e.id
    ensures InQueue(Next(s, ev).mpx, e.id) <==> FateOf(s, ev, e).exit.None?
  {
    hide Next, Enabled, Inv, FateOf, Distinct;
    StepFate(s, ev, e);
    FateKeepsId(s, ev, e);
    StepKeepsDistinct(s, ev);
    var t, f := Next(s, ev).mpx, FateOf(s, ev, e);
    if f.exit.None? {
      var i :| 0 <= i < |t.queue| && t.queue[i] == f.elem;
    } else {
      GoneIsNotQueued(t, Departure(f.elem, f.exit.value));
    }
  }

  /** An element, queued or gone, is still known after a step. */
  lemma {:induction false} StillThere(s: Sys, ev: Event, e: Elem) returns (f: Elem)
    requires Inv(s) && Enabled(s, ev) && e in Everyone(s.mpx)
    ensures f in Everyone(Next(s, ev).mpx) && f.id == e.id && f.req == e.req
  {
    hide Next, Enabled, Inv, FateOf, Everyone, InQueue;
    var t := Next(s, ev).mpx;
    InEveryone(s.mpx, e);
    if e in s.mpx.queue {
      OnePlace(s, ev, e);
      FateKeepsId(s, ev, e);
      var x := FateOf(s, ev, e);
      assert x.exit.Some? ==> Departure(x.elem, x.exit.value).elem == x.elem;
      f := x.elem;
    } else {
      StepKeepsGone(s, ev);
      var d :| d in s.mpx.gone && d.elem == e;
      assert d in t.gone;
      f := e;
    }
    InEveryone(t, f);
  }
}
