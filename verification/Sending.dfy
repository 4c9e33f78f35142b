/** What was put on the wire: whole payloads of requests, and how many commands they hold. */
module Sending {
  import opened Bytes
  import opened MultiplexerSpec
  import opened Queues
  import opened Invariants
  import opened Correlation
  import opened Histories
  import opened ConnectionSpec
  import opened Runs
  import opened Safety
  import opened Lifecycle
  import Parser = ParserSpec

  function Commands(ss: seq<Staging>): (n: nat) {
    if ss == [] then 0 else Commands(ss[..|ss| - 1]) + ss[|ss| - 1].commands
  }

  lemma {:induction false} CommandsAppend(a: seq<Staging>, b: seq<Staging>)
    ensures Commands(a + b) == Commands(a) + Commands(b)
  {
    if b == [] {
      assert a + b == a;
    } else {
      CommandsAppend(a, b[..|b| - 1]);
      assert (a + b)[..|a + b| - 1] == a + b[..|b| - 1];
    }
  }

  lemma {:induction false} CommandsOfBatch(es: seq<Elem>)
    ensures CommandCount(es) == Commands(Stagings(es))
  {
    if es != [] {
      CommandsOfBatch(es[..|es| - 1]);
      assert Stagings(es)[..|es| - 1] == Stagings(es[..|es| - 1]);
    }
  }

  /** It is the payload of this request. */
  predicate Holds(e: Elem, x: Staging) {
    e.id == x.id && e.req.payload == x.payload && e.req.commands == x.commands
  }

  ghost predicate Queued(q: seq<Elem>, x: Staging) {
    exists e :: e in q && Holds(e, x)
  }

  /** What was staged since `s` belongs to requests that are now in the queue, and its commands were counted. */
  ghost predicate Grew(s: Mpx, t: Mpx) {
    && s.staged <= t.staged
    && (forall i :: |s.staged| <= i < |t.staged| ==> Queued(t.queue, t.staged[i]))
    && t.usage.commandsSent - Commands(t.staged) == s.usage.commandsSent - Commands(s.staged)
  }

  lemma {:induction false} PrepareGrew(s: Mpx)
    requires Shape(s.queue)
    ensures Grew(s, PrepareWrite(s))
  {
    hide Shape, Lead, Payloads, CommandCount, Commands, MapElems;
    var t, batch := PrepareWrite(s), s.queue[Lead(s.queue)..];
    CommandsOfBatch(batch);
    CommandsAppend(s.staged, Stagings(batch));
    forall i | |s.staged| <= i < |t.staged| ensures Queued(t.queue, t.staged[i]) {
      var e := batch[i - |s.staged|];
      assert e in s.queue && t.staged[i] == Staging(e.id, e.req.payload, e.req.commands);
      PrepareFate(s, e);
      assert Holds(HandedOver(e), t.staged[i]);
    }
  }

  /** `prepare_write`: the payloads of what waits go behind what is in the buffer, in order; the bytes counted are
      those of the whole buffer, the commands those of the batch. */
  lemma {:induction false} PrepareCounts(s: Mpx)
    requires Shape(s.queue)
    ensures
      var t, batch := PrepareWrite(s), Select(s.queue, IsWaiting);
      && t.writeBuffer == s.writeBuffer + Payloads(batch) && t.usage.bytesSent == s.usage.bytesSent + |t.writeBuffer|
      && t.usage.commandsSent == s.usage.commandsSent + CommandCount(batch)
      && t.staged == s.staged + Stagings(batch)
  {
    hide Payloads, CommandCount, Stagings, MapElems, Select, Shape, Lead;
    WaitingIsTail(s.queue);
  }

  lemma {:induction false} WaitingIsTail(q: seq<Elem>)
    requires Shape(q)
    ensures Select(q, IsWaiting) == q[Lead(q)..]
  {
    hide Select, Shape;
    LeadIs(q);
    var k := Lead(q);
    assert q == q[..k] + q[k..];
    SelectAppend(q[..k], q[k..], IsWaiting);
    SelectNone(q[..k], IsWaiting);
    SelectAll(q[k..], IsWaiting);
  }

  lemma {:induction false} SameGrew(s: Mpx, t: Mpx)
    requires t.staged == s.staged && t.usage.commandsSent == s.usage.commandsSent
    ensures Grew(s, t)
  {
  }

  /** From `s`, through a state with the same log, a turn of the writer. */
  lemma {:induction false} TurnGrew(s: Mpx, u: Sys)
    requires Wf(u.mpx) && u.mpx.staged == s.staged && u.mpx.usage.commandsSent == s.usage.commandsSent
    ensures Grew(s, WriterTurn(u).mpx)
  {
    hide Wf, PrepareWrite, Asked, Commands;
    ShapeOf(u.mpx);
    PrepareGrew(u.mpx);
  }

  lemma {:induction false} LogKept(s: Mpx)
    ensures CommitWrite(s).staged == s.staged && CommitWrite(s).usage == s.usage
    ensures CancelWaiting(s).staged == s.staged && CancelWaiting(s).usage == s.usage
    ensures CancelOnConnLost(s).staged == s.staged && CancelOnConnLost(s).usage == s.usage
  {
    hide Select, MapElems, Depart;
  }

  lemma {:induction false} ReadKeepsLog(s: Mpx, fault: Option<Parser.Fault>)
    requires CanRead(s)
    ensures
      var t := CommitRead(s, fault).mpx;
      t.staged == s.staged && t.usage.commandsSent == s.usage.commandsSent
  {
    hide Parser.Parse, Deliver;
  }

  lemma {:induction false} RemoveKeepsLog(s: Mpx, id: nat)
    requires InQueue(s, id)
    ensures Remove(s, id).staged == s.staged && Remove(s, id).usage == s.usage
  {
  }

  lemma {:induction false} SubmitKeepsLog(s: Sys, req: Req)
    ensures Submit(s, req).mpx.staged == s.mpx.staged && Submit(s, req).mpx.usage == s.mpx.usage
  {
    hide Insert;
  }

  lemma {:induction false} StartGrew(s: Sys, hello: Req, ping: Option<Req>)
    requires Books(s)
    ensures Grew(s.mpx, Start(s, hello, ping).mpx)
  {
    hide Books, Submit, WriterTurn, Grew;
    var u := s.(mpx := Reset(s.mpx), asked := [], answered := [], appended := 0, reader := true,
                base := s.mpx.usage.responseBytes + s.mpx.usage.pushBytes);
    ResetKeepsBooks(s, u);
    SubmitKeepsLog(u, hello);
    SubmitKeepsBooks(u, hello);
    var v := Submit(u, hello);
    WfOf(v);
    if ping.Some? {
      SubmitKeepsLog(v, ping.value);
      SubmitKeepsBooks(v, ping.value);
      WfOf(Submit(v, ping.value));
      TurnGrew(s.mpx, Submit(v, ping.value));
    } else {
      TurnGrew(s.mpx, v);
    }
  }

  lemma {:induction false} StepGrew(s: Sys, ev: Event)
    requires Inv(s) && Enabled(s, ev)
    ensures Grew(s.mpx, Next(s, ev).mpx)
  {
    hide Books, Submit, Start, WriterTurn, TakeRead, Remove, CommitWrite, CancelWaiting, CancelOnConnLost, Find;
    hide CommitRead, CanRead, InQueue, AllWaiting, NoneWaiting, Grew;
    WfOf(s);
    LogKept(s.mpx);
    SameGrew(s.mpx, s.mpx);
    match ev {
      case Exec(req) =>
        SubmitKeepsLog(s, req);
        SameGrew(s.mpx, Submit(s, req).mpx);
      case Launch(hello, ping) => StartGrew(s, hello, ping);
      case WriteDone =>
        CommitWriteKeeps(s.mpx);
        TurnGrew(s.mpx, s.(mpx := CommitWrite(s.mpx)));
        SameGrew(s.mpx, CommitWrite(s.mpx));
      case TimerFired => TurnGrew(s.mpx, s);
      case Receive(data) => SameGrew(s.mpx, Append(s.mpx, data));
      case ReadMessage(fault) =>
        TakeReadKeepsLog(s, fault);
        SameGrew(s.mpx, TakeRead(s, fault).mpx);
      case CancelExec => SameGrew(s.mpx, CancelWaiting(s.mpx));
      case ExecCancelled(id, _) =>
        SameGrew(s.mpx, CancelOnConnLost(s.mpx));
        if InQueue(s.mpx, id) {
          RemoveKeepsLog(s.mpx, id);
          SameGrew(s.mpx, Remove(s.mpx, id));
        }
      case _ => SameGrew(s.mpx, CancelOnConnLost(s.mpx));
    }
  }

  lemma {:induction false} TakeReadKeepsLog(s: Sys, fault: Option<Parser.Fault>)
    requires CanRead(s.mpx)
    ensures
      var t := TakeRead(s, fault).mpx;
      t.staged == s.mpx.staged && t.usage.commandsSent == s.mpx.usage.commandsSent
  {
    hide CommitRead, CancelOnConnLost;
    ReadKeepsLog(s.mpx, fault);
    LogKept(CommitRead(s.mpx, fault).mpx);
  }

  /** Everything staged is the payload of a request that was submitted, and the commands add up. */
  ghost predicate Accounted(s: Mpx) {
    && s.usage.commandsSent == Commands(s.staged)
    && forall i :: 0 <= i < |s.staged| ==> Queued(Everyone(s), s.staged[i])
  }

  lemma {:induction false} StepAccounted(s: Sys, ev: Event)
    requires Inv(s) && Enabled(s, ev) && Accounted(s.mpx)
    ensures Accounted(Next(s, ev).mpx)
  {
    hide Next, Enabled, Inv, Everyone, Commands;
    StepGrew(s, ev);
    var m, t := s.mpx, Next(s, ev).mpx;
    forall i | 0 <= i < |t.staged| ensures Queued(Everyone(t), t.staged[i]) {
      if i < |m.staged| {
        assert t.staged[i] == m.staged[i];
        var e :| e in Everyone(m) && Holds(e, m.staged[i]);
        var f := StillThere(s, ev, e);
      } else {
        var e :| e in t.queue && Holds(e, t.staged[i]);
        InEveryone(t, e);
      }
    }
  }

  lemma {:induction false} RunAccounted(s: Sys, evs: seq<Event>)
    requires Inv(s) && IsRun(s, evs) && Accounted(s.mpx)
    ensures Accounted(After(s, evs).mpx)
    decreases |evs|
  {
    hide Next, Enabled, Books, Control, Accounted;
    if evs != [] {
      StepKeepsBooks(s, evs[0]);
      StepKeepsControl(s, evs[0]);
      StaysSound(s, evs[0]);
      StepAccounted(s, evs[0]);
      RunAccounted(Next(s, evs[0]), evs[1..]);
    }
  }

  lemma {:induction false} NothingSent()
    ensures Accounted(INIT.mpx)
  {
  }

  /** Over every run: what was written is a sequence of whole payloads of requests that were submitted, the bytes
      counted are their bytes and the commands counted are their commands. */
  lemma {:induction false} SentIsRequested(evs: seq<Event>)
    requires IsRun(INIT, evs)
    ensures
      var s := After(INIT, evs).mpx;
      && s.usage.bytesSent == |WireBytes(s.staged)|
      && s.usage.commandsSent == Commands(s.staged)
      && forall i :: 0 <= i < |s.staged| ==> Queued(Everyone(s), s.staged[i])
  {
    hide IsRun, After, Next, Enabled, Control, Wf, Everyone, WireBytes, Commands, RepliesOk, StagedOnce;
    InitInv();
    NothingSent();
    RunKeepsInv(INIT, evs);
    RunAccounted(INIT, evs);
  }
}
