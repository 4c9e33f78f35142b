/** Replies refine a first-in first-out queue, over whole runs. */
module ReplyOrder {
  import opened Bytes
  import opened Request
  import opened MultiplexerSpec
  import opened Queues
  import opened Invariants
  import opened Correlation
  import opened Histories
  import opened ConnectionSpec
  import opened Runs
  import opened Safety
  import Parser = ParserSpec

  /** The connection is in use: its reader runs and it was not given up. */
  predicate Live(s: Sys) {
    s.reader && !s.mpx.cancelCalled
  }

  /** What the server was asked on this connection is what it answered so far followed by the slots that
      are due; after the connection is lost, what it answered is still a prefix of what it was asked. */
  predicate Fifo(s: Sys) {
    if Live(s) then s.asked == s.answered + Slots(s.mpx.queue) else s.answered <= s.asked
  }

  predicate WaitingUnanswered(q: seq<Elem>) {
    forall e :: e in q && e.IsWaiting() ==> Unanswered(e)
  }

  lemma {:induction false} BatchIsWaiting(q: seq<Elem>)
    requires Shape(q)
    ensures WaitingUnanswered(q) <==> forall e :: e in q[Lead(q)..] ==> Unanswered(e)
  {
    LeadIs(q);
    if forall e :: e in q[Lead(q)..] ==> Unanswered(e) {
      forall e | e in q && e.IsWaiting() ensures Unanswered(e) {
        var i :| 0 <= i < |q| && q[i] == e;
        assert q[Lead(q)..][i - Lead(q)] == e;
      }
    }
    if WaitingUnanswered(q) {
      forall e | e in q[Lead(q)..] ensures Unanswered(e) {
        var i :| Lead(q) <= i < |q| && q[i] == e;
      }
    }
  }

  /** Staging keeps the order of replies if and only if nothing that waits was answered in part before. */
  lemma {:induction false} TurnKeepsFifo(s: Sys)
    requires Wf(s.mpx) && Live(s) && Fifo(s)
    ensures Fifo(WriterTurn(s)) <==> WaitingUnanswered(s.mpx.queue)
  {
    hide Slots, Asked, Wf, Lead, MapElems, Stagings, Payloads, CommandCount, WaitingUnanswered;
    var q := s.mpx.queue;
    var batch := q[Lead(q)..];
    StagingAppendsSlots(s.mpx);
    ShapeOf(s.mpx);
    BatchIsWaiting(q);
    var before, now := Slots(q), Slots(PrepareWrite(s.mpx).queue);
    assert s.asked + Asked(batch) == s.answered + (before + Asked(batch));
    SameHead(s.answered, before + Asked(batch), now);
  }

  lemma {:induction false} DropKeepsFifo(s: Sys)
    requires Fifo(s)
    ensures Fifo(Drop(s))
  {
    hide Slots, Select, MapElems, Depart;
  }

  lemma {:induction false} SubmitKeepsFifo(s: Sys, req: Req)
    requires Fifo(s)
    ensures Fifo(Submit(s, req)) && Submit(s, req).reader == s.reader
    ensures Submit(s, req).mpx.cancelCalled == s.mpx.cancelCalled
    ensures WaitingUnanswered(s.mpx.queue) <==> WaitingUnanswered(Submit(s, req).mpx.queue)
  {
    hide Slots, Insert, Everyone;
    var e := MakeElem(s.nextId, req);
    AddKeepsSlots(s.mpx, e);
    AddDescends(s.mpx, e);
  }

  lemma {:induction false} StartKeepsFifo(s: Sys, hello: Req, ping: Option<Req>)
    requires Books(s) && InStep(s) && Enabled(s, Launch(hello, ping))
    ensures Fifo(Start(s, hello, ping)) <==> WaitingUnanswered(s.mpx.queue)
  {
    hide Slots, Submit, WriterTurn, Books, WaitingUnanswered, AllWaiting;
    var u := s.(mpx := Reset(s.mpx), asked := [], answered := [], appended := 0, reader := true,
                base := s.mpx.usage.responseBytes + s.mpx.usage.pushBytes);
    WaitingNoSlots(s.mpx.queue);
    assert [] == [] + Slots(u.mpx.queue);
    var v := Submit(u, hello);
    ResetKeepsBooks(s, u);
    SubmitKeepsFifo(u, hello);
    SubmitKeepsBooks(u, hello);
    WfOf(v);
    if ping.Some? {
      var w := Submit(v, ping.value);
      SubmitKeepsFifo(v, ping.value);
      SubmitKeepsBooks(v, ping.value);
      WfOf(w);
      TurnKeepsFifo(w);
    } else {
      TurnKeepsFifo(v);
    }
  }

  lemma {:induction false} WaitingNoSlots(q: seq<Elem>)
    requires AllWaiting(q)
    ensures Slots(q) == []
  {
    NoSlots(q);
  }

  lemma {:induction false} WriteDoneKeepsFifo(s: Sys)
    requires Wf(s.mpx) && Control(s) && Fifo(s) && s.writer.Writing?
    ensures Fifo(Next(s, WriteDone)) <==> (s.open ==> WaitingUnanswered(s.mpx.queue))
  {
    hide Slots, WriterTurn, Wf, CommitWrite, AllWaiting, NoneWaiting, WaitingUnanswered;
    CommitWriteKeeps(s.mpx);
    CommitWriteKeepsSlots(s.mpx);
    WriteEnds(s.mpx);
    CommitWriteUnanswered(s.mpx);
    if s.open {
      TurnKeepsFifo(s.(mpx := CommitWrite(s.mpx)));
    }
  }

  lemma {:induction false} CommitWriteUnanswered(s: Mpx)
    ensures WaitingUnanswered(s.queue) <==> WaitingUnanswered(CommitWrite(s).queue)
  {
    hide Select;
    var q := MapElems(s.queue, MarkWritten);
    MapMembers(s.queue, MarkWritten);
    SelectMembers(q, IsRetained);
    forall e | e in s.queue && e.IsWaiting() ensures e in CommitWrite(s).queue {
      assert MarkWritten(e) == e && e in q && IsRetained(e);
    }
  }

  lemma {:induction false} ReadKeepsFifo(s: Sys, fault: Option<Parser.Fault>)
    requires Wf(s.mpx) && Control(s) && Fifo(s) && Enabled(s, ReadMessage(fault))
    ensures Fifo(TakeRead(s, fault))
  {
    hide Slots, Wf, CommitRead, AllWaiting, NoneWaiting, ToSlot, Deliver;
    var r := CommitRead(s.mpx, fault);
    ReadKeepsStatus(s.mpx, fault);
    ReplyTakesHeadSlot(s.mpx, fault);
    PushIsPush(s.mpx, fault);
    var u := s.(mpx := r.mpx);
    if r.read.Message? && !r.read.push {
      ReplyHasFront(s.mpx, fault);
      HeadSlot(s.mpx.queue);
      HeadMoves(s.answered, Slots(s.mpx.queue));
    } else {
      assert Fifo(u);
      if r.read.Failure? {
        LostKeepsPrefix(u);
      }
    }
  }

  lemma {:induction false} HeadMoves(answered: seq<Slot>, due: seq<Slot>)
    requires due != []
    ensures answered + due == answered + [due[0]] + due[1..]
  {
    assert due == [due[0]] + due[1..];
  }

  lemma {:induction false} PushIsPush(s: Mpx, fault: Option<Parser.Fault>)
    requires CanRead(s)
    ensures CommitRead(s, fault).read.Message? ==> CommitRead(s, fault).read.push == (s.onPush || IsNextPush(s))
  {
    hide Parser.Parse, Deliver;
  }

  lemma {:induction false} LostKeepsPrefix(s: Sys)
    requires Fifo(s)
    ensures Fifo(Drop(s.(reader := false))) && Fifo(Drop(s).(reader := false))
  {
    hide Slots, Select, MapElems, Depart;
  }

  lemma {:induction false} CancelOneKeepsFifo(s: Sys, id: nat, terminal: bool)
    requires Fifo(s) && Holds(s, id)
    ensures Fifo(CancelOne(s, id, terminal))
  {
    hide Slots, Drop, Remove, Find, InQueue;
    if InQueue(s.mpx, id) {
      RemoveKeepsSlots(s.mpx, id);
      RemoveKeepsStatus(s.mpx, id);
    }
    DropKeepsFifo(s);
  }

  /** The steps that stage what waits. */
  predicate Stages(s: Sys, ev: Event) {
    ev.Launch? || ((ev.WriteDone? || ev.TimerFired?) && s.open)
  }

  /** A step keeps the order of replies if and only if it stages nothing that was answered in part. */
  lemma {:induction false} StepKeepsFifo(s: Sys, ev: Event)
    requires Inv(s) && Fifo(s) && Enabled(s, ev)
    ensures Fifo(Next(s, ev)) <==> (Stages(s, ev) ==> WaitingUnanswered(s.mpx.queue))
  {
    hide Slots, Books, Start, WriterTurn, Drop, TakeRead, CancelOne, CommitWrite, CancelWaiting, Find;
    hide CommitRead, Submit, WaitingUnanswered, AllWaiting, NoneWaiting;
    WfOf(s);
    match ev {
      case Exec(req) => SubmitKeepsFifo(s, req);
      case Launch(hello, ping) => StartKeepsFifo(s, hello, ping);
      case WriteDone => WriteDoneKeepsFifo(s);
      case WriteFailed => DropKeepsFifo(s);
      case TimerFired =>
        if s.open {
          TurnKeepsFifo(s);
        }
      case ReadMessage(fault) => ReadKeepsFifo(s, fault);
      case ReadFailed => LostKeepsPrefix(s);
      case CancelRun => DropKeepsFifo(s);
      case CancelExec =>
        CancelWaitingKeepsSlots(s.mpx);
        CancelWaitingKeepsBuffer(s.mpx);
      case ExecCancelled(id, terminal) => CancelOneKeepsFifo(s, id, terminal);
      case _ =>
    }
  }

  /** The replies are in order in every state of a run. */
  ghost predicate FifoThroughout(s: Sys, evs: seq<Event>)
    requires IsRun(s, evs)
    decreases |evs|
  {
    Fifo(s) && (evs == [] || FifoThroughout(Next(s, evs[0]), evs[1..]))
  }

  /** Whenever a step of the run stages what waits, none of it was answered in part. */
  ghost predicate StagesUnanswered(s: Sys, evs: seq<Event>)
    requires IsRun(s, evs)
    decreases |evs|
  {
    evs == [] ||
    ((Stages(s, evs[0]) ==> WaitingUnanswered(s.mpx.queue)) && StagesUnanswered(Next(s, evs[0]), evs[1..]))
  }

  /** Reply correlation refines a queue, exactly.  Over every run, with any requests and any number of
      connection losses: on each connection the replies taken so far and the slots still due are together,
      in order, what the server was asked, in every state, if and only if no step stages a request that was
      answered in part on an earlier connection. */
  lemma {:induction false} RepliesAreFifo(s: Sys, evs: seq<Event>)
    requires Inv(s) && Fifo(s) && IsRun(s, evs)
    ensures FifoThroughout(s, evs) <==> StagesUnanswered(s, evs)
    decreases |evs|
  {
    hide Books, Control, Next, Enabled, Fifo, WaitingUnanswered, Stages;
    if evs != [] {
      StepKeepsFifo(s, evs[0]);
      StepKeepsBooks(s, evs[0]);
      StepKeepsControl(s, evs[0]);
      StaysSound(s, evs[0]);
      if Fifo(Next(s, evs[0])) {
        RepliesAreFifo(Next(s, evs[0]), evs[1..]);
      } else {
        FifoNow(Next(s, evs[0]), evs[1..]);
      }
    }
  }

  lemma {:induction false} FifoNow(s: Sys, evs: seq<Event>)
    requires IsRun(s, evs)
    ensures FifoThroughout(s, evs) ==> Fifo(s)
  {
  }

  lemma {:induction false} RepliesAreFifoFromStart(evs: seq<Event>)
    requires IsRun(INIT, evs)
    ensures FifoThroughout(INIT, evs) <==> StagesUnanswered(INIT, evs)
  {
    hide Inv, Next, Enabled, IsRun, FifoThroughout, StagesUnanswered;
    InitInv();
    RepliesAreFifo(INIT, evs);
  }

  /** A request that can be repeated without confusing its replies: it is never repeated, or it has one
      reply at most. */
  predicate Repeatable(req: Req) {
    req.cfg.cancelIfUnresponded || req.expected <= 1
  }

  lemma {:induction false} RepeatableUnanswered(s: Sys)
    requires Books(s) && forall r :: r in s.submitted ==> Repeatable(r)
    ensures WaitingUnanswered(s.mpx.queue)
  {
    hide WireBytes, RepliesOk, StagedCount, Everyone, Distinct, UsageOk, ParserOk, Shape, AllGoneOk;
    forall e | e in s.mpx.queue && e.IsWaiting() ensures Unanswered(e) {
      InEveryone(s.mpx, e);
      assert QueuedOk(e) && Repeatable(e.req);
      assert OneShot(e) || e.req.expected <= 1;
    }
  }

  lemma {:induction false} SubmittedGrows(s: Sys, ev: Event)
    requires Enabled(s, ev)
    ensures forall r :: r in Next(s, ev).submitted ==>
                          r in s.submitted || (ev.Exec? && r == ev.req) || (ev.Launch? && r.cfg == DEFAULT_CONFIG)
  {
    hide Add, Reset, PrepareWrite, CommitWrite, CancelWaiting, CancelOnConnLost, CommitRead, CanRead, Asked;
    hide Find, Remove, InQueue;
  }

  lemma {:induction false} RepeatableRun(s: Sys, evs: seq<Event>)
    requires Inv(s) && IsRun(s, evs)
    requires forall r :: r in s.submitted ==> Repeatable(r)
    requires forall ev :: ev in evs && ev.Exec? ==> Repeatable(ev.req)
    ensures StagesUnanswered(s, evs)
    decreases |evs|
  {
    hide Books, Control, Next, Enabled, WaitingUnanswered, Stages;
    if evs != [] {
      RepeatableUnanswered(s);
      StepKeepsBooks(s, evs[0]);
      StepKeepsControl(s, evs[0]);
      StaysSound(s, evs[0]);
      SubmittedGrows(s, evs[0]);
      assert evs[0] in evs;
      RepeatableRun(Next(s, evs[0]), evs[1..]);
    }
  }

  /** What a caller can see to: with requests that are not to be repeated, or that have one reply at most, the
      replies are in order throughout. */
  lemma {:induction false} RepeatableIsFifo(evs: seq<Event>)
    requires IsRun(INIT, evs) && forall ev :: ev in evs && ev.Exec? ==> Repeatable(ev.req)
    ensures FifoThroughout(INIT, evs)
  {
    hide Inv, Next, Enabled, IsRun, FifoThroughout, StagesUnanswered;
    InitInv();
    RepeatableRun(INIT, evs);
    RepliesAreFifo(INIT, evs);
  }

  /** The case that goes wrong: a request of two commands that is to be repeated was answered once when the
      connection broke.  It is sent again in full, but only its second reply is waited for: the reply to
      its first command will be taken for the reply to the second. */
  lemma {:induction false} PartlyAnsweredExample(s: Mpx, size: nat)
    requires |s.queue| == 1 && s.queue[0].status.Written? && !s.cancelCalled
    requires s.queue[0].req.expected == 2 == s.queue[0].remaining && !s.queue[0].req.cfg.cancelIfUnresponded
    ensures
      var e := s.queue[0];
      var lost := Reset(CancelOnConnLost(CommitResponse(s, size)));
      && PrepareWrite(lost).writeBuffer == e.req.payload
      && Slots(PrepareWrite(lost).queue) == [Slot(e.id, 1)]
      && Asked(lost.queue) == [Slot(e.id, 0), Slot(e.id, 1)]
  {
    var e := s.queue[0];
    var d := e.(readSize := e.readSize + size, remaining := 1);
    var q := CommitResponse(s, size).queue;
    assert q == [d] && [d][..0] == [];
    assert Select([], Survives) == [];
    assert Select(q, Survives) == [] + [d];
    var w := Requeue(d);
    var lost := Reset(CancelOnConnLost(CommitResponse(s, size)));
    assert lost.queue == [w] && lost.queue[0..] == [w] && [w][..0] == [];
    assert Payloads([w]) == [] + e.req.payload;
    assert PrepareWrite(lost).queue == [Stage(w)];
    assert [Stage(w)][1..] == [] && [w][1..] == [];
    assert SlotsOf(Stage(w)) == [Slot(e.id, 1)];
    assert SlotsOf(MakeElem(e.id, e.req).Mark(Staged)) == [Slot(e.id, 0), Slot(e.id, 1)];
  }
}
