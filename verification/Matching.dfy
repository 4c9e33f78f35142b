/** Which request the server's replies reach.  The messages of a connection that are not of the push type are
    the server's answers, in the order in which it was asked; an observer logs where each of them goes. */
module Matching {
  import opened Bytes
  import opened Resp3
  import opened MultiplexerSpec
  import opened Queues
  import opened Invariants
  import opened Correlation
  import opened Classification
  import opened ConnectionSpec
  import opened Runs
  import opened Safety
  import opened ReplyOrder
  import Parser = ParserSpec

  /** A complete message that is not of the push type: the slot it was taken for, if any, and what it found
      when it began. */
  datatype Inbound = Inbound(slot: Option<Slot>, found: bool)

  /** The answers so far on this connection, and what the one in progress found when it began. */
  datatype Watch = Watch(inbound: seq<Inbound>, begun: Option<bool>)

  /** A slot is due, and the request in front expects a reply. */
  predicate Finds(s: Mpx) {
    Slots(s.queue) != [] && s.queue != [] && s.queue[0].req.expected > 0
  }

  predicate IsAnswer(s: Mpx)
    requires s.readBuffer != []
  {
    !ToType(s.readBuffer[0]).Push?
  }

  ghost function Observe(w: Watch, s: Sys, ev: Event): (v: Watch)
    requires Enabled(s, ev)
  {
    match ev
    case Launch(_, _) => Watch([], None)
    case ReadMessage(fault) =>
      var found := if w.begun.Some? then w.begun.value else Finds(s.mpx);
      if !IsAnswer(s.mpx) then w
      else
        (match CommitRead(s.mpx, fault).read
         case Message(_, _) => Watch(w.inbound + [Inbound(Destination(s.mpx), found)], None)
         case NeedMore => w.(begun := Some(found))
         case _ => w)
    case _ => w
  }

  ghost function WatchAfter(w: Watch, s: Sys, evs: seq<Event>): (v: Watch)
    requires IsRun(s, evs)
    decreases |evs|
  {
    if evs == [] then w else WatchAfter(Observe(w, s, evs[0]), Next(s, evs[0]), evs[1..])
  }

  /** The slots the answers were taken for. */
  function Taken(inbound: seq<Inbound>): (slots: seq<Slot>) {
    if inbound == [] then []
    else
      var last := inbound[|inbound| - 1];
      Taken(inbound[..|inbound| - 1]) + if last.slot.Some? then [last.slot.value] else []
  }

  predicate Consistent(inbound: seq<Inbound>) {
    forall k :: 0 <= k < |inbound| ==> (inbound[k].found <==> inbound[k].slot.Some?)
  }

  /** The message in the read buffer goes where it went when it began. */
  predicate InProgress(s: Mpx, begun: Option<bool>) {
    match begun
    case None => s.onPush ==> s.readBuffer != [] && !IsAnswer(s)
    case Some(found) =>
      s.readBuffer != [] && IsAnswer(s) && (if found then Destination(s).Some? else s.onPush)
  }

  ghost predicate WatchOk(s: Sys, w: Watch) {
    && Taken(w.inbound) == s.answered
    && Consistent(w.inbound)
    && (!s.mpx.cancelCalled ==> InProgress(s.mpx, w.begun))
  }

  lemma {:induction false} StillInProgress(s: Mpx, i: Interference, begun: Option<bool>)
    requires Wf(s) && Allowed(s, i) && InProgress(s, begun)
    ensures InProgress(Interfere(s, i), begun)
  {
    hide Wf, Select, MapElems, Stagings, Depart, Allowed;
    var t := Interfere(s, i);
    BuffersStay(s, i);
    if begun == Some(true) {
      StepKeepsDestination(s, i);
    }
  }

  lemma {:induction false} BuffersStay(s: Mpx, i: Interference)
    requires Allowed(s, i)
    ensures
      var t := Interfere(s, i);
      t.onPush == s.onPush && s.readBuffer <= t.readBuffer && t.cancelCalled == s.cancelCalled
  {
    hide Select, MapElems, Stagings, Depart, Insert, Everyone, Count;
  }

  /** The first read of an answer decides, and what it finds is what decides. */
  lemma {:induction false} FirstReadDecides(s: Mpx, begun: Option<bool>)
    requires Wf(s) && s.readBuffer != [] && IsAnswer(s) && InProgress(s, begun)
    ensures Destination(s).Some? <==> if begun.Some? then begun.value else Finds(s)
  {
    hide Wf, Slots;
    ReplyIsRecognised(s);
  }

  lemma {:induction false} TakenSnoc(inbound: seq<Inbound>, x: Inbound)
    ensures Taken(inbound + [x]) == Taken(inbound) + if x.slot.Some? then [x.slot.value] else []
  {
    assert (inbound + [x])[..|inbound|] == inbound;
  }

  /** What a read leaves of the message: the rest of it, or the next one. */
  lemma {:induction false} ReadLeft(s: Mpx, fault: Option<Parser.Fault>)
    requires CanRead(s)
    ensures
      var r := CommitRead(s, fault);
      && (r.read.NeedMore? ==>
            && r.mpx.onPush == (s.onPush || IsNextPush(s)) && r.mpx.readBuffer == s.readBuffer
            && r.mpx.queue == s.queue)
      && (r.read.Message? ==> !r.mpx.onPush)
  {
    hide Parser.Parse, Deliver;
  }

  lemma {:induction false} ReadKeepsWatch(s: Sys, fault: Option<Parser.Fault>, w: Watch)
    requires Inv(s) && WatchOk(s, w) && Enabled(s, ReadMessage(fault))
    ensures WatchOk(TakeRead(s, fault), Observe(w, s, ReadMessage(fault)))
  {
    hide Books, CommitRead, Taken, Finds, AllWaiting, NoneWaiting, Drop;
    var r, m := CommitRead(s.mpx, fault), s.mpx;
    WfOf(s);
    ReadLeft(m, fault);
    ReadKeepsStatus(m, fault);
    ReplyHasFront(m, fault);
    if IsAnswer(m) {
      FirstReadDecides(m, w.begun);
    }
    if r.read.Message? {
      TakenSnoc(w.inbound, Inbound(Destination(m), if w.begun.Some? then w.begun.value else Finds(m)));
      assert s.answered + [] == s.answered;
    } else if r.read.Failure? {
      DropIsLost(s.(mpx := r.mpx, reader := false));
    }
  }

  lemma {:induction false} DropIsLost(s: Sys)
    ensures Drop(s).answered == s.answered && Drop(s).mpx.cancelCalled
  {
    hide Select, MapElems, Depart;
  }

  lemma {:induction false} StartKeepsWatch(s: Sys, hello: Req, ping: Option<Req>)
    ensures
      var t := Start(s, hello, ping);
      t.answered == [] && t.mpx.readBuffer == [] && !t.mpx.onPush
  {
    hide Insert, MapElems, Payloads, CommandCount, Stagings, Asked, Lead;
  }

  lemma {:induction false} SubmitKeepsWatch(s: Sys, req: Req, w: Watch)
    requires Books(s) && WatchOk(s, w)
    ensures WatchOk(Submit(s, req), w)
  {
    hide Wf, Logs, Count, Everyone, Add, InProgress, Taken, Consistent;
    var e := MakeElem(s.nextId, req);
    BuffersStay(s.mpx, Adding(e));
    if !s.mpx.cancelCalled {
      StillInProgress(s.mpx, Adding(e), w.begun);
    }
  }

  lemma {:induction false} TurnKeepsWatch(s: Sys, w: Watch)
    requires Wf(s.mpx) && WatchOk(s, w)
    ensures WatchOk(WriterTurn(s), w)
  {
    hide Wf, PrepareWrite, Asked, InProgress, Taken, Consistent;
    BuffersStay(s.mpx, PreparingWrite);
    if !s.mpx.cancelCalled {
      StillInProgress(s.mpx, PreparingWrite, w.begun);
    }
  }

  lemma {:induction false} WriteOverKeepsWatch(s: Sys, ok: bool, w: Watch)
    requires Wf(s.mpx) && WatchOk(s, w)
    ensures WatchOk(WriteOver(s, ok), w)
  {
    hide Wf, CommitWrite, WriterTurn, Drop, InProgress, Taken, Consistent;
    DropIsLost(s);
    CommitWriteKeeps(s.mpx);
    BuffersStay(s.mpx, CommittingWrite);
    if !s.mpx.cancelCalled {
      StillInProgress(s.mpx, CommittingWrite, w.begun);
    }
    TurnKeepsWatch(s.(mpx := CommitWrite(s.mpx)), w);
  }

  lemma {:induction false} CancelOneKeepsWatch(s: Sys, id: nat, terminal: bool, w: Watch)
    requires Wf(s.mpx) && WatchOk(s, w) && Holds(s, id)
    ensures WatchOk(CancelOne(s, id, terminal), w)
  {
    hide Wf, Drop, Remove, Find, InQueue, InProgress, Taken, Consistent;
    DropIsLost(s);
    if InQueue(s.mpx, id) {
      BuffersStay(s.mpx, Removing(id));
      if !s.mpx.cancelCalled {
        StillInProgress(s.mpx, Removing(id), w.begun);
      }
    }
  }

  lemma {:induction false} StepKeepsWatch(s: Sys, ev: Event, w: Watch)
    requires Inv(s) && WatchOk(s, w) && Enabled(s, ev)
    ensures WatchOk(Next(s, ev), Observe(w, s, ev))
  {
    hide Books, Submit, Start, WriterTurn, Drop, TakeRead, CancelOne, WriteOver, CancelWaiting, Find;
    hide CommitRead, AllWaiting, NoneWaiting, InProgress, Taken, Consistent;
    WfOf(s);
    match ev {
      case Exec(req) => SubmitKeepsWatch(s, req, w);
      case Launch(hello, ping) =>
        StartKeepsWatch(s, hello, ping);
        NothingWatched(Start(s, hello, ping));
      case WriteDone => WriteOverKeepsWatch(s, true, w);
      case WriteFailed => WriteOverKeepsWatch(s, false, w);
      case TimerFired => TurnKeepsWatch(s, w);
      case Receive(data) =>
        if !s.mpx.cancelCalled {
          StillInProgress(s.mpx, Arriving(data), w.begun);
        }
      case ReadMessage(fault) => ReadKeepsWatch(s, fault, w);
      case ReadFailed => DropIsLost(s);
      case CancelRun => DropIsLost(s);
      case CancelExec =>
        BuffersStay(s.mpx, CancellingWaiting);
        if !s.mpx.cancelCalled {
          StillInProgress(s.mpx, CancellingWaiting, w.begun);
        }
      case ExecCancelled(id, terminal) => CancelOneKeepsWatch(s, id, terminal, w);
      case _ =>
    }
  }

  lemma {:induction false} NothingWatched(s: Sys)
    requires s.answered == [] && !s.mpx.onPush
    ensures WatchOk(s, Watch([], None))
  {
  }

  lemma {:induction false} RunKeepsWatch(s: Sys, evs: seq<Event>, w: Watch)
    requires Inv(s) && WatchOk(s, w) && IsRun(s, evs)
    ensures WatchOk(After(s, evs), WatchAfter(w, s, evs))
    decreases |evs|
  {
    hide Books, Control, Next, Enabled, WatchOk, Observe;
    if evs != [] {
      StepKeepsBooks(s, evs[0]);
      StepKeepsControl(s, evs[0]);
      StaysSound(s, evs[0]);
      StepKeepsWatch(s, evs[0], w);
      RunKeepsWatch(Next(s, evs[0]), evs[1..], Observe(w, s, evs[0]));
    }
  }

  /** The k-th answer of the server was taken for the k-th thing it was asked. */
  predicate Delivered(inbound: seq<Inbound>, asked: seq<Slot>) {
    |inbound| <= |asked| && forall k :: 0 <= k < |inbound| ==> inbound[k].slot == Some(asked[k])
  }

  predicate AllFound(inbound: seq<Inbound>) {
    forall k :: 0 <= k < |inbound| ==> inbound[k].found
  }

  lemma {:induction false} TakenAll(inbound: seq<Inbound>)
    requires forall k :: 0 <= k < |inbound| ==> inbound[k].slot.Some?
    ensures |Taken(inbound)| == |inbound|
    ensures forall k :: 0 <= k < |inbound| ==> Taken(inbound)[k] == inbound[k].slot.value
  {
    if inbound != [] {
      TakenAll(inbound[..|inbound| - 1]);
    }
  }

  lemma {:induction false} DeliveredExactly(inbound: seq<Inbound>, asked: seq<Slot>)
    requires Consistent(inbound)
    ensures Delivered(inbound, asked) <==> AllFound(inbound) && Taken(inbound) <= asked
  {
    if AllFound(inbound) || Delivered(inbound, asked) {
      TakenAll(inbound);
      var taken := Taken(inbound);
      if taken <= asked {
        assert forall k :: 0 <= k < |taken| ==> taken[k] == asked[..|taken|][k];
      }
      if Delivered(inbound, asked) {
        assert taken == asked[..|taken|];
      }
    }
  }

  /** In one state, in any run: what the answers so far were taken for, against what the server was asked. */
  lemma {:induction false} DeliveredInState(s: Sys, w: Watch)
    requires WatchOk(s, w)
    ensures Delivered(w.inbound, s.asked) <==> AllFound(w.inbound) && s.answered <= s.asked
  {
    hide Taken, Consistent, InProgress, Delivered, AllFound;
    DeliveredExactly(w.inbound, s.asked);
  }

  /** In every state of a run the k-th answer was taken for the k-th thing the server was asked. */
  ghost predicate DeliveredThroughout(w: Watch, s: Sys, evs: seq<Event>)
    requires IsRun(s, evs)
    decreases |evs|
  {
    && Delivered(w.inbound, s.asked)
    && (evs == [] || DeliveredThroughout(Observe(w, s, evs[0]), Next(s, evs[0]), evs[1..]))
  }

  /** Every answer on every connection of a run found, when it began, a slot due and a request in front that
      expects a reply. */
  ghost predicate FoundThroughout(w: Watch, s: Sys, evs: seq<Event>)
    requires IsRun(s, evs)
    decreases |evs|
  {
    AllFound(w.inbound) && (evs == [] || FoundThroughout(Observe(w, s, evs[0]), Next(s, evs[0]), evs[1..]))
  }

  lemma {:induction false} FifoIsPrefix(s: Sys)
    requires Fifo(s)
    ensures s.answered <= s.asked
  {
    hide Slots;
  }

  /** While the replies are in order, it is what the answers find that decides. */
  lemma {:induction false} FoundIsDelivered(w: Watch, s: Sys, evs: seq<Event>)
    requires Inv(s) && WatchOk(s, w) && IsRun(s, evs) && FifoThroughout(s, evs)
    ensures DeliveredThroughout(w, s, evs) <==> FoundThroughout(w, s, evs)
    decreases |evs|
  {
    hide Books, Control, Next, Enabled, WatchOk, Observe, Fifo, Delivered, AllFound;
    FifoIsPrefix(s);
    DeliveredInState(s, w);
    if evs != [] {
      StepKeepsBooks(s, evs[0]);
      StepKeepsControl(s, evs[0]);
      StaysSound(s, evs[0]);
      StepKeepsWatch(s, evs[0], w);
      FoundIsDelivered(Observe(w, s, evs[0]), Next(s, evs[0]), evs[1..]);
    }
  }

  /** The server's answers reach the requests they are for, exactly.  Over every run, in every one of its
      states: the answers taken and the slots due are in order what the server was asked, and the k-th answer
      of the connection was taken for the k-th of it, if and only if no step stages a request that was
      answered in part, and each answer found, when it began, a slot due and a request in front that expects
      a reply. */
  lemma {:induction false} AnswersReachTheirRequests(evs: seq<Event>)
    requires IsRun(INIT, evs)
    ensures
      var w := Watch([], None);
      FifoThroughout(INIT, evs) && DeliveredThroughout(w, INIT, evs) <==>
      StagesUnanswered(INIT, evs) && FoundThroughout(w, INIT, evs)
  {
    hide Inv, Next, Enabled, IsRun, FifoThroughout, StagesUnanswered, DeliveredThroughout, FoundThroughout, Slots;
    InitInv();
    NothingWatched(INIT);
    RepliesAreFifo(INIT, evs);
    if FifoThroughout(INIT, evs) {
      FoundIsDelivered(Watch([], None), INIT, evs);
    }
  }

  /** And in the last state of any run, in order or not. */
  lemma {:induction false} AnswersTaken(evs: seq<Event>)
    requires IsRun(INIT, evs)
    ensures
      var s, w := After(INIT, evs), WatchAfter(Watch([], None), INIT, evs);
      Delivered(w.inbound, s.asked) <==> AllFound(w.inbound) && s.answered <= s.asked
  {
    hide Inv, Next, Enabled, IsRun, After, WatchAfter, WatchOk;
    InitInv();
    NothingWatched(INIT);
    RunKeepsWatch(INIT, evs, Watch([], None));
    DeliveredInState(After(INIT, evs), WatchAfter(Watch([], None), INIT, evs));
  }
}
