/** When a read can be made at all, over whole runs: in every reachable state the undefined steps of the
    parser are exactly those of the three headers. */
module Reading {
  import opened Bytes
  import opened MultiplexerSpec
  import opened Invariants
  import opened Correlation
  import opened ConnectionSpec
  import opened Runs
  import opened Safety
  import opened Limits
  import Parser = ParserSpec

  /** Until the connection is given up, the parser stands in front of a message or inside one. */
  predicate MidMessage(s: Mpx) {
    !s.cancelCalled ==> Within(s.parser) && !s.parser.Done()
  }

  lemma {:induction false} ParserKept(s: Mpx)
    ensures PrepareWrite(s).parser == s.parser && PrepareWrite(s).cancelCalled == s.cancelCalled
    ensures CommitWrite(s).parser == s.parser && CommitWrite(s).cancelCalled == s.cancelCalled
    ensures CancelWaiting(s).parser == s.parser && CancelWaiting(s).cancelCalled == s.cancelCalled
    ensures CancelOnConnLost(s).parser == s.parser && CancelOnConnLost(s).cancelCalled
  {
    hide Select, MapElems, Depart, Stagings, Payloads, CommandCount, Lead;
  }

  /** Only a read moves the parser, and only a launch renews it. */
  lemma {:induction false} ParserStays(s: Sys, ev: Event)
    requires Enabled(s, ev) && !ev.ReadMessage? && !ev.Launch?
    ensures Next(s, ev).mpx.parser == s.mpx.parser && (s.mpx.cancelCalled ==> Next(s, ev).mpx.cancelCalled)
  {
    hide Insert, Remove, PrepareWrite, CommitWrite, CancelWaiting, CancelOnConnLost, InQueue;
    hide Asked, Find, CommitRead, CanRead;
    ParserKept(s.mpx);
    match ev {
      case WriteDone => ParserKept(CommitWrite(s.mpx));
      case ExecCancelled(id, _) =>
        if InQueue(s.mpx, id) {
          RemoveKeepsParser(s.mpx, id);
        }
      case _ =>
    }
  }

  lemma {:induction false} RemoveKeepsParser(s: Mpx, id: nat)
    requires InQueue(s, id)
    ensures Remove(s, id).parser == s.parser && Remove(s, id).cancelCalled == s.cancelCalled
  {
  }

  lemma {:induction false} StartRenews(s: Sys, hello: Req, ping: Option<Req>)
    ensures Start(s, hello, ping).mpx.parser == Parser.INITIAL
  {
    hide Insert, MapElems, Stagings, Payloads, CommandCount, Lead, Asked;
  }

  lemma {:induction false} ReadStaysMid(s: Mpx, fault: Option<Parser.Fault>)
    requires CanRead(s) && MidMessage(s)
    ensures CommitRead(s, fault).read.Message? || CommitRead(s, fault).read.NeedMore? ==>
              MidMessage(CommitRead(s, fault).mpx)
  {
    hide Parser.Parse, Deliver;
    if !s.cancelCalled {
      PartialStaysWithin(s.parser, s.readBuffer, fault);
    }
  }

  lemma {:induction false} TakeReadStaysMid(s: Sys, fault: Option<Parser.Fault>)
    requires Enabled(s, ReadMessage(fault)) && MidMessage(s.mpx)
    ensures MidMessage(TakeRead(s, fault).mpx)
  {
    hide CommitRead, CancelOnConnLost, Within;
    ReadStaysMid(s.mpx, fault);
    ParserKept(CommitRead(s.mpx, fault).mpx);
  }

  lemma {:induction false} StepStaysMid(s: Sys, ev: Event)
    requires Enabled(s, ev) && MidMessage(s.mpx)
    ensures MidMessage(Next(s, ev).mpx)
  {
    hide CommitRead, CanRead, TakeRead, Start, Within;
    match ev {
      case ReadMessage(fault) => TakeReadStaysMid(s, fault);
      case Launch(hello, ping) =>
        StartRenews(s, hello, ping);
        FrontOfMessage();
      case _ => ParserStays(s, ev);
    }
  }

  lemma {:induction false} FrontOfMessage()
    ensures Within(Parser.INITIAL) && !Parser.INITIAL.Done()
  {
  }

  lemma {:induction false} RunStaysMid(s: Sys, evs: seq<Event>)
    requires IsRun(s, evs) && MidMessage(s.mpx)
    ensures MidMessage(After(s, evs).mpx)
    decreases |evs|
  {
    hide Next, Enabled, MidMessage;
    if evs != [] {
      StepStaysMid(s, evs[0]);
      RunStaysMid(Next(s, evs[0]), evs[1..]);
    }
  }

  lemma {:induction false} CrashIsFatal(s: Mpx, fault: Option<Parser.Fault>)
    requires CanRead(s) && Within(s.parser)
    ensures CommitRead(s, fault).read.Crash? <==> MeetsFatal(s.parser, s.readBuffer, fault)
  {
    hide Parser.Parse, Deliver, MeetsFatal;
    UndefinedParse(s.parser, s.readBuffer, fault);
  }

  /** A read is undefined, exactly.  In every reachable state with an open connection, a running reader and
      bytes in the buffer, `commit_read` may be called; it makes an undefined step if and only if the parse
      reads, before its adapter refuses a node, a blob without a length, a streamed string below the last
      level, or an empty part outside every streamed string. */
  lemma {:induction false} ReadIsDefined(evs: seq<Event>, fault: Option<Parser.Fault>)
    requires IsRun(INIT, evs)
    ensures
      var s := After(INIT, evs);
      s.open && s.reader && s.mpx.readBuffer != [] ==>
        && CanRead(s.mpx)
        && (CommitRead(s.mpx, fault).read.Crash? <==> MeetsFatal(s.mpx.parser, s.mpx.readBuffer, fault))
        && (Enabled(s, ReadMessage(fault)) <==> !MeetsFatal(s.mpx.parser, s.mpx.readBuffer, fault))
  {
    hide Next, IsRun, After, Books, CommitRead, MeetsFatal, AllWaiting, NoneWaiting, Within;
    var s := After(INIT, evs);
    InitInv();
    RunKeepsInv(INIT, evs);
    FrontOfMessage();
    RunStaysMid(INIT, evs);
    if s.open && s.reader && s.mpx.readBuffer != [] {
      WfOf(s);
      ReaderCanRead(s.mpx);
      CrashIsFatal(s.mpx, fault);
    }
  }

  lemma {:induction false} ReaderCanRead(s: Mpx)
    requires Wf(s) && s.readBuffer != []
    ensures CanRead(s)
  {
  }
}
