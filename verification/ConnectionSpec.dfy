/** The coroutines of a connection as a machine over their steps on one executor.  A step is what runs
    between two suspensions.  Sockets and timers appear only as the steps they make possible. */
module ConnectionSpec {
  import opened Bytes
  import opened Request
  import opened MultiplexerSpec
  import opened Invariants
  import opened Correlation
  import Parser = ParserSpec

  /** Where the writer is suspended: not running, in a write, on its timer, or on its timer with the wake
      already under way. */
  datatype Writer = Off | Writing | Parked | Woken

  datatype Sys = Sys(
    mpx: Mpx,
    open: bool,
    writer: Writer,
    reader: bool,
    nextId: nat,
    submitted: set<Req>,   // requests that were accepted
    finished: set<nat>,    // operations that have completed towards their caller
    asked: seq<Slot>,      // replies the server owes for what this connection staged, answered or not
    answered: seq<Slot>,   // complete replies taken on this connection
    replies: seq<Slot>,    // complete replies taken on any connection
    appended: nat,         // bytes received on this connection
    base: nat,             // bytes consumed before this connection
    broken: bool           // `remove` was called for an element that is not in the queue
  )

  const INIT: Sys := Sys(EMPTY, false, Off, false, 0, {}, {}, [], [], [], 0, 0, false)

  /** More than a `std::string` can hold; a read that would need it fails instead. */
  const MAX_STRING: nat := SIZE / 2

  datatype Event =
    | Exec(req: Req)
    | Connected
    | Disconnected
    | Launch(hello: Req, ping: Option<Req>)
    | WriteDone
    | WriteFailed
    | Wake
    | TimerFired
    | Receive(data: bytes)
    | ReadMessage(fault: Option<Parser.Fault>)
    | ReadFailed
    | ReaderQuits
    | CancelRun
    | CancelExec
    | ExecCancelled(id: nat, terminal: bool)
    | ExecFinished(id: nat)

  /** `writer_timer_.cancel()`: only a writer that waits on the timer notices. */
  function CancelTimer(s: Sys): (t: Sys) {
    if s.writer.Parked? then s.(writer := Woken) else s
  }

  /** `exec_op` up to its suspension, for a request that is accepted. */
  function Enqueue(s: Sys, req: Req): (t: Sys) {
    var u := s.(mpx := Add(s.mpx, MakeElem(s.nextId, req)), nextId := s.nextId + 1, submitted := s.submitted + {req});
    if s.open && s.mpx.writeBuffer == [] then CancelTimer(u) else u
  }

  function Submit(s: Sys, req: Req): (t: Sys) {
    if req.cfg.cancelIfNotConnected && !s.open then s else Enqueue(s, req)
  }

  /** The top of the writer's loop: stage what waits and write it, or park. */
  function WriterTurn(s: Sys): (t: Sys) {
    var batch := s.mpx.queue[Lead(s.mpx.queue)..];
    s.(mpx := PrepareWrite(s.mpx),
       writer := if batch == [] then Parked else Writing,
       asked := s.asked + Asked(batch))
  }

  /** `cancel_run`. */
  function Drop(s: Sys): (t: Sys) {
    CancelTimer(s.(open := false, mpx := CancelOnConnLost(s.mpx)))
  }

  /** `run_op` once the transport is up: reset, then the handshake and the health check are submitted. */
  function Greet(s: Sys, hello: Req, ping: Option<Req>): (t: Sys) {
    var u := s.(mpx := Reset(s.mpx), asked := [], answered := [], appended := 0, reader := true,
                base := s.mpx.usage.responseBytes + s.mpx.usage.pushBytes);
    var v := Submit(u, hello);
    if ping.Some? then Submit(v, ping.value) else v
  }

  /** The reader and the writer are launched after them. */
  function Start(s: Sys, hello: Req, ping: Option<Req>): (t: Sys) {
    WriterTurn(Greet(s, hello, ping))
  }

  /** `reader_op` around one `commit_read`. */
  ghost function TakeRead(s: Sys, fault: Option<Parser.Fault>): (t: Sys)
    requires CanRead(s.mpx)
  {
    var r := CommitRead(s.mpx, fault);
    var u := s.(mpx := r.mpx);
    match r.read
    case Message(push, _) =>
      if push then u
      else
        var slot := Slot(s.mpx.queue[0].id, s.mpx.queue[0].Index());
        u.(answered := s.answered + [slot], replies := s.replies + [slot])
    case Failure(_, _) => Drop(u.(reader := false))
    case _ => u
  }

  /** `writer_op` resumed by the completion of a write. */
  function WriteOver(s: Sys, ok: bool): (t: Sys) {
    if !ok then Drop(s).(writer := Off)
    else
      var u := s.(mpx := CommitWrite(s.mpx));
      if s.open then WriterTurn(u) else u.(writer := Off)
  }

  /** `writer_op` resumed by its timer. */
  function TimerOver(s: Sys): (t: Sys) {
    if s.open then WriterTurn(s) else s.(writer := Off)
  }

  function Received(s: Sys, data: bytes): (t: Sys) {
    s.(mpx := Append(s.mpx, data), appended := s.appended + |data|)
  }

  predicate Holds(s: Sys, id: nat) {
    exists j :: 0 <= j < |Everyone(s.mpx)| && Everyone(s.mpx)[j].id == id
  }

  function Find(s: Sys, id: nat): (e: Elem)
    requires Holds(s, id)
    ensures e in Everyone(s.mpx) && e.id == id
  {
    Everyone(s.mpx)[IndexOf(Everyone(s.mpx), id)]
  }

  function Finish(s: Sys, id: nat): (t: Sys) {
    s.(finished := s.finished + {id})
  }

  /** `exec_op` resumed by a cancellation. */
  function CancelOne(s: Sys, id: nat, terminal: bool): (t: Sys)
    requires Holds(s, id)
  {
    var e := Find(s, id);
    if e.ec.Some? then Finish(s, id)
    else if e.IsWaiting() then
      if InQueue(s.mpx, id) then Finish(s.(mpx := Remove(s.mpx, id)), id) else s.(broken := true)
    else if terminal then Finish(Drop(s), id)
    else s
  }

  /** Which steps can come next. */
  ghost predicate Enabled(s: Sys, ev: Event) {
    match ev
    case Exec(_) => true
    case Connected => s.writer.Off? && !s.reader
    case Disconnected => s.writer.Off? && !s.reader
    case Launch(hello, ping) =>
      && s.writer.Off? && !s.reader
      && hello.helloPriority && hello.cfg == DEFAULT_CONFIG
      && (ping.Some? ==> !ping.value.helloPriority && ping.value.cfg == DEFAULT_CONFIG)
    case WriteDone => s.writer.Writing?
    case WriteFailed => s.writer.Writing?
    case Wake => s.writer.Parked?
    case TimerFired => s.writer.Woken?
    case Receive(data) => s.reader && |s.mpx.readBuffer| + |data| < MAX_STRING
    case ReadMessage(fault) => s.reader && s.open && CanRead(s.mpx) && !CommitRead(s.mpx, fault).read.Crash?
    case ReadFailed => s.reader
    case ReaderQuits => s.reader && !s.open && s.mpx.cancelCalled
    case CancelRun => true
    case CancelExec => true
    case ExecCancelled(id, _) => Holds(s, id) && id !in s.finished
    case ExecFinished(id) => Holds(s, id) && id !in s.finished && Find(s, id).notified > 0
  }

  ghost function Next(s: Sys, ev: Event): (t: Sys)
    requires Enabled(s, ev)
  {
    match ev
    case Exec(req) => Submit(s, req)
    case Connected => s.(open := true)
    case Disconnected => s.(open := false)
    case Launch(hello, ping) => Start(s, hello, ping)
    case WriteDone => WriteOver(s, true)
    case WriteFailed => WriteOver(s, false)
    case Wake => CancelTimer(s)
    case TimerFired => TimerOver(s)
    case Receive(data) => Received(s, data)
    case ReadMessage(fault) => TakeRead(s, fault)
    case ReadFailed => Drop(s).(reader := false)
    case ReaderQuits => s.(reader := false)
    case CancelRun => Drop(s)
    case CancelExec => s.(mpx := CancelWaiting(s.mpx))
    case ExecCancelled(id, terminal) => CancelOne(s, id, terminal)
    case ExecFinished(id) => Finish(s, id)
  }

  ghost predicate IsRun(s: Sys, evs: seq<Event>)
    decreases |evs|
  {
    evs == [] || (Enabled(s, evs[0]) && IsRun(Next(s, evs[0]), evs[1..]))
  }

  ghost function After(s: Sys, evs: seq<Event>): (t: Sys)
    requires IsRun(s, evs)
    decreases |evs|
  {
    if evs == [] then s else After(Next(s, evs[0]), evs[1..])
  }
}
