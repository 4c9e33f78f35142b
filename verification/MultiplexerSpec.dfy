/** The multiplexer as functions on values.  Beside the fields the source has, a state records what was
    handed to the adapters, which elements left the queue and how, and which payloads were staged. */
module MultiplexerSpec {
  import opened Bytes
  import opened Resp3
  import opened Request
  import Parser = ParserSpec

  datatype Status = Waiting | Staged | Written

  /** What the multiplexer reads of a request. */
  datatype Req = Req(payload: bytes, commands: nat, expected: nat, helloPriority: bool, cfg: Config)

  /** `multiplexer::elem`.  `id` stands for the identity of the shared object, `notified` for the number
      of times its completion callback was called. */
  datatype Elem = Elem(
    id: nat,
    req: Req,
    remaining: nat,
    status: Status,
    ec: Option<Error>,
    readSize: nat,
    notified: nat
  ) {
    predicate IsWaiting() {
      status.Waiting?
    }

    /** The adapter index of the reply that is due. */
    function Index(): int {
      req.expected - remaining
    }

    function Mark(s: Status): Elem {
      this.(status := s)
    }

    function NotifyDone(): Elem {
      this.(notified := notified + 1)
    }

    function NotifyError(e: Error): Elem {
      this.(ec := if ec.None? then Some(e) else ec, notified := notified + 1)
    }
  }

  /** A fresh element, as `make_elem` makes it. */
  function MakeElem(id: nat, req: Req): (e: Elem) {
    Elem(id, req, req.expected, Waiting, None, 0, 0)
  }

  datatype Exit = Completed | Released | Aborted | Removed

  datatype Departure = Departure(elem: Elem, exit: Exit)

  datatype Delivery = ToReceiver(node: Node) | ToRequest(id: nat, index: int, node: Node)

  datatype Staging = Staging(id: nat, payload: bytes, commands: nat)

  datatype Usage = Usage(
    commandsSent: nat,
    bytesSent: nat,
    responsesReceived: nat,
    pushesReceived: nat,
    responseBytes: nat,
    pushBytes: nat
  )

  datatype Mpx = Mpx(
    queue: seq<Elem>,
    writeBuffer: bytes,
    readBuffer: bytes,
    parser: Parser.State,
    onPush: bool,
    cancelCalled: bool,
    usage: Usage,
    deliveries: seq<Delivery>,
    gone: seq<Departure>,
    staged: seq<Staging>
  )

  const EMPTY: Mpx := Mpx([], [], [], Parser.INITIAL, false, false, Usage(0, 0, 0, 0, 0, 0), [], [], [])

  // Sequences of elements.

  function Select(q: seq<Elem>, f: Elem -> bool): (r: seq<Elem>) {
    if q == [] then []
    else
      var last := q[|q| - 1];
      Select(q[..|q| - 1], f) + if f(last) then [last] else []
  }

  function MapElems(q: seq<Elem>, f: Elem -> Elem): (r: seq<Elem>)
    ensures |r| == |q| && forall i :: 0 <= i < |q| ==> r[i] == f(q[i])
  {
    seq(|q|, i requires 0 <= i < |q| => f(q[i]))
  }

  /** How many elements in front were already handed to the writer, by linear scan. */
  function Lead(q: seq<Elem>): (n: nat)
    ensures n <= |q|
  {
    if q == [] || q[0].IsWaiting() then 0 else 1 + Lead(q[1..])
  }

  function Depart(es: seq<Elem>, exit: Exit): (ds: seq<Departure>)
    ensures |ds| == |es| && forall i :: 0 <= i < |es| ==> ds[i] == Departure(es[i], exit)
  {
    seq(|es|, i requires 0 <= i < |es| => Departure(es[i], exit))
  }

  function Payloads(es: seq<Elem>): (w: bytes) {
    if es == [] then [] else Payloads(es[..|es| - 1]) + es[|es| - 1].req.payload
  }

  function CommandCount(es: seq<Elem>): (n: nat) {
    if es == [] then 0 else CommandCount(es[..|es| - 1]) + es[|es| - 1].req.commands
  }

  function Stagings(es: seq<Elem>): (ss: seq<Staging>)
    ensures |ss| == |es|
    ensures forall i :: 0 <= i < |es| ==> ss[i] == Staging(es[i].id, es[i].req.payload, es[i].req.commands)
  {
    seq(|es|, i requires 0 <= i < |es| => Staging(es[i].id, es[i].req.payload, es[i].req.commands))
  }

  // What the operations select and how they change an element.

  predicate IsWaiting(e: Elem) {
    e.IsWaiting()
  }

  predicate IsActive(e: Elem) {
    !e.IsWaiting()
  }

  /** Elements that nothing will answer: they are done once written. */
  predicate IsReleasable(e: Elem) {
    e.status.Written? && e.req.expected == 0
  }

  predicate IsRetained(e: Elem) {
    !IsReleasable(e)
  }

  /** The flags decide whether a request survives the loss of the connection. */
  predicate Survives(e: Elem) {
    if e.IsWaiting() then !e.req.cfg.cancelOnConnectionLost else !e.req.cfg.cancelIfUnresponded
  }

  predicate Perishes(e: Elem) {
    !Survives(e)
  }

  function Stage(e: Elem): Elem {
    e.Mark(Staged)
  }

  function MarkWritten(e: Elem): Elem {
    if e.status.Staged? then e.Mark(Written) else e
  }

  function Requeue(e: Elem): Elem {
    e.Mark(Waiting)
  }

  function Release(e: Elem): Elem {
    e.NotifyDone()
  }

  function Abort(e: Elem): Elem {
    e.NotifyError(OperationAborted)
  }

  // The operations.

  /** At the back, or with HELLO priority in front of everything that still waits. */
  function Insert(q: seq<Elem>, e: Elem): (r: seq<Elem>) {
    var k := Lead(q);
    if e.req.helloPriority then q[..k] + [e] + q[k..] else q + [e]
  }

  /** `add`. */
  function Add(s: Mpx, e: Elem): (t: Mpx) {
    s.(queue := Insert(s.queue, e))
  }

  function IndexOf(q: seq<Elem>, id: nat): (i: nat)
    requires exists j :: 0 <= j < |q| && q[j].id == id
    ensures i < |q| && q[i].id == id && forall j :: 0 <= j < i ==> q[j].id != id
  {
    if q[0].id == id then 0
    else
      assert exists j :: 0 <= j < |q[1..]| && q[1..][j].id == id by {
        var j :| 0 <= j < |q| && q[j].id == id;
        assert q[1..][j - 1].id == id;
      }
      1 + IndexOf(q[1..], id)
  }

  predicate InQueue(s: Mpx, id: nat) {
    exists j :: 0 <= j < |s.queue| && s.queue[j].id == id
  }

  /** `remove`: an element that still waits is taken out. */
  function Remove(s: Mpx, id: nat): (t: Mpx)
    requires InQueue(s, id)
  {
    var i := IndexOf(s.queue, id);
    if s.queue[i].IsWaiting() then
      s.(queue := s.queue[..i] + s.queue[i + 1..], gone := s.gone + [Departure(s.queue[i], Removed)])
    else s
  }

  /** `prepare_write`: coalesces the payloads of everything that waits. */
  function PrepareWrite(s: Mpx): (t: Mpx) {
    var k := Lead(s.queue);
    var batch := s.queue[k..];
    var buffer := s.writeBuffer + Payloads(batch);
    s.(queue := s.queue[..k] + MapElems(batch, Stage),
       writeBuffer := buffer,
       usage := s.usage.(commandsSent := s.usage.commandsSent + CommandCount(batch),
                         bytesSent := s.usage.bytesSent + |buffer|),
       staged := s.staged + Stagings(batch))
  }

  /** `commit_write`: what was staged is written, and response-less requests are released. */
  function CommitWrite(s: Mpx): (t: Mpx) {
    var q := MapElems(s.queue, MarkWritten);
    var out := MapElems(Select(q, IsReleasable), Release);
    s.(queue := Select(q, IsRetained),
       writeBuffer := [],
       gone := s.gone + Depart(out, Released))
  }

  /** `cancel_waiting`. */
  function CancelWaiting(s: Mpx): (t: Mpx) {
    var out := MapElems(Select(s.queue, IsWaiting), Abort);
    s.(queue := Select(s.queue, IsActive),
       gone := s.gone + Depart(out, Aborted))
  }

  /** `cancel_on_conn_lost`: once per connection, aborts what does not survive; the rest waits again. */
  function CancelOnConnLost(s: Mpx): (t: Mpx) {
    if s.cancelCalled then s
    else
      var out := MapElems(Select(s.queue, Perishes), Abort);
      s.(queue := MapElems(Select(s.queue, Survives), Requeue),
         cancelCalled := true,
         gone := s.gone + Depart(out, Aborted))
  }

  /** `reset`, when a new connection was made. */
  function Reset(s: Mpx): (t: Mpx) {
    s.(writeBuffer := [], readBuffer := [], parser := Parser.INITIAL, onPush := false, cancelCalled := false)
  }

  /** Bytes arrive from the socket. */
  function Append(s: Mpx, data: bytes): (t: Mpx) {
    s.(readBuffer := s.readBuffer + data)
  }

  /** `is_next_push`: the four cases in which a message is not the reply to the request in front. */
  predicate IsNextPush(s: Mpx)
    requires s.readBuffer != []
  {
    || ToType(s.readBuffer[0]).Push?
    || s.queue == []
    || s.queue[0].remaining == 0
    || s.queue[0].IsWaiting()
  }

  datatype Read = NeedMore | Message(push: bool, size: nat) | Failure(push: bool, error: Error) | Crash

  datatype ReadResult = ReadResult(read: Read, mpx: Mpx)

  function Deliver(nodes: seq<Node>, dest: Option<Elem>): (ds: seq<Delivery>)
    ensures |ds| == |nodes|
  {
    seq(|nodes|, i requires 0 <= i < |nodes| =>
      if dest.Some? then ToRequest(dest.value.id, dest.value.Index(), nodes[i]) else ToReceiver(nodes[i]))
  }

  /** `on_finish_parsing`. */
  function FinishParsing(s: Mpx, push: bool): (t: Mpx)
    requires s.parser.consumed <= |s.readBuffer|
  {
    var n := s.parser.consumed;
    var u := s.usage;
    s.(usage := if push then u.(pushesReceived := u.pushesReceived + 1, pushBytes := u.pushBytes + n)
                else u.(responsesReceived := u.responsesReceived + 1, responseBytes := u.responseBytes + n),
       onPush := false,
       readBuffer := s.readBuffer[n..],
       parser := Parser.INITIAL)
  }

  /** `commit_response` on the request in front; it leaves once its last reply is in. */
  function CommitResponse(s: Mpx, size: nat): (t: Mpx)
    requires s.queue != [] && s.queue[0].remaining > 0
  {
    var e := s.queue[0].(readSize := s.queue[0].readSize + size, remaining := s.queue[0].remaining - 1);
    if e.remaining == 0 then
      s.(queue := s.queue[1..], gone := s.gone + [Departure(e.NotifyDone(), Completed)])
    else s.(queue := s.queue[0 := e])
  }

  ghost predicate CanRead(s: Mpx) {
    s.readBuffer != [] && s.parser.Ok() && s.parser.consumed <= |s.readBuffer|
  }

  /** `commit_read`: parses as much of one message as the buffer holds. */
  function CommitRead(s: Mpx, fault: Option<Parser.Fault>): (r: ReadResult)
    requires CanRead(s)
  {
    var push := s.onPush || IsNextPush(s);
    var p := Parser.Parse(s.parser, s.readBuffer, fault);
    var t := s.(onPush := push,
                parser := p.state,
                deliveries := s.deliveries + Deliver(p.nodes, if push then None else Some(s.queue[0])));
    match p.end
    case Crashed => ReadResult(Crash, t)
    case Partial => ReadResult(NeedMore, t)
    case Failed(e) =>
      ReadResult(Failure(push, e), if push then t else t.(queue := t.queue[0 := t.queue[0].NotifyError(e)]))
    case Complete =>
      ReadResult(Message(push, p.state.consumed),
                 FinishParsing(if push then t else CommitResponse(t, p.state.consumed), push))
  }
}
