/** The RESP3 push parser as a function on values.  A state keeps what later steps can observe: the
    remaining-children counts of the open levels (the live part of the source's `sizes_`), the bulk
    that is expected, if any, and the number of bytes consumed. */
module ParserSpec {
  import opened Bytes
  import opened Decimal
  import opened Resp3

  const MAX_DEPTH: nat := 5

  datatype Bulk = Bulk(kind: Type, length: nat)

  datatype State = State(levels: seq<nat>, bulk: Option<Bulk>, consumed: nat) {
    /** The level the next element belongs to. */
    function Depth(): int {
      |levels| - 1
    }

    predicate Ok() {
      1 <= |levels| <= MAX_DEPTH + 1
    }

    predicate Done() {
      |levels| == 1 && bulk.None? && consumed != 0
    }
  }

  /** The sentinel at level 0 starts at 2, so that the root element leaves 1. */
  const INITIAL: State := State([2], None, 0)

  /** `--x` on `std::size_t`. */
  function Dec(n: nat): (r: nat) {
    if n == 0 then SIZE - 1 else n - 1
  }

  /** One element of the current level is complete; a level that reaches zero completes an element of
      the level below it.  `None`: level 0 was passed, which the source leaves undefined. */
  function CommitElem(levels: seq<nat>): (r: Option<seq<nat>>)
    requires levels != []
    ensures r.Some? ==> 1 <= |r.value| <= |levels|
  {
    var top := |levels| - 1;
    var n := Dec(levels[top]);
    if n != 0 then Some(levels[..top] + [n])
    else if top == 0 then None
    else CommitElem(levels[..top])
  }

  /** What a header line leads to. */
  datatype Header =
    | Emits(node: Node, levels: seq<nat>)
    | Expects(bulk: Bulk)
    | Rejects(error: Error)
    | Undefined

  function Committed(node: Node, levels: seq<nat>): (h: Header)
    requires levels != []
  {
    match CommitElem(levels)
    case Some(l) => Emits(node, l)
    case None => Undefined
  }

  /** `consume_impl`: the header line `content` of type `t`. */
  function ReadHeader(t: Type, content: bytes, levels: seq<nat>): (h: Header)
    requires 1 <= |levels| <= MAX_DEPTH + 1
    ensures h.Emits? ==> 1 <= |h.levels| <= MAX_DEPTH + 1
  {
    var depth := |levels| - 1;
    match t
    case StreamedStringPart =>
      (match FromChars(content)
       case None => Rejects(NotANumber)
       case Some(n) =>
         if n == 0 then Committed(Node(StreamedStringPart, 1, depth, []), levels[depth := 1])
         else Expects(Bulk(StreamedStringPart, n)))
    case BlobError | VerbatimString | BlobString =>
      if content == [] then Undefined // elem.at(0) throws inside a noexcept function
      else if content[0] == QUESTION then
        if depth == MAX_DEPTH then Undefined // writes past the end of sizes_
        else Emits(Node(StreamedString, 0, depth + 1, []), levels + [SIZE - 1])
      else
        (match FromChars(content)
         case None => Rejects(NotANumber)
         case Some(n) => Expects(Bulk(t, n)))
    case Boolean =>
      if content == [] then Rejects(EmptyField)
      else if content[0] != LETTER_F && content[0] != LETTER_T then Rejects(UnexpectedBoolValue)
      else Committed(Node(t, 1, depth, content), levels)
    case Double | BigNumber | Number =>
      if content == [] then Rejects(EmptyField)
      else Committed(Node(t, 1, depth, content), levels)
    case SimpleError | SimpleString | Null =>
      Committed(Node(t, 1, depth, content), levels)
    case Push | Set | Array | Attribute | Map =>
      (match FromChars(content)
       case None => Rejects(NotANumber)
       case Some(l) =>
         if l == 0 then Committed(Node(t, 0, depth, []), levels)
         else if depth == MAX_DEPTH then Rejects(ExceedsMaxNestedDepth)
         else Emits(Node(t, l, depth, []), levels + [l * Multiplicity(t) % SIZE]))
    case _ => Rejects(InvalidDataType)
  }

  datatype Step =
    | More(state: State)
    | Emit(node: Node, state: State)
    | Fail(error: Error, state: State)
    | Broken

  /** The bytes that must be present before an expected bulk is taken: `bulk_length_ + 2`. */
  function Span(b: Bulk): (n: nat) {
    (b.length + 2) % SIZE
  }

  /** `view.substr(consumed_, bulk_length_)`, which stops at the end of the view. */
  function BulkValue(view: bytes, from: nat, length: nat): (v: bytes)
    requires from <= |view|
  {
    if from + length <= |view| then view[from..from + length] else view[from..]
  }

  function TakeBulk(p: State, view: bytes): (r: Step)
    requires p.Ok() && p.bulk.Some? && p.consumed <= |view|
  {
    var b := p.bulk.value;
    if |view| - p.consumed < Span(b) then More(p)
    else
      match CommitElem(p.levels)
      case None => Broken
      case Some(l) =>
        Emit(Node(b.kind, 1, p.Depth(), BulkValue(view, p.consumed, b.length)),
             State(l, None, p.consumed + Span(b)))
  }

  /** The content of the header line between its type code and the separator at `pos`. */
  function Content(view: bytes, from: nat, pos: nat): (c: bytes)
    requires from <= pos < |view|
  {
    if pos == from then view[from + 1..] else view[from + 1..pos]
  }

  /** What follows a header line that ends before byte `next`. */
  function Follow(h: Header, p: State, next: nat, view: bytes): (r: Step)
    requires p.Ok() && next <= |view| && (h.Emits? ==> 1 <= |h.levels| <= MAX_DEPTH + 1)
  {
    match h
    case Rejects(e) => Fail(e, p)
    case Undefined => Broken
    case Emits(node, levels) => Emit(node, State(levels, None, next))
    case Expects(b) => TakeBulk(State(p.levels, Some(b), next), view)
  }

  /** `parser::consume`. */
  function Consume(p: State, view: bytes): (r: Step)
    requires p.Ok() && p.consumed <= |view|
    ensures r.More? ==> r.state.Ok() && p.consumed <= r.state.consumed <= |view|
    ensures r.Emit? ==> r.state.Ok() && p.consumed <= r.state.consumed <= |view|
    ensures r.Emit? ==> r.state.bulk.None? && (p.bulk.None? ==> p.consumed < r.state.consumed)
    ensures r.Fail? ==> r.state == p
  {
    if p.bulk.Some? then TakeBulk(p, view)
    else
      match FindSep(view, p.consumed)
      case None => More(p)
      case Some(pos) =>
        var h := ReadHeader(ToType(view[p.consumed]), Content(view, p.consumed, pos), p.levels);
        Follow(h, p, pos + 2, view)
  }

  /** The adapter refuses the node with index `at` of this call. */
  datatype Fault = Fault(at: nat, error: Error)

  datatype End = Complete | Partial | Failed(error: Error) | Crashed

  datatype Parsed = Parsed(end: End, state: State, nodes: seq<Node>)

  function Prepend(ns: seq<Node>, r: Parsed): (q: Parsed) {
    r.(nodes := ns + r.nodes)
  }

  function Later(f: Option<Fault>): (g: Option<Fault>)
    requires f.Some? ==> f.value.at > 0
  {
    if f.None? then None else Some(Fault(f.value.at - 1, f.value.error))
  }

  /** The `parse` loop: consume and hand each node to the adapter until the message is complete, more
      data is needed, or an error occurs. */
  function Parse(p: State, view: bytes, fault: Option<Fault>): (r: Parsed)
    requires p.Ok() && p.consumed <= |view|
    ensures r.state.Ok() && r.state.consumed <= |view| && (r.end.Crashed? || p.consumed <= r.state.consumed)
    ensures r.end.Complete? <==> r.state.Done() && !r.end.Failed?
    decreases |view| - p.consumed, if p.bulk.Some? then 1 else 0
  {
    if p.Done() then Parsed(Complete, p, [])
    else
      match Consume(p, view)
      case Broken => Parsed(Crashed, INITIAL, []) // nothing is known of the state
      case Fail(e, q) => Parsed(Failed(e), q, [])
      case More(q) => Parsed(Partial, q, [])
      case Emit(n, q) =>
        if fault.Some? && fault.value.at == 0 then Parsed(Failed(fault.value.error), q, [n])
        else Prepend([n], Parse(q, view, Later(fault)))
  }
}
