/** Parsing what a RESP3 peer sends gives back the message, node by node. */
module RoundTrip {
  import opened Bytes
  import opened Decimal
  import opened Resp3
  import opened ParserSpec
  import opened Prefixes
  import opened Trees

  /** The bytes `w` stand in the view at position `i`. */
  predicate At(view: bytes, i: nat, w: bytes) {
    i + |w| <= |view| && view[i..i + |w|] == w
  }

  lemma {:induction false} AtSplit(view: bytes, i: nat, a: bytes, b: bytes)
    requires At(view, i, a + b)
    ensures At(view, i, a) && At(view, i + |a|, b)
  {
    var s := view[i..i + |a + b|];
    assert view[i..i + |a|] == s[..|a|];
    assert view[i + |a|..i + |a| + |b|] == s[|a|..];
  }

  lemma {:induction false} LineRead(view: bytes, c: nat, code: byte, content: bytes)
    requires code != CR && OneLine(content)
    requires At(view, c, [code] + content + SEP)
    ensures c < |view| && view[c] == code
    ensures FindSep(view, c) == Some(c + 1 + |content|)
    ensures Content(view, c, c + 1 + |content|) == content
  {
    assert [code] + content + SEP == [code] + (content + SEP);
    AtSplit(view, c, [code], content + SEP);
    assert view[c] == view[c..c + 1][0] == code;
    LineEnds(view, c + 1, content);
    assert !SepAt(view, c);
    AtSplit(view, c + 1, content, SEP);
  }

  /** A header line is read back as the type and the content it was written from. */
  lemma {:induction false} HeaderRead(view: bytes, c: nat, t: Type, content: bytes)
    requires HasCode(t) && OneLine(content)
    requires At(view, c, [ToCode(t)] + content + SEP)
    ensures c < |view| && FindSep(view, c) == Some(c + 1 + |content|)
    ensures ToType(view[c]) == t
    ensures Content(view, c, c + 1 + |content|) == content
  {
    CodesAreInverse(t, 0);
    LineRead(view, c, ToCode(t), content);
  }

  /** The state after one complete element of the current level. */
  function After(p: State, width: nat): (q: State)
    requires p.levels != [] && CommitElem(p.levels).Some?
  {
    State(CommitElem(p.levels).value, None, p.consumed + width)
  }

  ghost predicate Ready(p: State, view: bytes) {
    p.Ok() && p.bulk.None? && !p.Done() && p.consumed <= |view| && CommitElem(p.levels).Some?
  }

  /** A header line leads to what `ReadHeader` says of its type and content. */
  lemma {:induction false} ConsumeHeader(t: Type, content: bytes, p: State, view: bytes)
    requires HasCode(t) && OneLine(content) && Ready(p, view)
    requires At(view, p.consumed, [ToCode(t)] + content + SEP)
    ensures p.consumed + |content| + 3 <= |view|
    ensures Consume(p, view) ==
            Follow(ReadHeader(t, content, p.levels), p, p.consumed + |content| + 3, view)
    ensures
      var h := ReadHeader(t, content, p.levels);
      Expected(p, view) == if h.Expects? then Some(h.bulk) else None
  {
    hide ReadHeader, FindSep, ToType, ToCode, Content, CommitElem, TakeBulk;
    HeaderRead(view, p.consumed, t, content);
  }

  lemma {:induction false} ReadLine(k: Type, text: bytes, p: State, view: bytes)
    requires LineOk(k, text) && Ready(p, view)
    requires At(view, p.consumed, [ToCode(k)] + text + SEP)
    ensures Consume(p, view) == Emit(Node(k, 1, p.Depth(), text), After(p, |text| + 3))
    ensures StepFits(p, view)
  {
    ConsumeHeader(k, text, p, view);
  }

  lemma {:induction false} CountRead(n: nat)
    requires n < SIZE
    ensures OneLine(Digits(n)) && FromChars(Digits(n)) == Some(n) && Digits(n)[0] != QUESTION
  {
    DigitsAreOneLine(n);
    PrintedLengthReadsBack(n, []);
    assert Digits(n) + [] == Digits(n);
    assert IsDigit(Digits(n)[0]);
  }

  lemma {:induction false} LengthIsExpected(k: Type, n: nat, levels: seq<nat>)
    requires (IsBlob(k) || (k.StreamedStringPart? && n > 0)) && n < SIZE && 1 <= |levels| <= MAX_DEPTH + 1
    ensures ReadHeader(k, Digits(n), levels) == Expects(Bulk(k, n))
  {
    hide FromChars, Digits;
    CountRead(n);
  }

  /** A length-prefixed value holds arbitrary bytes, separators included. */
  lemma {:induction false} ReadBlob(k: Type, data: bytes, p: State, view: bytes)
    requires (IsBlob(k) || (k.StreamedStringPart? && data != [])) && |data| + 2 < SIZE && Ready(p, view)
    requires At(view, p.consumed, BlobBytes(k, data))
    ensures Consume(p, view) == Emit(Node(k, 1, p.Depth(), data), After(p, |BlobBytes(k, data)|))
    ensures StepFits(p, view)
  {
    hide Consume, CommitElem, FromChars, FindSep, ReadHeader, Digits, ToCode;
    var c, n := p.consumed, |data|;
    var h := HeaderLine(k, n);
    assert BlobBytes(k, data) == h + (data + SEP);
    AtSplit(view, c, h, data + SEP);
    CountRead(n);
    ConsumeHeader(k, Digits(n), p, view);
    LengthIsExpected(k, n, p.levels);
    ReadBulk(State(p.levels, Some(Bulk(k, n)), c + |h|), data, view);
  }

  lemma {:induction false} ReadBulk(p: State, data: bytes, view: bytes)
    requires p.Ok() && p.bulk.Some? && p.bulk.value.length == |data| && |data| + 2 < SIZE
    requires CommitElem(p.levels).Some?
    requires At(view, p.consumed, data + SEP)
    ensures TakeBulk(p, view) == Emit(Node(p.bulk.value.kind, 1, p.Depth(), data), After(p, |data| + 2))
  {
    AtSplit(view, p.consumed, data, SEP);
  }

  /** Parsing from `p` emits `ns` and then does what parsing from `q` does. */
  ghost predicate Leads(p: State, view: bytes, ns: seq<Node>, q: State)
    requires p.Ok() && p.consumed <= |view| && q.Ok() && q.consumed <= |view|
  {
    && Parse(p, view, None) == Prepend(ns, Parse(q, view, None))
    && (NoWrap(q, view) ==> NoWrap(p, view))
  }

  /** One step of the loop when the adapter accepts. */
  lemma {:induction false} ParseEmit(p: State, view: bytes, n: Node, q: State)
    requires p.Ok() && !p.Done() && p.consumed <= |view|
    requires Consume(p, view) == Emit(n, q) && StepFits(p, view)
    ensures Leads(p, view, [n], q)
  {
    hide Consume;
  }

  /** The empty part closes the level of its streamed string, whatever count is left. */
  lemma {:induction false} ReadLastPart(p: State, base: seq<nat>, n: nat, view: bytes)
    requires 0 < n && base != [] && CommitElem(base).Some?
    requires p.levels == base + [n] && Ready(p, view)
    requires At(view, p.consumed, HeaderLine(StreamedStringPart, 0))
    ensures StepFits(p, view)
    ensures Consume(p, view) == Emit(Node(StreamedStringPart, 1, |base|, []),
                                     State(CommitElem(base).value, None, p.consumed + |Digits(0)| + 3))
  {
    hide Consume, CommitElem, FromChars, FindSep, TakeBulk;
    LastCommits(base, n);
    CountRead(0);
    ConsumeHeader(StreamedStringPart, Digits(0), p, view);
  }

  lemma {:induction false} LastCommits(base: seq<nat>, n: nat)
    requires 0 < n && base != [] && CommitElem(base).Some?
    ensures CommitElem(base + [n]).Some?
    ensures CommitElem((base + [n])[|base| := 1]) == CommitElem(base)
  {
    assert (base + [n])[|base| := 1] == base + [1];
    assert (base + [1])[..|base|] == base;
    assert (base + [n])[..|base|] == base;
  }

  lemma {:induction false} ReadParts(parts: seq<bytes>, base: seq<nat>, n: nat, c: nat, view: bytes)
    requires PartsOk(parts) && |parts| < n < SIZE
    requires 1 <= |base| <= MAX_DEPTH && CommitElem(base).Some?
    requires At(view, c, PartsBytes(parts))
    ensures Leads(State(base + [n], None, c), view, PartNodes(parts, |base|),
                  State(CommitElem(base).value, None, c + |PartsBytes(parts)|))
    decreases |parts|
  {
    hide Consume, Parse, NoWrap, StepFits;
    var p := State(base + [n], None, c);
    if parts == [] {
      LastCommits(base, n);
      ReadLastPart(p, base, n, view);
      ParseEmit(p, view, Node(StreamedStringPart, 1, |base|, []),
                State(CommitElem(base).value, None, c + |PartsBytes(parts)|));
    } else {
      var w := BlobBytes(StreamedStringPart, parts[0]);
      AtSplit(view, c, w, PartsBytes(parts[1..]));
      assert PartOk(parts[0]);
      assert p.levels[..|base|] == base;
      ReadBlob(StreamedStringPart, parts[0], p, view);
      var node := Node(StreamedStringPart, 1, |base|, parts[0]);
      ParseEmit(p, view, node, After(p, |w|));
      ReadParts(parts[1..], base, n - 1, c + |w|, view);
      LeadsOn(p, view, [node], After(p, |w|), PartNodes(parts[1..], |base|),
              State(CommitElem(base).value, None, c + |PartsBytes(parts)|));
    }
  }

  /** What parsing one element leads to: its nodes, then whatever the rest of the view leads to; or the
      depth error, after exactly the nodes that precede the first element nested too deeply. */
  ghost predicate Parses(p: State, view: bytes, ok: bool, all: seq<Node>, reached: seq<Node>, next: State)
    requires p.Ok() && p.consumed <= |view| && next.Ok() && next.consumed <= |view|
  {
    var r := Parse(p, view, None);
    if ok then Leads(p, view, all, next)
    else r.end == Failed(ExceedsMaxNestedDepth) && r.nodes == reached && NoWrap(p, view)
  }

  lemma {:induction false} LeadsOn(p: State, view: bytes, a: seq<Node>, q: State, b: seq<Node>, r: State)
    requires p.Ok() && p.consumed <= |view| && q.Ok() && q.consumed <= |view| && r.Ok() && r.consumed <= |view|
    requires Leads(p, view, a, q) && Leads(q, view, b, r)
    ensures Leads(p, view, a + b, r)
  {
    hide Parse, NoWrap;
    var ns := Parse(r, view, None).nodes;
    assert a + (b + ns) == a + b + ns;
  }

  lemma {:induction false} ParsesOn(
    p: State, view: bytes, a: seq<Node>, q: State, ok: bool, all: seq<Node>, reached: seq<Node>, next: State)
    requires p.Ok() && p.consumed <= |view| && q.Ok() && q.consumed <= |view| && next.Ok() && next.consumed <= |view|
    requires Leads(p, view, a, q) && Parses(q, view, ok, all, reached, next)
    ensures Parses(p, view, ok, a + all, a + reached, next)
  {
    hide Parse, NoWrap;
    if ok {
      LeadsOn(p, view, a, q, all, next);
    }
  }

  lemma {:induction false} ReadTree(t: Tree, p: State, view: bytes)
    requires WellFormed(t) && Ready(p, view) && StreamsFit(t, p.Depth())
    requires At(view, p.consumed, Encode(t))
    ensures Parses(p, view, p.Depth() + Height(t) <= MAX_DEPTH,
                   PreOrder(t, p.Depth()), Reached(t, p.Depth()), After(p, |Encode(t)|))
    decreases t, 1
  {
    hide Consume, Parse, NoWrap, StepFits;
    match t
    case Line(k, text) =>
      ReadLine(k, text, p, view);
      ParseEmit(p, view, Node(k, 1, p.Depth(), text), After(p, |Encode(t)|));
    case Blob(k, data) =>
      ReadBlob(k, data, p, view);
      ParseEmit(p, view, Node(k, 1, p.Depth(), data), After(p, |Encode(t)|));
    case Stream(parts) =>
      ReadStream(parts, p, view);
    case Aggregate(k, items) =>
      ReadAggregate(t, p, view);
  }

  lemma {:induction false} ReadStreamHeader(p: State, view: bytes)
    requires Ready(p, view) && p.Depth() < MAX_DEPTH
    requires At(view, p.consumed, [ToCode(BlobString), QUESTION] + SEP)
    ensures StepFits(p, view)
    ensures Consume(p, view) == Emit(Node(StreamedString, 0, p.Depth() + 1, []),
                                     State(p.levels + [SIZE - 1], None, p.consumed + 4))
  {
    hide Consume;
    assert [ToCode(BlobString), QUESTION] + SEP == [ToCode(BlobString)] + [QUESTION] + SEP;
    assert OneLine([QUESTION]);
    ConsumeHeader(BlobString, [QUESTION], p, view);
  }

  lemma {:induction false} ReadStream(parts: seq<bytes>, p: State, view: bytes)
    requires WellFormed(Stream(parts)) && Ready(p, view) && p.Depth() < MAX_DEPTH
    requires At(view, p.consumed, Encode(Stream(parts)))
    ensures Leads(p, view, PreOrder(Stream(parts), p.Depth()), After(p, |Encode(Stream(parts))|))
  {
    hide Consume, Parse, NoWrap, StepFits, CommitElem, PartsBytes, PartNodes, Digits, FindSep;
    var c, d := p.consumed, p.Depth();
    var h := [ToCode(BlobString), QUESTION] + SEP;
    AtSplit(view, c, h, PartsBytes(parts));
    ReadStreamHeader(p, view);
    ParseEmit(p, view, Node(StreamedString, 0, d + 1, []), State(p.levels + [SIZE - 1], None, c + 4));
    ReadParts(parts, p.levels, SIZE - 1, c + 4, view);
  }

  /** An aggregate header opens a level with one count per child. */
  lemma {:induction false} ReadCount(k: Type, count: nat, p: State, view: bytes)
    requires AggregateOk(k, count) && Ready(p, view)
    requires At(view, p.consumed, HeaderLine(k, Announced(k, count)))
    ensures
      var n := Announced(k, count);
      var next := p.consumed + |HeaderLine(k, n)|;
      var node := Node(k, n, p.Depth(), []);
      Consume(p, view) ==
      if count == 0 then Emit(node, After(p, |HeaderLine(k, n)|))
      else if p.Depth() < MAX_DEPTH then Emit(node, State(p.levels + [count], None, next))
      else Fail(ExceedsMaxNestedDepth, p)
    ensures StepFits(p, view)
  {
    hide Consume, ReadHeader, FromChars, Digits, ToCode, CommitElem;
    var n := Announced(k, count);
    CountRead(n);
    ConsumeHeader(k, Digits(n), p, view);
    CountIsRead(k, count, p.levels);
  }

  lemma {:induction false} CountIsRead(k: Type, count: nat, levels: seq<nat>)
    requires AggregateOk(k, count) && 1 <= |levels| <= MAX_DEPTH + 1
    ensures
      var n, d := Announced(k, count), |levels| - 1;
      ReadHeader(k, Digits(n), levels) ==
      if count == 0 then Committed(Node(k, 0, d, []), levels)
      else if d < MAX_DEPTH then Emits(Node(k, n, d, []), levels + [count])
      else Rejects(ExceedsMaxNestedDepth)
  {
    hide FromChars, Digits, CommitElem;
    var n := Announced(k, count);
    CountRead(n);
    assert n * Multiplicity(k) % SIZE == count;
  }

  lemma {:induction false} AggregateUnfolds(t: Tree, d: nat)
    requires t.Aggregate? && WellFormed(t) && StreamsFit(t, d)
    ensures AggregateOk(t.kind, |t.items|) && HasCode(t.kind)
    ensures AllWellFormed(t.items) && AllStreamsFit(t.items, d + 1)
    ensures
      var n := Announced(t.kind, |t.items|);
      var h, node := HeaderLine(t.kind, n), Node(t.kind, n, d, []);
      && Encode(t) == h + EncodeAll(t.items) && PreOrder(t, d) == [node] + PreOrderAll(t.items, d + 1)
      && Height(t) == (if t.items == [] then 0 else 1 + MaxHeight(t.items))
      && (d + Height(t) > MAX_DEPTH ==>
            Reached(t, d) == if d >= MAX_DEPTH then [] else [node] + ReachedAll(t.items, d + 1))
  {
  }

  lemma {:induction false} ReadAggregate(t: Tree, p: State, view: bytes)
    requires t.Aggregate?
    requires WellFormed(t) && Ready(p, view) && StreamsFit(t, p.Depth())
    requires At(view, p.consumed, Encode(t))
    ensures Parses(p, view, p.Depth() + Height(t) <= MAX_DEPTH,
                   PreOrder(t, p.Depth()), Reached(t, p.Depth()), After(p, |Encode(t)|))
    decreases t, 0
  {
    hide Consume, Parse, NoWrap, StepFits, CommitElem, Digits, ToCode, Announced, Multiplicity;
    hide Encode, PreOrder, Reached, Height, WellFormed, StreamsFit, AggregateOk;
    var c, d, k, items := p.consumed, p.Depth(), t.kind, t.items;
    AggregateUnfolds(t, d);
    var n := Announced(k, |items|);
    var h := HeaderLine(k, n);
    AtSplit(view, c, h, EncodeAll(items));
    ReadCount(k, |items|, p, view);
    var node := Node(k, n, d, []);
    if items == [] {
      ParseEmit(p, view, node, After(p, |h|));
    } else if d < MAX_DEPTH {
      var q := State(p.levels + [|items|], None, c + |h|);
      ParseEmit(p, view, node, q);
      ReadTrees(items, p.levels, c + |h|, view);
      ParsesOn(p, view, [node], q, d + Height(t) <= MAX_DEPTH, PreOrderAll(items, d + 1), ReachedAll(items, d + 1),
               After(p, |Encode(t)|));
    } else {
      ParseFail(p, view, ExceedsMaxNestedDepth);
    }
  }

  lemma {:induction false} ParseFail(p: State, view: bytes, e: Error)
    requires p.Ok() && !p.Done() && p.consumed <= |view|
    requires Consume(p, view) == Fail(e, p)
    ensures Parse(p, view, None) == Parsed(Failed(e), p, []) && NoWrap(p, view)
  {
    hide Consume;
  }

  lemma {:induction false} ReadTrees(ts: seq<Tree>, base: seq<nat>, c: nat, view: bytes)
    requires ts != [] && |ts| < SIZE
    requires AllWellFormed(ts) && AllStreamsFit(ts, |base|)
    requires 1 <= |base| <= MAX_DEPTH && CommitElem(base).Some?
    requires At(view, c, EncodeAll(ts))
    ensures Parses(State(base + [|ts|], None, c), view, |base| + MaxHeight(ts) <= MAX_DEPTH,
                   PreOrderAll(ts, |base|), ReachedAll(ts, |base|),
                   State(CommitElem(base).value, None, c + |EncodeAll(ts)|))
    decreases ts, 0
  {
    hide Consume, Parse, NoWrap, StepFits, Leads, CommitElem, PreOrder, Reached, Height, Encode;
    var p, d := State(base + [|ts|], None, c), |base|;
    var next := State(CommitElem(base).value, None, c + |EncodeAll(ts)|);
    AtSplit(view, c, Encode(ts[0]), EncodeAll(ts[1..]));
    ChildCommits(base, |ts|);
    ReadTree(ts[0], p, view);
    if |ts| > 1 {
      var q := After(p, |Encode(ts[0])|);
      ReadTrees(ts[1..], base, q.consumed, view);
      if d + Height(ts[0]) <= MAX_DEPTH {
        ParsesOn(p, view, PreOrder(ts[0], d), q, d + MaxHeight(ts[1..]) <= MAX_DEPTH,
                 PreOrderAll(ts[1..], d), ReachedAll(ts[1..], d), next);
      }
    } else {
      assert PreOrderAll(ts, d) == PreOrder(ts[0], d) && EncodeAll(ts) == Encode(ts[0]);
      assert d + Height(ts[0]) > MAX_DEPTH ==> ReachedAll(ts, d) == Reached(ts[0], d);
    }
  }

  /** A child of a level is complete: one less remains, or the level itself is complete. */
  lemma {:induction false} ChildCommits(base: seq<nat>, n: nat)
    requires base != [] && n > 0 && CommitElem(base).Some?
    ensures CommitElem(base + [n]) == if n == 1 then CommitElem(base) else Some(base + [n - 1])
  {
    assert (base + [n])[..|base|] == base;
  }

  /** Parser round trip.  For every message a peer can send, with any bytes after it: within the depth
      limit the parser emits exactly its pre-order node list and consumes exactly its encoding; beyond
      it, the parser reports the depth error after exactly the nodes before the offending element. */
  lemma {:induction false} EncodedMessageParses(t: Tree, rest: bytes)
    requires WellFormed(t) && StreamsFit(t, 0)
    ensures
      var r := Parse(INITIAL, Encode(t) + rest, None);
      if Height(t) <= MAX_DEPTH then
        r.end == Complete && r.nodes == PreOrder(t, 0) && r.state == State([1], None, |Encode(t)|)
      else
        r.end == Failed(ExceedsMaxNestedDepth) && r.nodes == Reached(t, 0)
    ensures NoWrap(INITIAL, Encode(t) + rest)
  {
    ReadTree(t, INITIAL, Encode(t) + rest);
    EncodingNotEmpty(t);
  }

  lemma {:induction false} EncodingNotEmpty(t: Tree)
    requires WellFormed(t)
    ensures |Encode(t)| >= 3
  {
  }
}
