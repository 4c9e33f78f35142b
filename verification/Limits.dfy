/** Where the parser stops meeting its promises, and exactly when. */
module Limits {
  import opened Bytes
  import opened Decimal
  import opened Resp3
  import opened ParserSpec
  import opened Prefixes
  import opened Trees
  import opened RoundTrip
  import opened Regularity

  // Undefined steps.

  /** While the sentinel is not 1, closing levels never goes below level 0. */
  lemma {:induction false} CommitStaysAbove(levels: seq<nat>)
    requires levels != [] && levels[0] != 1
    ensures CommitElem(levels).Some?
    ensures
      var l := CommitElem(levels).value;
      l[0] == if |l| == 1 then Dec(levels[0]) else levels[0]
  {
    var top := |levels| - 1;
    if top > 0 && Dec(levels[top]) == 0 {
      CommitStaysAbove(levels[..top]);
    }
  }

  /** The three headers whose effect the source leaves undefined: a blob without a length, a streamed string
      below the last level, and an empty part outside every streamed string. */
  predicate Fatal(t: Type, content: bytes, depth: nat) {
    || (IsBlob(t) && content == [])
    || (IsBlob(t) && content != [] && content[0] == QUESTION && depth == MAX_DEPTH)
    || (t.StreamedStringPart? && FromChars(content) == Some(0) && depth == 0)
  }

  lemma {:induction false} UndefinedExactly(t: Type, content: bytes, levels: seq<nat>)
    requires 1 <= |levels| <= MAX_DEPTH + 1 && levels[0] == 2
    ensures ReadHeader(t, content, levels).Undefined? <==> Fatal(t, content, |levels| - 1)
  {
    CommitStaysAbove(levels);
    if |levels| > 1 {
      CommitStaysAbove(levels[|levels| - 1 := 1]);
    }
  }

  /** A state in the middle of a message: the sentinel is untouched. */
  predicate Within(p: State) {
    p.Ok() && p.levels[0] == 2 && (p.bulk.Some? ==> p.consumed > 0)
  }

  lemma {:induction false} HeaderKeepsSentinel(t: Type, content: bytes, levels: seq<nat>)
    requires 1 <= |levels| <= MAX_DEPTH + 1 && levels[0] == 2
    ensures
      var h := ReadHeader(t, content, levels);
      h.Emits? ==> h.levels[0] == 2 || |h.levels| == 1
  {
    CommitStaysAbove(levels);
    if |levels| > 1 {
      CommitStaysAbove(levels[|levels| - 1 := 1]);
    }
  }

  /** The sentinel changes only when the message is complete. */
  lemma {:induction false} StepKeepsSentinel(p: State, view: bytes)
    requires Within(p) && p.consumed <= |view|
    ensures Consume(p, view).Emit? ==> Within(Consume(p, view).state) || Consume(p, view).state.Done()
    ensures Consume(p, view).Broken? <==>
            && p.bulk.None? && FindSep(view, p.consumed).Some?
            && Fatal(ToType(view[p.consumed]), Content(view, p.consumed, FindSep(view, p.consumed).value), p.Depth())
  {
    hide ReadHeader, ToType, CommitElem, Fatal;
    CommitStaysAbove(p.levels);
    if p.bulk.None? && FindSep(view, p.consumed).Some? {
      var t, content := ToType(view[p.consumed]), Content(view, p.consumed, FindSep(view, p.consumed).value);
      UndefinedExactly(t, content, p.levels);
      HeaderKeepsSentinel(t, content, p.levels);
    }
  }

  /** The parse reads a fatal header before the adapter refuses a node. */
  predicate MeetsFatal(p: State, view: bytes, fault: Option<Fault>)
    requires p.Ok() && p.consumed <= |view|
    decreases |view| - p.consumed, if p.bulk.Some? then 1 else 0
  {
    && !p.Done()
    && (|| (&& p.bulk.None? && FindSep(view, p.consumed).Some?
            && Fatal(ToType(view[p.consumed]), Content(view, p.consumed, FindSep(view, p.consumed).value), p.Depth()))
        || (&& Consume(p, view).Emit? && !(fault.Some? && fault.value.at == 0)
            && MeetsFatal(Consume(p, view).state, view, Later(fault))))
  }

  /** Every step of a parse is defined, and no level below 0 is touched, unless it reads one of the three. */
  lemma {:induction false} UndefinedParse(p: State, view: bytes, fault: Option<Fault>)
    requires p.Ok() && p.consumed <= |view| && (Within(p) || p.Done())
    ensures Parse(p, view, fault).end.Crashed? <==> MeetsFatal(p, view, fault)
    decreases |view| - p.consumed, if p.bulk.Some? then 1 else 0
  {
    hide Consume, Fatal, FindSep;
    if !p.Done() {
      StepKeepsSentinel(p, view);
      if Consume(p, view).Emit? && !(fault.Some? && fault.value.at == 0) {
        UndefinedParse(Consume(p, view).state, view, Later(fault));
      }
    }
  }

  /** A parse that needs more data leaves the parser in the middle of the message. */
  lemma {:induction false} PartialStaysWithin(p: State, view: bytes, fault: Option<Fault>)
    requires Within(p) && !p.Done() && p.consumed <= |view|
    ensures
      var r := Parse(p, view, fault);
      r.end.Partial? ==> Within(r.state) && !r.state.Done()
    decreases |view| - p.consumed, if p.bulk.Some? then 1 else 0
  {
    hide Consume, Fatal, FindSep;
    StepKeepsSentinel(p, view);
    MoreStaysWithin(p, view);
    var c := Consume(p, view);
    if c.Emit? && !(fault.Some? && fault.value.at == 0) && !c.state.Done() {
      PartialStaysWithin(c.state, view, Later(fault));
    }
  }

  lemma {:induction false} MoreStaysWithin(p: State, view: bytes)
    requires Within(p) && p.consumed <= |view|
    ensures Consume(p, view).More? ==> Within(Consume(p, view).state)
  {
    hide ReadHeader, ToType, CommitElem, Content;
  }

  /** A blob without a length, and an empty part outside every streamed string. */
  lemma {:induction false} UndefinedHeaderExamples()
    ensures Parse(INITIAL, [ToCode(BlobString)] + SEP, None).end.Crashed?
    ensures Parse(INITIAL, HeaderLine(StreamedStringPart, 0), None).end.Crashed?
  {
    hide Parse, FromChars;
    var blank, part := [ToCode(BlobString)] + SEP, HeaderLine(StreamedStringPart, 0);
    assert [ToCode(BlobString)] + [] + SEP == blank;
    HeaderRead(blank, 0, BlobString, []);
    UndefinedParse(INITIAL, blank, None);
    CountRead(0);
    HeaderRead(part, 0, StreamedStringPart, Digits(0));
    UndefinedParse(INITIAL, part, None);
  }

  /** The headers of `k` arrays, each the only child of the one before. */
  function Nested(k: nat): (w: bytes) {
    if k == 0 then [] else HeaderLine(Array, 1) + Nested(k - 1)
  }

  lemma {:induction false} DeepStreamMeets(p: State, view: bytes)
    requires Within(p) && p.bulk.None? && !p.Done() && |p.levels| == MAX_DEPTH + 1
    requires At(view, p.consumed, [ToCode(BlobString)] + [QUESTION] + SEP)
    ensures MeetsFatal(p, view, None)
  {
    hide Consume;
    HeaderRead(view, p.consumed, BlobString, [QUESTION]);
  }

  lemma {:induction false} MeetsLater(p: State, view: bytes)
    requires p.Ok() && p.consumed <= |view| && !p.Done() && Consume(p, view).Emit?
    requires MeetsFatal(Consume(p, view).state, view, None)
    ensures MeetsFatal(p, view, None)
  {
    hide Consume, Fatal, FindSep, ToType, Content;
  }

  lemma {:induction false} OneLevelMore(p: State, rest: bytes, view: bytes)
    requires Within(p) && p.bulk.None? && !p.Done() && p.Depth() < MAX_DEPTH
    requires At(view, p.consumed, HeaderLine(Array, 1) + rest)
    ensures
      var q := State(p.levels + [1], None, p.consumed + |HeaderLine(Array, 1)|);
      && Within(q) && !q.Done() && At(view, q.consumed, rest)
      && Consume(p, view).Emit? && Consume(p, view).state == q
  {
    hide Consume, FromChars, HeaderLine, CommitElem, FindSep, Fatal, ToType, ToCode, StepFits;
    AtSplit(view, p.consumed, HeaderLine(Array, 1), rest);
    CommitStaysAbove(p.levels);
    ReadCount(Array, 1, p, view);
  }

  lemma {:induction false} NestedMeets(p: State, k: nat, view: bytes)
    requires Within(p) && p.bulk.None? && !p.Done() && |p.levels| + k == MAX_DEPTH + 1
    requires At(view, p.consumed, Nested(k) + ([ToCode(BlobString), QUESTION] + SEP))
    ensures MeetsFatal(p, view, None)
    decreases k
  {
    hide Consume, HeaderLine, ToCode, MeetsFatal, At;
    var stream := [ToCode(BlobString), QUESTION] + SEP;
    if k == 0 {
      assert Nested(0) + stream == [ToCode(BlobString)] + [QUESTION] + SEP;
      DeepStreamMeets(p, view);
    } else {
      assert Nested(k) + stream == HeaderLine(Array, 1) + (Nested(k - 1) + stream);
      OneLevelMore(p, Nested(k - 1) + stream, view);
      NestedMeets(Consume(p, view).state, k - 1, view);
      MeetsLater(p, view);
    }
  }

  /** A streamed string in the innermost of five arrays. */
  lemma {:induction false} UndefinedDepthExample()
    ensures Parse(INITIAL, Nested(5) + ([ToCode(BlobString), QUESTION] + SEP), None).end.Crashed?
  {
    hide Parse, MeetsFatal;
    var view := Nested(5) + ([ToCode(BlobString), QUESTION] + SEP);
    NestedMeets(INITIAL, 5, view);
    UndefinedParse(INITIAL, view, None);
  }

  // Lengths and counts that wrap.

  lemma {:induction false} FewDigits(n: nat)
    ensures |Digits(n)| <= 1 + n / 10
  {
    if n >= 10 {
      FewDigits(n / 10);
    }
  }

  /** A blob whose announced length plus two wraps: what is read depends on how much has arrived. */
  lemma {:induction false} WrappedLengthExample(x: byte, y: byte)
    ensures
      var view := HeaderLine(BlobString, SIZE - 1) + [x];
      !NoWrap(INITIAL, view) && !Agrees(INITIAL, view, [y])
  {
    hide Digits, FromChars, Agrees;
    var n := SIZE - 1;
    var h := HeaderLine(BlobString, n);
    var view := h + [x];
    CountRead(n);
    FewDigits(n);
    assert At(view, 0, h);
    ConsumeHeader(BlobString, Digits(n), INITIAL, view);
    assert ReadHeader(BlobString, Digits(n), [2]) == Expects(Bulk(BlobString, n));
    assert !StepFits(INITIAL, view);
    WrapDisagrees(INITIAL, view, [y]);
  }

  /** Two children of the root, one after the other. */
  lemma {:induction false} TwoChildren(a: seq<nat>, b: seq<nat>, c: seq<nat>, d: seq<nat>)
    requires a == [2, 2] && b == [2, 1] && c == [1] && d == [2]
    ensures CommitElem(a) == Some(b) && CommitElem(b) == Some(c) && CommitElem(d) == Some(c)
  {
    assert a[..1] + [1] == b;
    assert b[..1] == d;
    assert d[..0] + [1] == c;
  }

  /** A map whose announced number of pairs wraps when doubled: two children complete it, although it
      announces more than any message can hold, and what was emitted is no message. */
  lemma {:induction false} WrappedCountExample()
    ensures
      var leaf := Encode(Line(Null, []));
      var r := Parse(INITIAL, HeaderLine(Map, SIZE / 2 + 1) + leaf + leaf, None);
      r.end.Complete? && |r.nodes| == 3 && !IsMessage(r.nodes)
  {
    hide Digits, FromChars, IsMessage, Parse, NoWrap, Consume, CommitElem;
    var n := SIZE / 2 + 1;
    var leaf := Encode(Line(Null, []));
    var h := HeaderLine(Map, n);
    var view := h + leaf + leaf;
    CountRead(n);
    FewDigits(n);
    TwoChildren([2, 2], [2, 1], [1], [2]);
    assert At(view, 0, h);
    ConsumeHeader(Map, Digits(n), INITIAL, view);
    var p := State([2, 2], None, |h|);
    assert ReadHeader(Map, Digits(n), [2]) == Emits(Node(Map, n, 0, []), [2, 2]);
    ParseEmit(INITIAL, view, Node(Map, n, 0, []), p);
    assert At(view, |h|, leaf) && At(view, |h| + 3, leaf);
    ReadLine(Null, [], p, view);
    var q := State([2, 1], None, |h| + 3);
    ParseEmit(p, view, Node(Null, 1, 1, []), q);
    ReadLine(Null, [], q, view);
    var z := State([1], None, |h| + 6);
    ParseEmit(q, view, Node(Null, 1, 1, []), z);
    ParseDone(z, view);
    var nodes := Parse(INITIAL, view, None).nodes;
    assert nodes[0] == Node(Map, n, 0, []) && !Suits(nodes[0], false);
    OnlyRegular(nodes);
  }

  lemma {:induction false} ParseDone(p: State, view: bytes)
    requires p.Ok() && p.Done() && p.consumed <= |view|
    ensures Parse(p, view, None) == Parsed(Complete, p, [])
  {
  }
}
