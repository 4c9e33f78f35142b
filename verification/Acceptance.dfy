/** What the parser accepts is exactly one message. */
module Acceptance {
  import opened Bytes
  import opened Decimal
  import opened Resp3
  import opened ParserSpec
  import opened Prefixes
  import opened Trees
  import opened Spines
  import opened Regularity

  // One step of the parser, outside streamed strings.

  /** A node either opens a level of its own or is complete by itself. */
  ghost predicate Advances(n: Node, levels: seq<nat>, after: seq<nat>)
    requires levels != []
  {
    && n.depth == |levels| - 1
    && if Opens(n) then
         && |levels| <= MAX_DEPTH
         && n.value == []
         && after == levels + [n.aggregateSize * Multiplicity(n.dataType) % SIZE]
       else
         && CommitElem(levels) == Some(after)
         && WellFormed(Leaf(n))
         && PreOrder(Leaf(n), n.depth) == [n]
  }

  lemma {:induction false} ContentIsOneLine(view: bytes, from: nat, pos: nat)
    requires from < pos && from <= |view| && FindSep(view, from) == Some(pos)
    ensures OneLine(Content(view, from, pos))
  {
    var c := Content(view, from, pos);
    forall i | 0 <= i ensures !SepAt(c, i) {
      assert !SepAt(view, from + 1 + i) || from + 1 + i >= pos;
    }
  }

  lemma {:induction false} HeaderAdvances(t: Type, content: bytes, levels: seq<nat>)
    requires 1 <= |levels| <= MAX_DEPTH + 1 && OneLine(content)
    requires ReadHeader(t, content, levels).Emits?
    requires !IsStreamed(ReadHeader(t, content, levels).node.dataType)
    ensures Advances(ReadHeader(t, content, levels).node, levels, ReadHeader(t, content, levels).levels)
  {
    hide FromChars, CommitElem, OneLine;
  }

  lemma {:induction false} BulkAdvances(p: State, view: bytes)
    requires p.Ok() && p.bulk.Some? && p.consumed <= |view| && |view| + 2 < SIZE
    requires IsBlob(p.bulk.value.kind) && TakeBulk(p, view).Emit?
    ensures Advances(TakeBulk(p, view).node, p.levels, TakeBulk(p, view).state.levels)
  {
  }

  /** A bulk is expected only after its header; it is a blob, or a part of a streamed string with bytes. */
  predicate BulkOk(p: State) {
    p.bulk.Some? ==>
      && p.consumed > 0 && p.bulk.value.length < SIZE
      && (IsBlob(p.bulk.value.kind) || (p.bulk.value.kind.StreamedStringPart? && p.bulk.value.length > 0))
  }

  lemma {:induction false} ConsumeAdvances(p: State, view: bytes)
    requires p.Ok() && BulkOk(p) && p.consumed <= |view| && |view| + 2 < SIZE
    requires Consume(p, view).Emit? && !IsStreamed(Consume(p, view).node.dataType)
    ensures Advances(Consume(p, view).node, p.levels, Consume(p, view).state.levels)
  {
    hide Advances;
    if p.bulk.Some? {
      BulkAdvances(p, view);
    } else {
      FirstLineAdvances(p, view);
    }
  }

  lemma {:induction false} FirstLineAdvances(p: State, view: bytes)
    requires p.Ok() && p.bulk.None? && p.consumed <= |view| && |view| + 2 < SIZE
    requires Consume(p, view).Emit? && !IsStreamed(Consume(p, view).node.dataType)
    ensures Advances(Consume(p, view).node, p.levels, Consume(p, view).state.levels)
  {
    hide ReadHeader, Advances;
    var c, pos := p.consumed, FindSep(view, p.consumed).value;
    var t, content := ToType(view[c]), Content(view, c, pos);
    if pos == c {
      NothingFromBlankLine(content, p.levels);
    } else {
      ContentIsOneLine(view, c, pos);
      var h := ReadHeader(t, content, p.levels);
      if h.Expects? {
        HeaderNode(t, content, p.levels, false);
        BulkAdvances(State(p.levels, Some(h.bulk), pos + 2), view);
      } else {
        HeaderAdvances(t, content, p.levels);
      }
    }
  }

  lemma {:induction false} NothingFromBlankLine(content: bytes, levels: seq<nat>)
    requires 1 <= |levels| <= MAX_DEPTH + 1
    ensures ToType(CR) == Invalid
    ensures ReadHeader(Invalid, content, levels) == Rejects(InvalidDataType)
  {
  }

  // One step of the parser around streamed strings.

  lemma {:induction false} StreamOpens(p: State, view: bytes)
    requires p.Ok() && BulkOk(p) && p.consumed <= |view|
    requires Consume(p, view).Emit? && Consume(p, view).node.dataType.StreamedString?
    ensures
      var n, q := Consume(p, view).node, Consume(p, view).state;
      && |p.levels| <= MAX_DEPTH && n == Node(StreamedString, 0, |p.levels|, [])
      && q.levels == p.levels + [SIZE - 1] && q.consumed > 0
  {
    hide FromChars, CommitElem;
  }

  /** The header of the part that ends a streamed string. */
  predicate LastPart(p: State, view: bytes)
    requires p.consumed <= |view|
  {
    && p.bulk.None? && FindSep(view, p.consumed).Some?
    && HeaderAt(p, view).0.StreamedStringPart? && FromChars(HeaderAt(p, view).1) == Some(0)
  }

  lemma {:induction false} PartHeader(content: bytes, base: seq<nat>, n: nat)
    requires 1 <= |base| <= MAX_DEPTH && n >= 2
    ensures
      var h := ReadHeader(StreamedStringPart, content, base + [n]);
      if FromChars(content) == Some(0) then
        CommitElem(base).Some? ==> h == Emits(Node(StreamedStringPart, 1, |base|, []), CommitElem(base).value)
      else !h.Emits?
  {
    assert (base + [n])[|base| := 1] == base + [1];
    assert (base + [1])[..|base|] == base;
  }

  /** A part ends the streamed string, adds to it, or was announced with a length that wraps. */
  lemma {:induction false} PartArrives(p: State, view: bytes, base: seq<nat>, n: nat)
    requires p.Ok() && BulkOk(p) && p.consumed <= |view| && |view| + 2 < SIZE
    requires p.levels == base + [n] && n >= 2 && base != [] && CommitElem(base).Some?
    requires Consume(p, view).Emit? && Consume(p, view).node.dataType.StreamedStringPart?
    ensures
      var m, q := Consume(p, view).node, Consume(p, view).state;
      && m == Node(StreamedStringPart, 1, |base|, m.value)
      && (if LastPart(p, view) then m.value == [] && q.levels == CommitElem(base).value
          else
            && q.levels == base + [n - 1]
            && (m.value != [] ==> PartOk(m.value))
            && (m.value == [] ==> q.consumed == |view| && !StepFits(p, view)))
  {
    hide ReadHeader, FromChars;
    assert CommitElem(base + [n]) == Some(base + [n - 1]) by {
      assert (base + [n])[..|base|] == base;
    }
    if p.bulk.Some? {
      EmptyBulk(p, view);
    } else {
      NodeHasHeader(p, view);
      var (t, content) := HeaderAt(p, view);
      HeaderNode(t, content, p.levels, true);
      PartHeader(content, base, n);
      var h := ReadHeader(t, content, p.levels);
      if h.Expects? {
        EmptyBulk(State(p.levels, Some(h.bulk), FindSep(view, p.consumed).value + 2), view);
      }
    }
  }

  // Whole messages.

  /** The parser holds open exactly this spine. */
  predicate Holding(p: State, fs: Frames, st: Option<seq<bytes>>) {
    && SpineOk(fs) && StreamOk(fs, st) && p.levels == Levels(fs, st)
    && (st.Some? ==> |st.value| + (if p.bulk.Some? then 1 else 0) < p.consumed)
  }

  /** What a node makes of a spine. */
  ghost predicate Extends(s: Spine, q: State, before: seq<Node>, n: Node, inside: bool) {
    && (s.Closed? <==> q.Done())
    && (s.Closed? ==> Matches(s, q.levels, before + [n]) && !inside)
    && (s.Open? ==>
          Holding(q, s.frames, s.stream) && OpenNodes(s.frames, s.stream) == before + [n] && s.stream.Some? == inside)
  }

  lemma {:induction false} Grown(fs: Frames, t: Tree, q: State, before: seq<Node>, n: Node)
    requires SpineOk(fs) && Good(t, |fs|) && CommitElem(Counts(fs)) == Some(q.levels)
    requires q.bulk.None? && q.consumed > 0 && SpineNodes(fs) + PreOrder(t, |fs|) == before + [n]
    ensures Extends(Add(fs, t), q, before, n, false)
  {
    hide Good, Counts, CommitElem, SpineNodes, PreOrder;
    CommitIsAdd(fs, t);
    var s := Add(fs, t);
    if s.Open? {
      assert OpenNodes(s.frames, None) == SpineNodes(s.frames);
      assert Levels(s.frames, None) == Counts(s.frames);
    }
  }

  lemma {:induction false} ExtendOutside(p: State, view: bytes, fs: Frames) returns (s: Spine)
    requires p.Ok() && BulkOk(p) && !p.Done() && p.consumed <= |view| && |view| + 2 < SIZE && Holding(p, fs, None)
    requires Consume(p, view).Emit? && Suits(Consume(p, view).node, false)
    ensures
      var n, q := Consume(p, view).node, Consume(p, view).state;
      Extends(s, q, OpenNodes(fs, None), n, StaysInside(n, false))
  {
    hide Consume, CommitElem, Counts, SpineNodes, Good, PreOrder, Leaf, PreOrderAll;
    var n, q := Consume(p, view).node, Consume(p, view).state;
    assert OpenNodes(fs, None) == SpineNodes(fs);
    assert p.levels == Counts(fs);
    if n.dataType.StreamedString? {
      StreamOpens(p, view);
      s := Open(fs, Some([]));
      assert PartsSoFar([], |fs| + 1) == [];
      assert StreamNodes([], |fs| + 1) == [n];
    } else {
      ConsumeAdvances(p, view);
      if Opens(n) {
        OpenLevel(fs, n);
        var fs1 := fs + [Frame(n.dataType, n.aggregateSize, [])];
        s := Open(fs1, None);
        assert OpenNodes(fs1, None) == SpineNodes(fs1);
      } else {
        LeafIsGood(n);
        s := Add(fs, Leaf(n));
        Grown(fs, Leaf(n), q, SpineNodes(fs), n);
      }
    }
  }

  lemma {:induction false} StreamEnds(q: State, fs: Frames, parts: seq<bytes>, n: Node)
    requires SpineOk(fs) && StreamOk(fs, Some(parts)) && n == Node(StreamedStringPart, 1, |fs| + 1, [])
    requires CommitElem(Counts(fs)) == Some(q.levels) && q.bulk.None? && q.consumed > 0
    ensures Extends(Add(fs, Stream(parts)), q, OpenNodes(fs, Some(parts)), n, false)
  {
    hide CommitElem, Counts, SpineNodes, Good, PreOrder, SpineOk, PartNodes, StreamNodes, Add;
    var before := OpenNodes(fs, Some(parts));
    StreamIsGood(parts, |fs|);
    StreamIsClosed(parts, |fs| + 1);
    StreamPreOrder(parts, |fs|);
    assert before + [n] == SpineNodes(fs) + (StreamNodes(parts, |fs| + 1) + [n]);
    Grown(fs, Stream(parts), q, before, n);
  }

  lemma {:induction false} OnePartMore(parts: seq<bytes>, part: bytes, depth: nat)
    ensures PartsSoFar(parts + [part], depth) == PartsSoFar(parts, depth) + [Node(StreamedStringPart, 1, depth, part)]
  {
    assert (parts + [part])[..|parts|] == parts;
  }

  lemma {:induction false} StreamGrows(q: State, fs: Frames, parts: seq<bytes>, n: Node)
    requires SpineOk(fs) && StreamOk(fs, Some(parts)) && |parts| + 1 < SIZE - 2
    requires n == Node(StreamedStringPart, 1, |fs| + 1, n.value) && PartOk(n.value)
    requires q.levels == Counts(fs) + [SIZE - 2 - |parts|] && q.bulk.None? && |parts| + 1 < q.consumed
    ensures Extends(Open(fs, Some(parts + [n.value])), q, OpenNodes(fs, Some(parts)), n, true)
  {
    hide SpineNodes, Counts, SpineOk, PartsSoFar;
    var more, d := parts + [n.value], |fs| + 1;
    OnePartMore(parts, n.value, d);
    assert OpenNodes(fs, Some(more)) == OpenNodes(fs, Some(parts)) + [n];
  }

  lemma {:induction false} ExtendInside(p: State, view: bytes, fs: Frames, parts: seq<bytes>) returns (s: Spine)
    requires p.Ok() && BulkOk(p) && p.consumed <= |view| && |view| + 2 < SIZE && Holding(p, fs, Some(parts))
    requires Consume(p, view).Emit? && Suits(Consume(p, view).node, true)
    requires LastPart(p, view) || Consume(p, view).node.value != []
    ensures
      var n, q := Consume(p, view).node, Consume(p, view).state;
      Extends(s, q, OpenNodes(fs, Some(parts)), n, StaysInside(n, true))
  {
    hide Consume, CommitElem, Counts, SpineNodes, Good, PreOrder, LastPart, OpenNodes, Extends, Add, SpineOk;
    var n, q := Consume(p, view).node, Consume(p, view).state;
    StreamIsGood(parts, |fs|);
    CommitIsAdd(fs, Stream(parts));
    PartArrives(p, view, Counts(fs), SIZE - 1 - |parts|);
    if LastPart(p, view) {
      s := Add(fs, Stream(parts));
      StreamEnds(q, fs, parts, n);
    } else {
      s := Open(fs, Some(parts + [n.value]));
      StreamGrows(q, fs, parts, n);
    }
  }

  lemma {:induction false} StreamIsGood(parts: seq<bytes>, depth: nat)
    requires depth < MAX_DEPTH && |parts| < SIZE - 1 && PartsOk(parts)
    ensures Good(Stream(parts), depth)
  {
  }

  lemma {:induction false} StreamPreOrder(parts: seq<bytes>, depth: nat)
    ensures PreOrder(Stream(parts), depth) == [Node(StreamedString, 0, depth + 1, [])] + PartNodes(parts, depth + 1)
  {
  }

  /** Level `k` is that of a streamed string and far from used up. */
  predicate Deep(p: State, k: int) {
    1 <= k < |p.levels| && p.levels[k] + p.consumed >= SIZE + if p.bulk.Some? then 1 else 0
  }

  /** What a parse makes of a spine: more of it, or a message.  `stuck` says that the last node was a part
      announced with a length that wraps and none of whose bytes were there. */
  ghost predicate Continues(s: Spine, stuck: bool, r: Parsed, before: seq<Node>) {
    var all := before + r.nodes;
    if stuck then
      && r.end.Partial? && BeginsMessage(all) && r.state.bulk.None?
      && Deep(r.state, |r.state.levels| - 1) && Positive(r.state.levels)
    else if r.end.Complete? then s.Closed? && Matches(s, r.state.levels, all)
    else
      && s.Open? && SpineOk(s.frames) && StreamOk(s.frames, s.stream) && OpenNodes(s.frames, s.stream) == all
      && (r.end.Partial? ==> Holding(r.state, s.frames, s.stream))
  }

  /** The sentinel is untouched and every open level waits for something. */
  predicate Positive(levels: seq<nat>) {
    levels != [] && levels[0] == 2 && forall i :: 0 <= i < |levels| ==> levels[i] >= 1
  }

  lemma {:induction false} LevelsArePositive(fs: Frames, st: Option<seq<bytes>>)
    requires SpineOk(fs) && StreamOk(fs, st)
    ensures Positive(Levels(fs, st))
  {
    CountsArePositive(fs);
  }

  lemma {:induction false} StepStuck(p: State, view: bytes, fs: Frames, parts: seq<bytes>)
    requires p.Ok() && BulkOk(p) && !p.Done() && p.consumed <= |view| && |view| + 2 < SIZE
    requires Holding(p, fs, Some(parts)) && Consume(p, view).Emit? && Suits(Consume(p, view).node, true)
    requires !LastPart(p, view) && Consume(p, view).node.value == []
    ensures Continues(Open(fs, None), true, Parse(p, view, None), OpenNodes(fs, Some(parts)))
    ensures !StepFits(p, view) && InsideAfter(Parse(p, view, None).nodes, true) == false
  {
    hide CommitElem, Counts, SpineNodes, Good, PreOrder, LastPart, Consume, StepFits, BeginsMessage, OpenNodes, SpineOk;
    var n, q := Consume(p, view).node, Consume(p, view).state;
    StreamIsGood(parts, |fs|);
    CommitIsAdd(fs, Stream(parts));
    PartArrives(p, view, Counts(fs), SIZE - 1 - |parts|);
    NothingAtTheEnd(q, view);
    NoMoreAtTheEnd(q, view);
    var r := Parse(p, view, None);
    assert r.nodes == [n] && r.state == q && r.end.Partial?;
    OneNode(n, true);
    CountsArePositive(fs);
    StreamBegins(fs, parts, n);
  }

  lemma {:induction false} StreamBegins(fs: Frames, parts: seq<bytes>, n: Node)
    requires SpineOk(fs) && StreamOk(fs, Some(parts)) && n == Node(StreamedStringPart, 1, |fs| + 1, [])
    ensures BeginsMessage(OpenNodes(fs, Some(parts)) + [n])
  {
    hide SpineNodes, Good, PreOrder, BeginsMessage, SpineOk, PartNodes, StreamNodes;
    StreamIsGood(parts, |fs|);
    StreamIsClosed(parts, |fs| + 1);
    StreamPreOrder(parts, |fs|);
    assert OpenNodes(fs, Some(parts)) + [n] == SpineNodes(fs) + (StreamNodes(parts, |fs| + 1) + [n]);
    ClosedBegins(fs, Stream(parts));
  }

  lemma {:induction false} ClosedBegins(fs: Frames, t: Tree)
    requires SpineOk(fs) && Good(t, |fs|)
    ensures BeginsMessage(SpineNodes(fs) + PreOrder(t, |fs|))
  {
    hide Good, PreOrder, SpineNodes, SpineOk;
    var u := Enclose(fs, t);
  }

  lemma {:induction false} NoMoreAtTheEnd(p: State, view: bytes)
    requires p.Ok() && p.bulk.None? && !p.Done() && p.consumed == |view|
    ensures Parse(p, view, None) == Parsed(Partial, p, [])
  {
  }

  lemma {:induction false} MoreHolds(p: State, view: bytes, fs: Frames, st: Option<seq<bytes>>)
    requires p.Ok() && p.consumed <= |view| && Holding(p, fs, st) && Consume(p, view).More?
    ensures Holding(Consume(p, view).state, fs, st)
  {
    hide ReadHeader, CommitElem, Levels;
  }

  lemma {:induction false} ContinuesOn(s: Spine, stuck: bool, rest: Parsed, before: seq<Node>, n: Node)
    requires Continues(s, stuck, rest, before + [n])
    ensures Continues(s, stuck, Prepend([n], rest), before)
  {
    hide BeginsMessage, Matches, Holding, OpenNodes, StreamOk, SpineOk;
    assert before + ([n] + rest.nodes) == before + [n] + rest.nodes;
  }

  lemma {:induction false} ContinuesClosed(s: Spine, q: State, view: bytes, before: seq<Node>, n: Node)
    requires q.Ok() && q.Done() && q.consumed <= |view| && Extends(s, q, before, n, false)
    ensures Continues(s, false, Parse(q, view, None), before + [n])
  {
    hide BeginsMessage, Matches, Holding, OpenNodes, StreamOk, SpineOk;
    assert before + [n] + [] == before + [n];
  }

  lemma {:induction false} ContinuesHere(p: State, view: bytes, fs: Frames, st: Option<seq<bytes>>)
    requires p.Ok() && !p.Done() && p.consumed <= |view| && Holding(p, fs, st) && !Consume(p, view).Emit?
    ensures Continues(Open(fs, st), false, Parse(p, view, None), OpenNodes(fs, st))
  {
    hide Consume, BeginsMessage, OpenNodes, Levels, StreamOk, SpineOk;
    assert OpenNodes(fs, st) + [] == OpenNodes(fs, st);
    if Consume(p, view).More? {
      MoreHolds(p, view, fs, st);
    }
  }

  /** The parser's own invariant: from any spine, the nodes emitted next extend it to another spine, or
      complete the message. */
  lemma {:induction false} ParseExtends(p: State, view: bytes, fs: Frames, st: Option<seq<bytes>>)
    returns (s: Spine, stuck: bool)
    requires p.Ok() && BulkOk(p) && !p.Done() && p.consumed <= |view| && |view| + 2 < SIZE && Holding(p, fs, st)
    requires RegularFrom(Parse(p, view, None).nodes, st.Some?)
    ensures Continues(s, stuck, Parse(p, view, None), OpenNodes(fs, st))
    ensures stuck ==> !NoWrap(p, view) && !InsideAfter(Parse(p, view, None).nodes, st.Some?)
    decreases |view| - p.consumed, if p.bulk.Some? then 1 else 0
  {
    hide Consume, LastPart, OpenNodes, Suits, StaysInside, Continues, Holding, Matches;
    var r, step, before := Parse(p, view, None), Consume(p, view), OpenNodes(fs, st);
    stuck := false;
    if step.Emit? {
      var n, q := step.node, step.state;
      var rest := Parse(q, view, None);
      assert r == Prepend([n], rest);
      assert ([n] + rest.nodes)[1..] == rest.nodes;
      if st.Some? && !LastPart(p, view) && n.value == [] {
        StepStuck(p, view, fs, st.value);
        s, stuck := Open(fs, None), true;
      } else {
        if st.Some? {
          s := ExtendInside(p, view, fs, st.value);
        } else {
          s := ExtendOutside(p, view, fs);
        }
        if s.Open? {
          s, stuck := ParseExtends(q, view, s.frames, s.stream);
        } else {
          ContinuesClosed(s, q, view, before, n);
        }
        ContinuesOn(s, stuck, rest, before, n);
      }
    } else {
      s := Open(fs, st);
      ContinuesHere(p, view, fs, st);
    }
  }

  /** Accepted means exactly one message.  Whatever the bytes, a finished parse has emitted the pre-order of
      one message if and only if its headers are orderly; then the sentinel is down to 1.  Any other parse
      has emitted the beginning of one under the same condition, and not yet all of one unless a length
      wrapped; if it merely waits for data, the sentinel is still 2 and every open level waits for at least
      one child. */
  lemma {:induction false} AcceptedIsOneMessage(view: bytes)
    requires |view| + 2 < SIZE
    ensures
      var r, orderly := Parse(INITIAL, view, None), Orderly(INITIAL, view, false);
      && (r.end.Complete? ==> (IsMessage(r.nodes) <==> orderly))
      && (!r.end.Complete? ==> (BeginsMessage(r.nodes) <==> orderly))
      && (!r.end.Complete? && NoWrap(INITIAL, view) ==> (IsUnfinished(r.nodes) <==> orderly))
      && (r.end.Complete? && orderly ==> r.state.levels == [1])
      && (r.end.Partial? && orderly ==> Positive(r.state.levels))
  {
    hide Parse, Good, PreOrder, IsUnfinished, BeginsMessage, Orderly, NoWrap, RegularFrom, InsideAfter, Positive;
    var r := Parse(INITIAL, view, None);
    OrderlyIsRegular(INITIAL, view, false);
    OnlyRegular(r.nodes);
    if Regular(r.nodes) {
      EmptySpine();
      var s, stuck := ParseExtends(INITIAL, view, [], None);
      assert OpenNodes([], None) + r.nodes == r.nodes;
      if !stuck && s.Open? {
        LevelsArePositive(s.frames, s.stream);
        OpenIsUnfinished(s.frames, s.stream);
        OnlyRegular(OpenNodes(s.frames, s.stream));
      }
    }
  }

  lemma {:induction false} EmptySpine()
    ensures Holding(INITIAL, [], None) && OpenNodes([], None) == []
  {
  }

  /** What is open can be finished. */
  lemma {:induction false} OpenIsUnfinished(fs: Frames, st: Option<seq<bytes>>)
    requires SpineOk(fs) && StreamOk(fs, st)
    ensures IsUnfinished(OpenNodes(fs, st))
  {
    hide Good, PreOrder, SpineNodes, StreamNodes, PartNodes;
    var t := if st.Some? then Stream(st.value) else Line(Null, []);
    NullIsGood(|fs|);
    if st.Some? {
      StreamIsGood(st.value, |fs|);
      StreamPreOrder(st.value, |fs|);
      StreamIsClosed(st.value, |fs| + 1);
    }
    var u := Enclose(fs, t);
    assert OpenNodes(fs, st) < SpineNodes(fs) + PreOrder(t, |fs|);
  }
}
