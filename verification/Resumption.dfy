/** A parser that stops in the middle of a message and goes on later still reads one message. */
module Resumption {
  import opened Bytes
  import opened Decimal
  import opened Resp3
  import opened Trees
  import opened Spines
  import opened Regularity
  import opened Acceptance
  import Parser = ParserSpec

  /** One message exactly if what is in it is in its place. */
  ghost predicate Whole(ns: seq<Node>) {
    IsMessage(ns) <==> Regular(ns)
  }

  /** A parser in the middle of a message, or before one. */
  predicate Resumable(p: Parser.State) {
    BulkOk(p) && !p.Done() && (p == Parser.INITIAL || p.consumed > 0)
  }

  /** Some level cannot be closed any more by nodes that are in their place. */
  ghost predicate StuckAt(p: Parser.State, k: int, inside: bool) {
    Deep(p, k) && (inside ==> k < |p.levels| - 1 && Deep(p, |p.levels| - 1))
  }

  ghost predicate Stuck(p: Parser.State, inside: bool) {
    exists k :: StuckAt(p, k, inside)
  }

  ghost predicate Held(p: Parser.State, ns: seq<Node>) {
    exists fs: Frames, st: Option<seq<bytes>> :: Holding(p, fs, st) && ns == OpenNodes(fs, st)
  }

  /** The node of a root: it has the depth of the message, or heads a streamed string one level below. */
  predicate AtRoot(n: Node, depth: nat) {
    n.depth <= depth || (n.dataType.StreamedString? && n.depth == depth + 1)
  }

  /** The nodes so far begin with a root and are those of what the parser holds open; or no regular message
      can come of them. */
  ghost predicate Tracked(p: Parser.State, ns: seq<Node>) {
    && (if ns == [] then |p.levels| == 1 else AtRoot(ns[0], 0))
    && (Regular(ns) ==> Held(p, ns) || Stuck(p, InsideAfter(ns, false)))
  }

  lemma {:induction false} StartIsTracked()
    ensures Tracked(Parser.INITIAL, [])
  {
    EmptySpine();
  }

  lemma {:induction false} FaultUnused(p: Parser.State, view: bytes, f: Option<Parser.Fault>)
    requires p.Ok() && p.consumed <= |view|
    ensures
      var r := Parser.Parse(p, view, f);
      r.end.Partial? || r.end.Complete? ==> r == Parser.Parse(p, view, None)
    decreases |view| - p.consumed, if p.bulk.Some? then 1 else 0
  {
    hide Parser.Consume;
    if !p.Done() && Parser.Consume(p, view).Emit? && (f.None? || f.value.at > 0) {
      FaultUnused(Parser.Consume(p, view).state, view, Parser.Later(f));
    }
  }

  lemma {:induction false} StepResumable(p: Parser.State, view: bytes)
    requires p.Ok() && Resumable(p) && p.consumed <= |view|
    ensures
      var step := Parser.Consume(p, view);
      && (step.More? ==> Resumable(step.state) && (step.state == Parser.INITIAL ==> p == Parser.INITIAL))
      && (step.Emit? ==> step.state.consumed > 0 && (!step.state.Done() ==> Resumable(step.state)))
  {
    hide Parser.ReadHeader, ToType, Parser.CommitElem;
    if p.bulk.None? && FindSep(view, p.consumed).Some? {
      var pos := FindSep(view, p.consumed).value;
      var t, content := ToType(view[p.consumed]), Parser.Content(view, p.consumed, pos);
      HeaderNode(t, content, p.levels, false);
    }
  }

  lemma {:induction false} PartialIsResumable(p: Parser.State, view: bytes)
    requires p.Ok() && Resumable(p) && p.consumed <= |view|
    ensures
      var r := Parser.Parse(p, view, None);
      r.end.Partial? ==> Resumable(r.state) && (r.state == Parser.INITIAL ==> p == Parser.INITIAL && r.nodes == [])
    decreases |view| - p.consumed, if p.bulk.Some? then 1 else 0
  {
    hide Parser.Consume;
    StepResumable(p, view);
    if Parser.Consume(p, view).Emit? && !Parser.Consume(p, view).state.Done() {
      PartialIsResumable(Parser.Consume(p, view).state, view);
    }
  }

  // A level that cannot be closed.

  lemma {:induction false} CommitAbove(levels: seq<nat>, k: nat)
    requires k < |levels| && levels[k] >= 2
    ensures Parser.CommitElem(levels).Some?
    ensures
      var l := Parser.CommitElem(levels).value;
      && k < |l| && l[k] >= levels[k] - 1
      && (k == |levels| - 1 ==> |l| == |levels|)
  {
    if k < |levels| - 1 && Parser.Dec(levels[|levels| - 1]) == 0 {
      CommitAbove(levels[..|levels| - 1], k);
    }
  }

  lemma {:induction false} HeaderAbove(t: Type, content: bytes, levels: seq<nat>, k: nat, inside: bool)
    requires 1 <= |levels| <= Parser.MAX_DEPTH + 1 && 1 <= k < |levels| && levels[k] >= 2
    requires inside ==> k < |levels| - 1
    requires Parser.ReadHeader(t, content, levels).Emits? && Suits(Parser.ReadHeader(t, content, levels).node, inside)
    ensures
      var h := Parser.ReadHeader(t, content, levels);
      && k < |h.levels| && h.levels[k] >= levels[k] - 1
      && (StaysInside(h.node, inside) ==> k < |h.levels| - 1 && h.levels[|h.levels| - 1] == SIZE - 1)
  {
    hide Parser.CommitElem, FromChars, CountFits;
    CommitAbove(levels, k);
    if inside {
      CommitAbove(levels[|levels| - 1 := 1], k);
    }
  }

  lemma {:induction false} StuckStep(p: Parser.State, view: bytes, k: int, inside: bool)
    requires p.Ok() && BulkOk(p) && p.consumed <= |view| && |view| + 2 < SIZE && StuckAt(p, k, inside)
    requires Parser.Consume(p, view).Emit? && Suits(Parser.Consume(p, view).node, inside)
    ensures StuckAt(Parser.Consume(p, view).state, k, StaysInside(Parser.Consume(p, view).node, inside))
  {
    hide Parser.CommitElem, Parser.ReadHeader, FromChars, CountFits;
    CommitAbove(p.levels, k);
    if inside {
      CommitAbove(p.levels, |p.levels| - 1);
    }
    if p.bulk.None? {
      NodeHasHeader(p, view);
      var (t, content) := HeaderAt(p, view);
      HeaderNode(t, content, p.levels, inside);
      if Parser.ReadHeader(t, content, p.levels).Emits? {
        HeaderAbove(t, content, p.levels, k, inside);
      }
    }
  }

  lemma {:induction false} StuckMore(p: Parser.State, view: bytes, k: int, inside: bool)
    requires p.Ok() && p.consumed <= |view| && StuckAt(p, k, inside) && Parser.Consume(p, view).More?
    ensures StuckAt(Parser.Consume(p, view).state, k, inside)
  {
    hide Parser.ReadHeader, Parser.CommitElem;
  }

  lemma {:induction false} StuckParse(p: Parser.State, view: bytes, k: int, inside: bool)
    requires p.Ok() && BulkOk(p) && !p.Done() && p.consumed <= |view| && |view| + 2 < SIZE && StuckAt(p, k, inside)
    requires RegularFrom(Parser.Parse(p, view, None).nodes, inside)
    ensures
      var r := Parser.Parse(p, view, None);
      && !r.end.Complete?
      && (r.end.Partial? ==> StuckAt(r.state, k, InsideAfter(r.nodes, inside)))
    decreases |view| - p.consumed, if p.bulk.Some? then 1 else 0
  {
    hide Parser.Consume, Suits, StaysInside;
    var r, step := Parser.Parse(p, view, None), Parser.Consume(p, view);
    if step.Emit? {
      var rest := Parser.Parse(step.state, view, None);
      assert r.nodes == [step.node] + rest.nodes && ([step.node] + rest.nodes)[1..] == rest.nodes;
      StuckStep(p, view, k, inside);
      StuckParse(step.state, view, k, StaysInside(step.node, inside));
    } else if step.More? {
      StuckMore(p, view, k, inside);
    }
  }

  // What is open is regular.

  lemma {:induction false} PartsInside(parts: seq<bytes>, depth: nat)
    requires PartsOk(parts)
    ensures RegularFrom(PartsSoFar(parts, depth), true) && InsideAfter(PartsSoFar(parts, depth), true)
  {
    if parts != [] {
      var init, last := parts[..|parts| - 1], parts[|parts| - 1];
      var n := Node(StreamedStringPart, 1, depth, last);
      assert PartOk(last);
      PartsInside(init, depth);
      OneNode(n, true);
      RegularAppend(PartsSoFar(init, depth), [n], true);
    }
  }

  lemma {:induction false} SpineIsRegular(fs: Frames)
    requires SpineOk(fs)
    ensures Regular(SpineNodes(fs)) && !InsideAfter(SpineNodes(fs), false)
    decreases |fs|
  {
    hide RegularFrom, InsideAfter, PreOrderAll;
    if fs == [] {
      NothingIsRegular();
    } else {
      var f, d := Last(fs), |fs|;
      Unsnoc(fs);
      SpineIsRegular(Init(fs));
      var n := Node(f.kind, f.size, d - 1, []);
      AllWellFormedAt(f.done);
      MessagesAreRegular(f.done, d);
      OneNode(n, false);
      RegularAppend(SpineNodes(Init(fs)), [n], false);
      RegularAppend(SpineNodes(Init(fs)) + [n], PreOrderAll(f.done, d), false);
    }
  }

  lemma {:induction false} NothingIsRegular()
    ensures Regular([]) && !InsideAfter([], false)
  {
  }

  lemma {:induction false} OpenIsRegular(fs: Frames, st: Option<seq<bytes>>)
    requires SpineOk(fs) && StreamOk(fs, st)
    ensures InsideAfter(OpenNodes(fs, st), false) == st.Some?
  {
    hide RegularFrom, InsideAfter, SpineNodes, SpineOk;
    SpineIsRegular(fs);
    if st.Some? {
      var n, parts := Node(StreamedString, 0, |fs| + 1, []), PartsSoFar(st.value, |fs| + 1);
      OneNode(n, false);
      PartsInside(st.value, |fs| + 1);
      RegularAppend([n], parts, false);
      RegularAppend(SpineNodes(fs), [n] + parts, false);
    } else {
      assert OpenNodes(fs, st) == SpineNodes(fs);
    }
  }

  // Resuming.

  lemma {:induction false} ContinuesIsHeld(s: Spine, stuck: bool, r: Parser.Parsed, before: seq<Node>)
    requires Continues(s, stuck, r, before)
    ensures r.end.Partial? ==>
              Held(r.state, before + r.nodes) || (stuck && StuckAt(r.state, |r.state.levels| - 1, false))
    ensures r.end.Complete? ==> IsMessage(before + r.nodes)
  {
    hide BeginsMessage, Good, PreOrder, Levels, StreamOk, SpineOk, OpenNodes, Deep;
  }

  lemma {:induction false} ResumeHeld(p: Parser.State, view: bytes, ns: seq<Node>)
    requires p.Ok() && Resumable(p) && p.consumed <= |view| && |view| + 2 < SIZE && Held(p, ns)
    requires RegularFrom(Parser.Parse(p, view, None).nodes, InsideAfter(ns, false))
    ensures
      var r := Parser.Parse(p, view, None);
      var inside := InsideAfter(r.nodes, InsideAfter(ns, false));
      && (r.end.Partial? ==> Held(r.state, ns + r.nodes) || Stuck(r.state, inside))
      && (r.end.Complete? ==> IsMessage(ns + r.nodes))
  {
    hide Parser.Parse, OpenNodes, SpineOk, StreamOk, Levels, RegularFrom, InsideAfter, IsMessage, Continues, StuckAt;
    var r := Parser.Parse(p, view, None);
    var fs: Frames, st: Option<seq<bytes>> :| Holding(p, fs, st) && ns == OpenNodes(fs, st);
    OpenIsRegular(fs, st);
    var s, stuck := ParseExtends(p, view, fs, st);
    ContinuesIsHeld(s, stuck, r, ns);
  }

  lemma {:induction false} FirstNode(p: Parser.State, view: bytes)
    requires p.Ok() && p.consumed <= |view| && |p.levels| == 1 && BulkOk(p)
    ensures Parser.Consume(p, view).Emit? ==> AtRoot(Parser.Consume(p, view).node, 0)
    ensures Parser.Consume(p, view).More? ==> |Parser.Consume(p, view).state.levels| == 1
  {
    hide Parser.CommitElem, FromChars;
  }

  lemma {:induction false} RootComesFirst(p: Parser.State, view: bytes)
    requires p.Ok() && p.consumed <= |view| && |p.levels| == 1 && Resumable(p)
    ensures
      var r := Parser.Parse(p, view, None);
      && (r.nodes != [] ==> AtRoot(r.nodes[0], 0))
      && (r.nodes == [] && r.end.Partial? ==> |r.state.levels| == 1)
      && (r.end.Complete? ==> r.nodes != [])
  {
    hide Parser.Consume, AtRoot;
    FirstNode(p, view);
  }

  /** Resuming extends what is open, and what it completes is one message exactly if it is regular. */
  lemma {:induction false} ResumeTracks(p: Parser.State, view: bytes, ns: seq<Node>)
    requires p.Ok() && Resumable(p) && p.consumed <= |view| && |view| + 2 < SIZE && Tracked(p, ns)
    ensures
      var r := Parser.Parse(p, view, None);
      && (r.end.Partial? ==> Tracked(r.state, ns + r.nodes))
      && (r.end.Complete? ==> Whole(ns + r.nodes) && ns + r.nodes != [] && AtRoot((ns + r.nodes)[0], 0))
  {
    hide Parser.Parse, RegularFrom, InsideAfter, Held, StuckAt, IsMessage, BeginsMessage, AtRoot;
    var r := Parser.Parse(p, view, None);
    var all, inside := ns + r.nodes, InsideAfter(ns, false);
    OnlyRegular(all);
    RegularAppend(ns, r.nodes, false);
    if Regular(all) {
      if Held(p, ns) {
        ResumeHeld(p, view, ns);
      } else {
        var k :| StuckAt(p, k, inside);
        StuckParse(p, view, k, inside);
      }
    }
    if ns == [] {
      RootComesFirst(p, view);
      assert all == r.nodes;
    }
  }

  /** Nodes in front of a root leave no message. */
  lemma {:induction false} LeftoversSpoil(a: seq<Node>, m: seq<Node>)
    requires m != [] && AtRoot(m[0], 0)
    ensures IsMessage(a + m) ==> a == []
  {
    hide Good, PreOrder;
    if a != [] {
      forall u: Tree | Good(u, 0) ensures PreOrder(u, 0) != a + m {
        GoodIsWellFormed(u, 0);
        RootIsFirst(u, 0);
        assert (a + m)[1..][|a| - 1] == m[0];
      }
    }
  }

  predicate NoneAtRoot(ns: seq<Node>, depth: nat) {
    forall i :: 0 <= i < |ns| ==> !AtRoot(ns[i], depth)
  }

  lemma {:induction false} RootIsFirst(t: Tree, depth: nat)
    requires WellFormed(t)
    ensures AtRoot(PreOrder(t, depth)[0], depth)
    ensures NoneAtRoot(PreOrder(t, depth)[1..], depth)
    decreases t, 1
  {
    match t
    case Aggregate(k, items) => NoRoots(items, depth);
    case Stream(parts) => NoPartIsRoot(parts, depth);
    case _ =>
  }

  lemma {:induction false} NoRoots(ts: seq<Tree>, depth: nat)
    requires AllWellFormed(ts)
    ensures NoneAtRoot(PreOrderAll(ts, depth + 1), depth)
    decreases ts, 0
  {
    if ts != [] {
      var first, rest := PreOrder(ts[0], depth + 1), PreOrderAll(ts[1..], depth + 1);
      RootIsFirst(ts[0], depth + 1);
      NoRoots(ts[1..], depth);
      FirstIsDeeper(ts[0], depth);
      forall i | 0 <= i < |first| ensures !AtRoot(first[i], depth) {
        assert i > 0 ==> !AtRoot(first[1..][i - 1], depth + 1);
      }
    }
  }

  lemma {:induction false} FirstIsDeeper(t: Tree, depth: nat)
    requires WellFormed(t)
    ensures !AtRoot(PreOrder(t, depth + 1)[0], depth)
  {
  }

  lemma {:induction false} NoPartIsRoot(parts: seq<bytes>, depth: nat)
    ensures NoneAtRoot(PartNodes(parts, depth + 1), depth)
  {
    if parts != [] {
      NoPartIsRoot(parts[1..], depth);
    }
  }
}
