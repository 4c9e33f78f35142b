/** The elements of a message that are still open while it is read: a spine of aggregates together with the
    children each already has, and perhaps a streamed string in the innermost one. */
module Spines {
  import opened Bytes
  import opened Resp3
  import opened ParserSpec
  import opened Trees

  /** A message that fits below `depth`. */
  predicate Good(t: Tree, depth: nat) {
    WellFormed(t) && depth + Height(t) <= MAX_DEPTH
  }

  predicate AllGood(ts: seq<Tree>, depth: nat) {
    forall i :: 0 <= i < |ts| ==> Good(ts[i], depth)
  }

  lemma {:induction false} AggregateIsGood(kind: Type, items: seq<Tree>, depth: nat)
    requires AggregateOk(kind, |items|) && AllGood(items, depth + 1) && depth < MAX_DEPTH
    ensures Good(Aggregate(kind, items), depth)
  {
    AllWellFormedAt(items);
    MaxHeightAt(items, MAX_DEPTH - depth - 1);
  }

  /** An aggregate whose header was read and that still waits for children. */
  datatype Frame = Frame(kind: Type, size: nat, done: seq<Tree>) {
    function Total(): nat {
      size * Multiplicity(kind)
    }

    /** The count the parser keeps for this level. */
    function Left(): int {
      Total() - |done|
    }

    predicate Ok(depth: nat) {
      IsAggregate(kind) && Total() < SIZE && 0 < Left() && AllGood(done, depth)
    }
  }

  /** The open aggregates, outermost first. */
  type Frames = seq<Frame>

  predicate SpineOk(fs: Frames) {
    |fs| <= MAX_DEPTH && forall i :: 0 <= i < |fs| ==> fs[i].Ok(i + 1)
  }

  function Last(fs: Frames): Frame
    requires fs != []
  {
    fs[|fs| - 1]
  }

  function Init(fs: Frames): Frames
    requires fs != []
  {
    fs[..|fs| - 1]
  }

  /** The parser's counts for a spine: the sentinel, then one count per open level. */
  function Counts(fs: Frames): (levels: seq<nat>)
    requires SpineOk(fs)
    ensures |levels| == |fs| + 1 && levels[0] == 2
    ensures forall i :: 0 <= i < |fs| ==> levels[i + 1] == fs[i].Left()
  {
    if fs == [] then [2] else Counts(Init(fs)) + [Last(fs).Left()]
  }

  /** The nodes a spine has produced so far. */
  function SpineNodes(fs: Frames): (ns: seq<Node>) {
    if fs == [] then []
    else
      SpineNodes(Init(fs)) + [Node(Last(fs).kind, Last(fs).size, |fs| - 1, [])] +
      PreOrderAll(Last(fs).done, |fs|)
  }

  /** Taking the innermost frame off a spine and putting one on. */
  lemma {:induction false} Snoc(fs: Frames, f: Frame)
    requires SpineOk(fs) && |fs| < MAX_DEPTH && f.Ok(|fs| + 1)
    ensures SpineOk(fs + [f])
    ensures Counts(fs + [f]) == Counts(fs) + [f.Left()]
    ensures SpineNodes(fs + [f]) ==
            SpineNodes(fs) + [Node(f.kind, f.size, |fs|, [])] + PreOrderAll(f.done, |fs| + 1)
  {
    hide Frame.Ok, Frame.Left, PreOrderAll;
    assert Init(fs + [f]) == fs;
  }

  lemma {:induction false} Unsnoc(fs: Frames)
    requires SpineOk(fs) && fs != []
    ensures SpineOk(Init(fs)) && Last(fs).Ok(|fs|)
    ensures Counts(fs)[..|fs|] == Counts(Init(fs)) && Counts(fs)[|fs|] == Last(fs).Left()
  {
    hide Frame.Ok, Frame.Left, PreOrderAll;
  }

  lemma {:induction false} CountsArePositive(fs: Frames)
    requires SpineOk(fs)
    ensures forall i :: 0 <= i < |Counts(fs)| ==> Counts(fs)[i] >= 1
  {
    hide Frame.Total, AllGood;
    forall i | 0 <= i < |Counts(fs)| ensures Counts(fs)[i] >= 1 {
      if i > 0 {
        assert fs[i - 1].Ok(i);
      }
    }
  }

  /** What is open: aggregates, and perhaps a streamed string with the parts it has so far. */
  datatype Spine = Open(frames: Frames, stream: Option<seq<bytes>>) | Closed(message: Tree)

  /** A complete element is added to the innermost open aggregate, which may complete that one in turn. */
  function Add(fs: Frames, t: Tree): (s: Spine)
    decreases |fs|
  {
    if fs == [] then Closed(t)
    else
      var f := Last(fs);
      var done := f.done + [t];
      if |done| < f.Total() then Open(Init(fs) + [f.(done := done)], None)
      else Add(Init(fs), Aggregate(f.kind, done))
  }

  /** A streamed string is opened below the depth limit and has fewer parts than its count allows. */
  predicate StreamOk(fs: Frames, st: Option<seq<bytes>>) {
    st.Some? ==> |fs| < MAX_DEPTH && |st.value| < SIZE - 2 && PartsOk(st.value)
  }

  /** The counts the parser keeps; that of a streamed string starts at the largest number there is. */
  function Levels(fs: Frames, st: Option<seq<bytes>>): (levels: seq<nat>)
    requires SpineOk(fs) && StreamOk(fs, st)
  {
    Counts(fs) + if st.Some? then [SIZE - 1 - |st.value|] else []
  }

  function PartsSoFar(parts: seq<bytes>, depth: nat): (ns: seq<Node>) {
    if parts == [] then []
    else PartsSoFar(parts[..|parts| - 1], depth) + [Node(StreamedStringPart, 1, depth, parts[|parts| - 1])]
  }

  function StreamNodes(parts: seq<bytes>, depth: nat): (ns: seq<Node>) {
    [Node(StreamedString, 0, depth, [])] + PartsSoFar(parts, depth)
  }

  function OpenNodes(fs: Frames, st: Option<seq<bytes>>): (ns: seq<Node>) {
    SpineNodes(fs) + if st.Some? then StreamNodes(st.value, |fs| + 1) else []
  }

  /** `levels` and `nodes` are those of the spine or of the finished message. */
  ghost predicate Matches(s: Spine, levels: seq<nat>, nodes: seq<Node>) {
    match s
    case Open(fs, st) => SpineOk(fs) && StreamOk(fs, st) && levels == Levels(fs, st) && nodes == OpenNodes(fs, st)
    case Closed(t) => Good(t, 0) && levels == [1] && nodes == PreOrder(t, 0)
  }

  lemma {:induction false} PreOrderLast(ts: seq<Tree>, t: Tree, depth: nat)
    ensures PreOrderAll(ts + [t], depth) == PreOrderAll(ts, depth) + PreOrder(t, depth)
  {
    PreOrderAllAppend(ts, [t], depth);
    assert [t][1..] == [];
    assert PreOrderAll([t], depth) == PreOrder(t, depth) + [];
  }

  /** The innermost aggregate takes another child and stays open. */
  lemma {:induction false} TakeChild(fs: Frames, t: Tree)
    requires SpineOk(fs) && fs != [] && Good(t, |fs|) && |Last(fs).done| + 1 < Last(fs).Total()
    ensures Matches(Add(fs, t), Counts(Init(fs)) + [Last(fs).Left() - 1], SpineNodes(fs) + PreOrder(t, |fs|))
    ensures CommitElem(Counts(fs)) == Some(Counts(Init(fs)) + [Last(fs).Left() - 1])
  {
    hide Frame.Ok, Good, Multiplicity, Counts, PreOrderAll, PreOrder;
    var f, fs0, k := Last(fs), Init(fs), |fs|;
    var g := f.(done := f.done + [t]);
    Unsnoc(fs);
    FrameGrows(f, t, k);
    Snoc(fs0, g);
    PreOrderLast(f.done, t, k);
    assert SpineNodes(fs0 + [g]) == SpineNodes(fs) + PreOrder(t, k);
  }

  /** The innermost aggregate takes its last child and becomes a child of the next one. */
  lemma {:induction false} TakeLastChild(fs: Frames, t: Tree)
    requires SpineOk(fs) && fs != [] && Good(t, |fs|) && |Last(fs).done| + 1 == Last(fs).Total()
    ensures
      var u := Aggregate(Last(fs).kind, Last(fs).done + [t]);
      && Good(u, |fs| - 1)
      && SpineNodes(Init(fs)) + PreOrder(u, |fs| - 1) == SpineNodes(fs) + PreOrder(t, |fs|)
      && CommitElem(Counts(fs)) == CommitElem(Counts(Init(fs)))
  {
    hide Good, Multiplicity, Counts, PreOrderAll, PreOrder;
    var f, k := Last(fs), |fs|;
    var done := f.done + [t];
    Unsnoc(fs);
    PreOrderLast(f.done, t, k);
    assert AllGood(done, k);
    TotalDivides(f);
    AggregateIsGood(f.kind, done, k - 1);
    AggregateNodes(f.kind, f.size, done, k - 1);
  }

  /** `commit_elem` on the counts is `Add` on the spine; in particular it never passes level 0. */
  lemma {:induction false} CommitIsAdd(fs: Frames, t: Tree)
    requires SpineOk(fs) && Good(t, |fs|)
    ensures CommitElem(Counts(fs)).Some?
    ensures Matches(Add(fs, t), CommitElem(Counts(fs)).value, SpineNodes(fs) + PreOrder(t, |fs|))
    ensures Add(fs, t).Open? ==> |Add(fs, t).frames| > 0 && Add(fs, t).stream.None?
    decreases |fs|
  {
    hide Good, Multiplicity, Counts, PreOrderAll, PreOrder;
    if fs != [] {
      Unsnoc(fs);
      if |Last(fs).done| + 1 < Last(fs).Total() {
        TakeChild(fs, t);
      } else {
        TakeLastChild(fs, t);
        CommitIsAdd(Init(fs), Aggregate(Last(fs).kind, Last(fs).done + [t]));
      }
    }
  }

  lemma {:induction false} FrameGrows(f: Frame, t: Tree, depth: nat)
    requires f.Ok(depth) && Good(t, depth) && |f.done| + 1 < f.Total()
    ensures
      var g := f.(done := f.done + [t]);
      g.Ok(depth) && g.Left() == f.Left() - 1
  {
  }

  lemma {:induction false} AggregateNodes(kind: Type, size: nat, items: seq<Tree>, depth: nat)
    requires Announced(kind, |items|) == size
    ensures PreOrder(Aggregate(kind, items), depth) == [Node(kind, size, depth, [])] + PreOrderAll(items, depth + 1)
  {
  }

  lemma {:induction false} TotalDivides(f: Frame)
    ensures (IsPaired(f.kind) ==> f.Total() % 2 == 0) && Announced(f.kind, f.Total()) == f.size
  {
  }

  // Nodes and spines.

  /** The child count of an aggregate does not wrap in `std::size_t`. */
  predicate CountFits(n: Node) {
    IsAggregate(n.dataType) ==> n.aggregateSize * Multiplicity(n.dataType) < SIZE
  }

  predicate Opens(n: Node) {
    IsAggregate(n.dataType) && n.aggregateSize > 0
  }

  /** The message of a node that has no children. */
  function Leaf(n: Node): (t: Tree) {
    if IsLine(n.dataType) then Line(n.dataType, n.value)
    else if IsBlob(n.dataType) then Blob(n.dataType, n.value)
    else Aggregate(n.dataType, [])
  }

  lemma {:induction false} OpenLevel(fs: Frames, n: Node)
    requires SpineOk(fs) && Opens(n) && CountFits(n) && n.depth == |fs| < MAX_DEPTH && n.value == []
    ensures
      var fs1 := fs + [Frame(n.dataType, n.aggregateSize, [])];
      && SpineOk(fs1)
      && Counts(fs1) == Counts(fs) + [n.aggregateSize * Multiplicity(n.dataType)]
      && SpineNodes(fs1) == SpineNodes(fs) + [n]
  {
    Snoc(fs, Frame(n.dataType, n.aggregateSize, []));
  }

  lemma {:induction false} LeafIsGood(n: Node)
    requires WellFormed(Leaf(n)) && n.depth <= MAX_DEPTH
    ensures Good(Leaf(n), n.depth)
  {
  }

  /** A streamed string with its closing part. */
  lemma {:induction false} StreamIsClosed(parts: seq<bytes>, depth: nat)
    ensures
      StreamNodes(parts, depth) + [Node(StreamedStringPart, 1, depth, [])] ==
      [Node(StreamedString, 0, depth, [])] + PartNodes(parts, depth)
  {
    PartsSplit(parts, [], depth);
    assert parts + [] == parts;
  }

  lemma {:induction false} PartsSplit(a: seq<bytes>, b: seq<bytes>, depth: nat)
    ensures PartNodes(a + b, depth) == PartsSoFar(a, depth) + PartNodes(b, depth)
    decreases |a|
  {
    if a == [] {
      assert a + b == b;
    } else {
      var init, last := a[..|a| - 1], a[|a| - 1];
      assert a + b == init + ([last] + b);
      PartsSplit(init, [last] + b, depth);
      assert ([last] + b)[1..] == b;
    }
  }

  function Nulls(n: nat): (ts: seq<Tree>)
    ensures |ts| == n && forall i :: 0 <= i < n ==> ts[i] == Line(Null, [])
  {
    seq(n, i => Line(Null, []))
  }

  lemma {:induction false} NullIsGood(depth: nat)
    requires depth <= MAX_DEPTH
    ensures Good(Line(Null, []), depth)
  {
  }

  /** Filling the missing children turns a frame and the child it waits for into a message. */
  lemma {:induction false} Fill(f: Frame, t: Tree, depth: nat) returns (u: Tree)
    requires depth < MAX_DEPTH && f.Ok(depth + 1) && Good(t, depth + 1)
    ensures Good(u, depth)
    ensures [Node(f.kind, f.size, depth, [])] + PreOrderAll(f.done, depth + 1) + PreOrder(t, depth + 1)
            <= PreOrder(u, depth)
  {
    hide Good, PreOrder, PreOrderAll, Multiplicity;
    NullIsGood(depth + 1);
    var head := f.done + [t];
    var tail := Nulls(f.Left() - 1);
    TotalDivides(f);
    AggregateIsGood(f.kind, head + tail, depth);
    AggregateNodes(f.kind, f.size, head + tail, depth);
    PreOrderLast(f.done, t, depth + 1);
    PreOrderAllAppend(head, tail, depth + 1);
    u := Aggregate(f.kind, head + tail);
  }

  lemma {:induction false} Enclose(fs: Frames, t: Tree) returns (u: Tree)
    requires SpineOk(fs) && Good(t, |fs|)
    ensures Good(u, 0) && SpineNodes(fs) + PreOrder(t, |fs|) <= PreOrder(u, 0)
    decreases |fs|
  {
    hide Good, PreOrder, PreOrderAll, Multiplicity, Frame.Ok, SpineNodes, Counts;
    if fs == [] {
      SpineStarts(PreOrder(t, 0));
      u := t;
    } else {
      Unsnoc(fs);
      var f, d := Last(fs), |fs|;
      var v := Fill(f, t, d - 1);
      u := Enclose(Init(fs), v);
      var open := [Node(f.kind, f.size, d - 1, [])] + PreOrderAll(f.done, d) + PreOrder(t, d);
      SpineEnds(fs, PreOrder(t, d));
      PrefixUnder(SpineNodes(Init(fs)), open, PreOrder(v, d - 1), PreOrder(u, 0));
    }
  }

  lemma {:induction false} SpineStarts(ns: seq<Node>)
    ensures SpineNodes([]) + ns == ns
  {
  }

  lemma {:induction false} SpineEnds(fs: Frames, ns: seq<Node>)
    requires fs != []
    ensures
      var f, d := Last(fs), |fs|;
      SpineNodes(fs) + ns ==
      SpineNodes(Init(fs)) + ([Node(f.kind, f.size, d - 1, [])] + PreOrderAll(f.done, d) + ns)
  {
    hide PreOrderAll;
  }

  lemma {:induction false} PrefixUnder(a: seq<Node>, b: seq<Node>, c: seq<Node>, d: seq<Node>)
    requires b <= c && a + c <= d
    ensures a + b <= d
  {
    assert a + b == (a + c)[..|a + b|];
  }
}
