/** Which node lists are those of messages: parts stand directly inside a streamed string and nothing else
    stands there, and no child count wraps. */
module Regularity {
  import opened Bytes
  import opened Decimal
  import opened Resp3
  import opened ParserSpec
  import opened Prefixes
  import opened Trees
  import opened Spines

  // On node lists.

  /** Whether a node may come next, inside or outside a streamed string. */
  predicate Suits(n: Node, inside: bool) {
    if inside then n.dataType.StreamedStringPart? else !n.dataType.StreamedStringPart? && CountFits(n)
  }

  /** Whether the node leaves us inside a streamed string: the part without bytes ends it. */
  predicate StaysInside(n: Node, inside: bool) {
    if inside then n.value != [] else n.dataType.StreamedString?
  }

  predicate RegularFrom(ns: seq<Node>, inside: bool) {
    ns == [] || (Suits(ns[0], inside) && RegularFrom(ns[1..], StaysInside(ns[0], inside)))
  }

  function InsideAfter(ns: seq<Node>, inside: bool): (r: bool) {
    if ns == [] then inside else InsideAfter(ns[1..], StaysInside(ns[0], inside))
  }

  predicate Regular(ns: seq<Node>) {
    RegularFrom(ns, false)
  }

  lemma {:induction false} RegularAppend(a: seq<Node>, b: seq<Node>, inside: bool)
    ensures RegularFrom(a + b, inside) <==> RegularFrom(a, inside) && RegularFrom(b, InsideAfter(a, inside))
    ensures InsideAfter(a + b, inside) == InsideAfter(b, InsideAfter(a, inside))
    decreases |a|
  {
    if a == [] {
      assert a + b == b;
    } else {
      assert (a + b)[1..] == a[1..] + b;
      RegularAppend(a[1..], b, StaysInside(a[0], inside));
    }
  }

  lemma {:induction false} OneNode(n: Node, inside: bool)
    ensures RegularFrom([n], inside) <==> Suits(n, inside)
    ensures InsideAfter([n], inside) == StaysInside(n, inside)
  {
    assert [n][1..] == [];
  }

  // On messages.

  /** The list is the pre-order of one message within the depth limit. */
  ghost predicate IsMessage(ns: seq<Node>) {
    exists t: Tree :: Good(t, 0) && PreOrder(t, 0) == ns
  }

  /** The list is where such a pre-order begins. */
  ghost predicate BeginsMessage(ns: seq<Node>) {
    exists t: Tree :: Good(t, 0) && ns <= PreOrder(t, 0)
  }

  /** The list is a proper prefix of such a pre-order. */
  ghost predicate IsUnfinished(ns: seq<Node>) {
    exists t: Tree :: Good(t, 0) && ns < PreOrder(t, 0)
  }

  lemma {:induction false} PartsAreRegular(parts: seq<bytes>, depth: nat)
    requires PartsOk(parts)
    ensures RegularFrom(PartNodes(parts, depth), true) && !InsideAfter(PartNodes(parts, depth), true)
  {
    if parts == [] {
      OneNode(Node(StreamedStringPart, 1, depth, []), true);
    } else {
      var n, rest := Node(StreamedStringPart, 1, depth, parts[0]), PartNodes(parts[1..], depth);
      assert PartOk(parts[0]);
      PartsAreRegular(parts[1..], depth);
      OneNode(n, true);
      RegularAppend([n], rest, true);
    }
  }

  lemma {:induction false} MessageIsRegular(t: Tree, depth: nat)
    requires WellFormed(t)
    ensures Regular(PreOrder(t, depth)) && !InsideAfter(PreOrder(t, depth), false)
    decreases t, 1
  {
    hide RegularFrom, InsideAfter;
    match t
    case Aggregate(k, items) =>
      var n := Node(k, Announced(k, |items|), depth, []);
      MessagesAreRegular(items, depth + 1);
      OneNode(n, false);
      RegularAppend([n], PreOrderAll(items, depth + 1), false);
    case Stream(parts) =>
      var n := Node(StreamedString, 0, depth + 1, []);
      PartsAreRegular(parts, depth + 1);
      OneNode(n, false);
      RegularAppend([n], PartNodes(parts, depth + 1), false);
    case Line(k, text) => OneNode(Node(k, 1, depth, text), false);
    case Blob(k, data) => OneNode(Node(k, 1, depth, data), false);
  }

  lemma {:induction false} MessagesAreRegular(ts: seq<Tree>, depth: nat)
    requires AllWellFormed(ts)
    ensures Regular(PreOrderAll(ts, depth)) && !InsideAfter(PreOrderAll(ts, depth), false)
    decreases ts, 0
  {
    hide PreOrder;
    if ts != [] {
      MessageIsRegular(ts[0], depth);
      MessagesAreRegular(ts[1..], depth);
      RegularAppend(PreOrder(ts[0], depth), PreOrderAll(ts[1..], depth), false);
    }
  }

  /** Whatever begins a message is regular. */
  lemma {:induction false} OnlyRegular(ns: seq<Node>)
    ensures BeginsMessage(ns) ==> Regular(ns)
    ensures IsMessage(ns) || IsUnfinished(ns) ==> BeginsMessage(ns)
  {
    hide PreOrder, Good, RegularFrom;
    forall t: Tree | Good(t, 0) && ns <= PreOrder(t, 0) ensures Regular(ns) {
      MessageIsRegular(t, 0) by {
        GoodIsWellFormed(t, 0);
      }
      var all := PreOrder(t, 0);
      assert all == ns + all[|ns|..];
      RegularAppend(ns, all[|ns|..], false);
    }
  }

  lemma {:induction false} GoodIsWellFormed(t: Tree, depth: nat)
    requires Good(t, depth)
    ensures WellFormed(t)
  {
  }

  // On the headers that a parse reads.

  /** The type and the content of the header line at the parser's position. */
  function HeaderAt(p: State, view: bytes): (h: (Type, bytes))
    requires p.consumed <= |view| && FindSep(view, p.consumed).Some?
  {
    (ToType(view[p.consumed]), Content(view, p.consumed, FindSep(view, p.consumed).value))
  }

  predicate HeaderSuits(t: Type, content: bytes, inside: bool) {
    if inside then t.StreamedStringPart?
    else
      && !t.StreamedStringPart?
      && (IsAggregate(t) && FromChars(content).Some? ==> FromChars(content).value * Multiplicity(t) < SIZE)
  }

  predicate HeaderInside(t: Type, content: bytes, inside: bool) {
    if inside then FromChars(content) != Some(0) else IsBlob(t) && content != [] && content[0] == QUESTION
  }

  /** Every header that leads to a node is in its place: a part directly inside a streamed string, nothing
      else there, and child counts that fit. */
  predicate Orderly(p: State, view: bytes, inside: bool)
    requires p.Ok() && p.bulk.None? && p.consumed <= |view|
    decreases |view| - p.consumed
  {
    p.Done() || !Consume(p, view).Emit? ||
    var (t, content) := HeaderAt(p, view);
    HeaderSuits(t, content, inside) && Orderly(Consume(p, view).state, view, HeaderInside(t, content, inside))
  }

  lemma {:induction false} HeaderNode(t: Type, content: bytes, levels: seq<nat>, inside: bool)
    requires 1 <= |levels| <= MAX_DEPTH + 1
    ensures
      var h := ReadHeader(t, content, levels);
      && (h.Emits? ==>
            && (Suits(h.node, inside) <==> HeaderSuits(t, content, inside))
            && (Suits(h.node, inside) ==> StaysInside(h.node, inside) == HeaderInside(t, content, inside)))
      && (h.Expects? ==>
            && (h.bulk.kind == t && h.bulk.length < SIZE)
            && (IsBlob(t) || (t.StreamedStringPart? && h.bulk.length > 0))
            && FromChars(content) == Some(h.bulk.length)
            && (IsBlob(t) ==> content != [] && content[0] != QUESTION))
  {
    hide CommitElem;
  }

  /** A bulk without bytes was announced with a length that wraps, and nothing follows it in the buffer. */
  lemma {:induction false} EmptyBulk(p: State, view: bytes)
    requires p.Ok() && p.bulk.Some? && p.consumed <= |view| && |view| + 2 < SIZE
    requires 0 < p.bulk.value.length < SIZE && TakeBulk(p, view).Emit?
    ensures TakeBulk(p, view).node.value == [] ==> !Fits(p.bulk.value) && TakeBulk(p, view).state.consumed == |view|
  {
    hide CommitElem;
  }

  lemma {:induction false} StepSuits(p: State, view: bytes, inside: bool)
    requires p.Ok() && p.bulk.None? && p.consumed <= |view| && |view| + 2 < SIZE && Consume(p, view).Emit?
    ensures
      var (t, content) := HeaderAt(p, view);
      var n, q := Consume(p, view).node, Consume(p, view).state;
      && (Suits(n, inside) <==> HeaderSuits(t, content, inside))
      && (Suits(n, inside) ==> StaysInside(n, inside) == HeaderInside(t, content, inside) || q.consumed == |view|)
  {
    hide ReadHeader, CommitElem, FromChars;
    var (t, content) := HeaderAt(p, view);
    HeaderNode(t, content, p.levels, inside);
    var h := ReadHeader(t, content, p.levels);
    if h.Expects? && h.bulk.length > 0 {
      EmptyBulk(State(p.levels, Some(h.bulk), FindSep(view, p.consumed).value + 2), view);
    }
  }

  lemma {:induction false} NodeHasHeader(p: State, view: bytes)
    requires p.Ok() && p.bulk.None? && p.consumed <= |view| && Consume(p, view).Emit?
    ensures FindSep(view, p.consumed).Some?
  {
  }

  lemma {:induction false} NothingAtTheEnd(p: State, view: bytes)
    requires p.Ok() && p.bulk.None? && p.consumed == |view|
    ensures !Consume(p, view).Emit? && Parse(p, view, None).nodes == []
  {
  }

  /** The headers are orderly exactly if the nodes are regular. */
  lemma {:induction false} OrderlyIsRegular(p: State, view: bytes, inside: bool)
    requires p.Ok() && p.bulk.None? && p.consumed <= |view| && |view| + 2 < SIZE
    ensures Orderly(p, view, inside) <==> RegularFrom(Parse(p, view, None).nodes, inside)
    decreases |view| - p.consumed
  {
    hide Consume, HeaderSuits, HeaderInside, Suits, StaysInside, HeaderAt;
    if !p.Done() && Consume(p, view).Emit? {
      var n, q := Consume(p, view).node, Consume(p, view).state;
      NodeHasHeader(p, view);
      var (t, content) := HeaderAt(p, view);
      StepSuits(p, view, inside);
      var rest := Parse(q, view, None).nodes;
      assert Parse(p, view, None).nodes == [n] + rest;
      assert ([n] + rest)[1..] == rest;
      if q.consumed == |view| {
        NothingAtTheEnd(q, view);
      } else {
        OrderlyIsRegular(q, view, HeaderInside(t, content, inside));
      }
    }
  }
}
