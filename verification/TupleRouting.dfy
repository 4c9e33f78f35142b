/** The adapter that routes the children of an aggregate to the elements of a tuple. */
module TupleRouting {
  import opened Bytes
  import opened Resp3
  import opened Trees
  import opened Response

  /** The tuple element being filled, the countdown inside a nested aggregate, and what each element's
      adapter was given. */
  datatype Routing = Routing(i: nat, left: nat, slots: seq<seq<Node>>)

  datatype Outcome = Accepted | Refused(error: Error) | OutOfRange

  function Start(arity: nat): (s: Routing) {
    Routing(0, 0, seq(arity, i => []))
  }

  /** `count`: advances to the next element when the current one is complete. */
  function Count(s: Routing, n: Node): (r: Routing) {
    var left := if n.depth == 1 && IsAggregate(n.dataType)
                then Multiplicity(n.dataType) * n.aggregateSize else s.left;
    if left == 0 then s.(i := s.i + 1, left := 0) else s.(left := left - 1)
  }

  /** One node below the root; `None` stands for an index past the end of the tuple. */
  function Route(s: Routing, n: Node): (r: Option<Routing>) {
    if s.i >= |s.slots| then None
    else Some(Count(s.(slots := s.slots[s.i := s.slots[s.i] + [n]]), n))
  }

  function RouteAll(s: Routing, ns: seq<Node>): (r: Option<Routing>)
    decreases |ns|
  {
    if ns == [] then Some(s)
    else
      match Route(s, ns[0])
      case None => None
      case Some(t) => RouteAll(t, ns[1..])
  }

  /** `on_value_available` at the root: the children must be as many as the elements of the tuple. */
  predicate FitsTuple(n: Node, arity: nat) {
    n.aggregateSize * Multiplicity(n.dataType) == arity
  }

  class TupleAdapter {
    const arity: nat
    var i: nat
    var aggregateSize: nat
    var slots: seq<seq<Node>>

    ghost predicate Valid()
      reads this
    {
      |slots| == arity
    }

    ghost function View(): (s: Routing)
      reads this
    {
      Routing(i, aggregateSize, slots)
    }

    constructor (arity: nat)
      ensures Valid() && this.arity == arity && View() == Start(arity)
    {
      this.arity := arity;
      i, aggregateSize := 0, 0;
      slots := seq(arity, i => []);
    }

    method CountNode(elem: Node)
      modifies this`i, this`aggregateSize
      ensures View() == Count(old(View()), elem)
    {
      if elem.depth == 1 && IsAggregate(elem.dataType) {
        aggregateSize := Multiplicity(elem.dataType) * elem.aggregateSize;
      }
      if aggregateSize == 0 {
        i := i + 1;
      } else {
        aggregateSize := aggregateSize - 1;
      }
    }

    /** `operator()`: the root is checked against the size of the tuple, other nodes are routed. */
    method OnNode(elem: Node) returns (r: Outcome)
      requires Valid()
      modifies this
      ensures Valid()
      ensures elem.depth == 0 ==>
                && View() == old(View())
                && r == if FitsTuple(elem, arity) then Accepted else Refused(IncompatibleSize)
      ensures elem.depth != 0 ==>
                match Route(old(View()), elem)
                case None => r == OutOfRange && View() == old(View())
                case Some(s) => r == Accepted && View() == s
      ensures r == OutOfRange <==> elem.depth != 0 && old(i) >= arity
    {
      if elem.depth == 0 {
        return if elem.aggregateSize * Multiplicity(elem.dataType) == arity then Accepted
               else Refused(IncompatibleSize);
      }
      if i >= arity {
        return OutOfRange;
      }
      slots := slots[i := slots[i] + [elem]];
      CountNode(elem);
      r := Accepted;
    }
  }

  // Which aggregates are routed correctly.

  /** The number of direct children. */
  function Direct(t: Tree): (n: nat) {
    if t.Aggregate? then |t.items| else 0
  }

  /** A value that gives one node. */
  predicate Simple(t: Tree) {
    t.Line? || t.Blob? || (t.Aggregate? && t.items == [])
  }

  /** A simple value, or an aggregate of simple values. */
  predicate Flat(t: Tree) {
    t.Line? || t.Blob? || (t.Aggregate? && forall i :: 0 <= i < |t.items| ==> Simple(t.items[i]))
  }

  predicate AllFlat(ts: seq<Tree>) {
    forall j :: 0 <= j < |ts| ==> Flat(ts[j])
  }

  /** Every element of the tuple got exactly the nodes of its child, and the last index is the arity. */
  predicate RoutedTo(r: Option<Routing>, ts: seq<Tree>) {
    && r.Some?
    && r.value.i == |r.value.slots| == |ts|
    && forall j :: 0 <= j < |ts| ==> r.value.slots[j] == PreOrder(ts[j], 1)
  }

  lemma {:induction false} RouteAppend(s: Routing, a: seq<Node>, b: seq<Node>)
    ensures RouteAll(s, a + b) ==
            match RouteAll(s, a)
            case None => None
            case Some(t) => RouteAll(t, b)
    decreases |a|
  {
    if a == [] {
      assert a + b == b;
    } else {
      assert (a + b)[1..] == a[1..] + b;
      if Route(s, a[0]).Some? {
        RouteAppend(Route(s, a[0]).value, a[1..], b);
      }
    }
  }

  /** The elements before the current one are never touched again. */
  lemma {:induction false} PastSlotsAreFinal(s: Routing, ns: seq<Node>)
    requires RouteAll(s, ns).Some?
    ensures
      var t := RouteAll(s, ns).value;
      s.i <= t.i && |t.slots| == |s.slots| && forall j :: 0 <= j < s.i && j < |s.slots| ==> t.slots[j] == s.slots[j]
    decreases |ns|
  {
    if ns != [] {
      PastSlotsAreFinal(Route(s, ns[0]).value, ns[1..]);
    }
  }

  /** Inside a nested aggregate the countdown covers exactly the announced number of nodes. */
  lemma {:induction false} Countdown(s: Routing, ns: seq<Node>)
    requires s.i < |s.slots| && |ns| == s.left + 1
    requires forall k :: 0 <= k < |ns| ==> ns[k].depth > 1
    ensures RouteAll(s, ns) == Some(Routing(s.i + 1, 0, s.slots[s.i := s.slots[s.i] + ns]))
    decreases |ns|
  {
    var t := Route(s, ns[0]).value;
    if |ns| > 1 {
      Countdown(t, ns[1..]);
      assert t.slots[s.i] + ns[1..] == s.slots[s.i] + ns;
      assert s.slots[s.i := s.slots[s.i] + ns] == t.slots[s.i := t.slots[s.i] + ns[1..]];
    } else {
      assert ns == [ns[0]];
    }
  }

  lemma {:induction false} OneNodeEach(ts: seq<Tree>, depth: nat)
    ensures |PreOrderAll(ts, depth)| >= |ts|
    ensures |PreOrderAll(ts, depth)| == |ts| <==> forall i :: 0 <= i < |ts| ==> Simple(ts[i])
  {
    if ts != [] {
      OneNodeEach(ts[1..], depth);
      OneNode(ts[0], depth);
      assert forall i :: 1 <= i < |ts| ==> ts[i] == ts[1..][i - 1];
    }
  }

  lemma {:induction false} OneNode(t: Tree, depth: nat)
    ensures |PreOrder(t, depth)| == 1 <==> Simple(t)
  {
    if t.Aggregate? && t.items != [] {
      assert |PreOrder(t.items[0], depth + 1)| >= 1;
    }
  }

  /** Flat values are those whose nodes the adapter's countdown covers. */
  lemma {:induction false} FlatIsCounted(t: Tree)
    ensures |PreOrder(t, 1)| >= 1 + Direct(t)
    ensures |PreOrder(t, 1)| == 1 + Direct(t) <==> Flat(t)
  {
    match t
    case Aggregate(_, items) => OneNodeEach(items, 2);
    case Stream(parts) => assert |PartNodes(parts, 2)| >= 1;
    case _ =>
  }

  /** A child takes its first node and one node per direct child; then the next element's turn comes. */
  lemma {:induction false} ChildTakes(s: Routing, t: Tree)
    requires WellFormed(t) && s.left == 0 && s.i < |s.slots|
    ensures
      var ns := PreOrder(t, 1);
      var n := 1 + Direct(t);
      && n <= |ns|
      && RouteAll(s, ns[..n]) == Some(Routing(s.i + 1, 0, s.slots[s.i := s.slots[s.i] + ns[..n]]))
  {
    var ns, d := PreOrder(t, 1), Direct(t);
    FlatIsCounted(t);
    OnlyTheRootIsShallow(t, 1);
    RouteFirst(s, t);
    var u := Route(s, ns[0]).value;
    assert ns[..1 + d][1..] == ns[1..1 + d];
    if d == 0 {
      assert ns[..1] == [ns[0]];
    } else {
      Countdown(u, ns[1..1 + d]);
      assert u.slots[s.i] + ns[1..1 + d] == s.slots[s.i] + ns[..1 + d];
      assert s.slots[s.i := s.slots[s.i] + ns[..1 + d]] == u.slots[s.i := u.slots[s.i] + ns[1..1 + d]];
    }
  }

  lemma {:induction false} RouteFirst(s: Routing, t: Tree)
    requires WellFormed(t) && s.left == 0 && s.i < |s.slots|
    ensures
      var n := PreOrder(t, 1)[0];
      var slots := s.slots[s.i := s.slots[s.i] + [n]];
      Route(s, n) == Some(if Direct(t) == 0 then Routing(s.i + 1, 0, slots)
                          else Routing(s.i, Direct(t) - 1, slots))
  {
    if t.Aggregate? {
      assert Multiplicity(t.kind) * Announced(t.kind, |t.items|) == |t.items|;
    }
  }

  /** A child that is not flat leaves its element short of nodes for good. */
  lemma {:induction false} NotFlatIsShort(s: Routing, u: Routing, t: Tree, k: nat, rest: seq<Node>)
    requires WellFormed(t) && !Flat(t) && k < |s.slots| && s.slots[k] == []
    requires 1 + Direct(t) <= |PreOrder(t, 1)|
    requires u == Routing(k + 1, 0, s.slots[k := s.slots[k] + PreOrder(t, 1)[..1 + Direct(t)]])
    ensures
      var r := RouteAll(u, rest);
      r.Some? ==> k < |r.value.slots| && r.value.slots[k] != PreOrder(t, 1)
  {
    hide PreOrder, RouteAll, Flat;
    FlatIsCounted(t);
    if RouteAll(u, rest).Some? {
      PastSlotsAreFinal(u, rest);
      assert |u.slots[k]| == 1 + Direct(t) < |PreOrder(t, 1)|;
    }
  }

  lemma {:induction false} ChildrenFrom(ts: seq<Tree>, k: nat)
    requires k < |ts|
    ensures PreOrderAll(ts[k..], 1) == PreOrder(ts[k], 1) + PreOrderAll(ts[k + 1..], 1)
  {
    hide PreOrder;
    assert ts[k..][1..] == ts[k + 1..];
  }

  /** From the `k`-th child on, routing succeeds exactly when the remaining children are flat. */
  lemma {:induction false} RouteChildren(s: Routing, ts: seq<Tree>, k: nat)
    requires k <= |ts| == |s.slots| && s.i == k && s.left == 0 && AllWellFormed(ts)
    requires forall j :: 0 <= j < k ==> s.slots[j] == PreOrder(ts[j], 1)
    requires forall j :: k <= j < |ts| ==> s.slots[j] == []
    ensures RoutedTo(RouteAll(s, PreOrderAll(ts[k..], 1)), ts) <==> forall j :: k <= j < |ts| ==> Flat(ts[j])
    decreases |ts| - k
  {
    hide Flat, PreOrder, Route, AllWellFormed;
    if k < |ts| {
      hide RouteAll, PreOrderAll;
      AllWellFormedAt(ts);
      var ns, n := PreOrder(ts[k], 1), 1 + Direct(ts[k]);
      var rest := PreOrderAll(ts[k + 1..], 1);
      ChildrenFrom(ts, k);
      ChildTakes(s, ts[k]);
      var u := RouteAll(s, ns[..n]).value;
      assert PreOrderAll(ts[k..], 1) == ns[..n] + (ns[n..] + rest);
      RouteAppend(s, ns[..n], ns[n..] + rest);
      if Flat(ts[k]) {
        FlatIsCounted(ts[k]);
        assert ns[..n] == ns && ns[n..] + rest == rest;
        assert [] + ns == ns;
        RouteChildren(u, ts, k + 1);
      } else {
        NotFlatIsShort(s, u, ts[k], k, ns[n..] + rest);
      }
    }
  }

  /** Tuple routing, exactly.  A tuple takes an aggregate if it has as many elements as that has children.  Each
      element gets exactly the pre-order nodes of its child, no index passes the end of the tuple, and
      the index ends at the arity, if and only if every child is flat. */
  lemma {:induction false} TupleIsRouted(t: Tree)
    requires t.Aggregate? && WellFormed(t)
    ensures
      var arity := |t.items|;
      && (forall k: nat :: FitsTuple(PreOrder(t, 0)[0], k) <==> k == arity)
      && (RoutedTo(RouteAll(Start(arity), PreOrder(t, 0)[1..]), t.items) <==> AllFlat(t.items))
  {
    assert PreOrder(t, 0)[1..] == PreOrderAll(t.items, 1);
    assert t.items[0..] == t.items;
    RouteChildren(Start(|t.items|), t.items, 0);
  }

  /** The case that goes wrong: a tuple of one element and a reply that is an array in an array in an
      array. */
  lemma {:induction false} NestedChildExample()
    ensures
      var leaf := Line(Null, []);
      var t := Aggregate(Array, [Aggregate(Array, [Aggregate(Array, [leaf])])]);
      WellFormed(t) && !RoutedTo(RouteAll(Start(1), PreOrder(t, 0)[1..]), t.items)
  {
    var leaf := Line(Null, []);
    var inner := Aggregate(Array, [leaf]);
    var child := Aggregate(Array, [inner]);
    var t := Aggregate(Array, [child]);
    AllWellFormedAt([leaf]);
    AllWellFormedAt([inner]);
    AllWellFormedAt([child]);
    assert !Simple(child.items[0]) && !Flat(t.items[0]);
    TupleIsRouted(t);
  }
}
