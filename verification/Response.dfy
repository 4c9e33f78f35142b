/** `consume_one` on a generic response: the node list of several messages. */
module Response {
  import opened Bytes
  import opened Resp3
  import opened Trees

  // Depths in a node list.

  /** Below its root, every node of a message is deeper than the root. */
  lemma {:induction false} OnlyTheRootIsShallow(t: Tree, depth: nat)
    ensures PreOrder(t, depth)[0].depth == if t.Stream? then depth + 1 else depth
    ensures forall i :: 1 <= i < |PreOrder(t, depth)| ==> PreOrder(t, depth)[i].depth > depth
    decreases t, 1
  {
    match t
    case Aggregate(k, items) => AllAreDeep(items, depth + 1);
    case Stream(parts) => PartsAreDeep(parts, depth + 1);
    case _ =>
  }

  lemma {:induction false} AllAreDeep(ts: seq<Tree>, depth: nat)
    ensures forall i :: 0 <= i < |PreOrderAll(ts, depth)| ==> PreOrderAll(ts, depth)[i].depth >= depth
    decreases ts, 0
  {
    if ts != [] {
      OnlyTheRootIsShallow(ts[0], depth);
      AllAreDeep(ts[1..], depth);
    }
  }

  lemma {:induction false} PartsAreDeep(parts: seq<bytes>, depth: nat)
    ensures forall i :: 0 <= i < |PartNodes(parts, depth)| ==> PartNodes(parts, depth)[i].depth == depth
  {
    if parts != [] {
      PartsAreDeep(parts[1..], depth);
    }
  }

  // consume_one

  /** Index of the first node of depth 0 at or after `i`. */
  function NextRoot(ns: seq<Node>, i: nat): (j: nat)
    requires i <= |ns|
    ensures i <= j <= |ns|
    ensures j < |ns| ==> ns[j].depth == 0
    ensures forall k :: i <= k < j ==> ns[k].depth != 0
    decreases |ns| - i
  {
    if i == |ns| || ns[i].depth == 0 then i else NextRoot(ns, i + 1)
  }

  /** What is left after consuming once. */
  function AfterOne(ns: seq<Node>): (r: seq<Node>) {
    if ns == [] || ns[0].depth != 0 then ns else ns[NextRoot(ns, 1)..]
  }

  class GenericResponse {
    var failed: bool
    var nodes: seq<Node>

    method ConsumeOne() returns (ec: Option<Error>)
      modifies this`nodes
      ensures ec == if !failed && old(nodes) != [] && old(nodes)[0].depth != 0 then Some(IncompatibleNodeDepth)
                    else None
      ensures nodes == if failed then old(nodes) else AfterOne(old(nodes))
    {
      ec := None;
      if failed || nodes == [] {
        return;
      }
      if nodes[0].depth != 0 {
        return Some(IncompatibleNodeDepth);
      }
      var j := 1;
      while j < |nodes| && nodes[j].depth != 0
        invariant 1 <= j <= |nodes|
        invariant NextRoot(nodes, 1) == NextRoot(nodes, j)
      {
        j := j + 1;
      }
      nodes := nodes[j..];
    }
  }

  /** How many of the next messages are streamed strings, whose nodes have no depth-0 root. */
  function LeadingStreams(ts: seq<Tree>): (n: nat)
    ensures n <= |ts|
  {
    if ts == [] || !ts[0].Stream? then 0 else 1 + LeadingStreams(ts[1..])
  }

  lemma {:induction false} NextRootIs(ns: seq<Node>, i: nat, j: nat)
    requires i <= j <= |ns|
    requires forall k :: i <= k < j ==> ns[k].depth != 0
    requires j < |ns| ==> ns[j].depth == 0
    ensures NextRoot(ns, i) == j
  {
  }

  lemma {:induction false} StreamsHideNoRoot(ts: seq<Tree>)
    ensures
      var ns := PreOrderAll(ts, 0);
      var rest := PreOrderAll(ts[LeadingStreams(ts)..], 0);
      && |rest| <= |ns| && ns[|ns| - |rest|..] == rest
      && (forall k :: 0 <= k < |ns| - |rest| ==> ns[k].depth != 0)
      && (rest != [] ==> rest[0].depth == 0)
  {
    if ts != [] {
      OnlyTheRootIsShallow(ts[0], 0);
      if ts[0].Stream? {
        StreamsHideNoRoot(ts[1..]);
        var n := LeadingStreams(ts[1..]);
        assert ts[1 + n..] == ts[1..][n..];
      }
    }
  }

  /** Consuming once, on any list of parsed messages.  A streamed string in front is refused.  Otherwise
      the first message goes, and with it any streamed strings that directly follow: the first message
      alone is removed if and only if the next one is not a streamed string. */
  lemma {:induction false} ConsumeOneMessage(ts: seq<Tree>)
    requires ts != []
    ensures ts[0].Stream? ==> PreOrderAll(ts, 0)[0].depth != 0
    ensures !ts[0].Stream? ==>
              && PreOrderAll(ts, 0)[0].depth == 0
              && AfterOne(PreOrderAll(ts, 0)) == PreOrderAll(ts[1 + LeadingStreams(ts[1..])..], 0)
    ensures !ts[0].Stream? ==>
              (AfterOne(PreOrderAll(ts, 0)) == PreOrderAll(ts[1..], 0) <==> |ts| == 1 || !ts[1].Stream?)
  {
    var ns, first, tail := PreOrderAll(ts, 0), PreOrder(ts[0], 0), PreOrderAll(ts[1..], 0);
    OnlyTheRootIsShallow(ts[0], 0);
    if !ts[0].Stream? {
      var n := LeadingStreams(ts[1..]);
      StreamsHideNoRoot(ts[1..]);
      assert ts[1 + n..] == ts[1..][n..];
      var rest := PreOrderAll(ts[1 + n..], 0);
      NextRootIs(ns, 1, |ns| - |rest|);
      assert ns[|ns| - |rest|..] == tail[|tail| - |rest|..];
      if n > 0 {
        OnlyTheRootIsShallow(ts[1], 0);
        assert tail[0].depth == 1;
      }
    }
  }

  function AfterMany(ns: seq<Node>, calls: nat): (r: seq<Node>) {
    if calls == 0 then ns else AfterMany(AfterOne(ns), calls - 1)
  }

  predicate NoStreamRoots(ts: seq<Tree>) {
    forall i :: 0 <= i < |ts| ==> !ts[i].Stream?
  }

  /** `k` calls remove exactly the first `k` messages, so one call per message empties the response. */
  lemma {:induction false} ConsumeManyMessages(ts: seq<Tree>, k: nat)
    requires k <= |ts| && NoStreamRoots(ts)
    ensures AfterMany(PreOrderAll(ts, 0), k) == PreOrderAll(ts[k..], 0)
  {
    hide AfterOne, PreOrderAll, LeadingStreams;
    if k == 0 {
      assert ts[0..] == ts;
    } else {
      ConsumeOneMessage(ts);
      ConsumeManyMessages(ts[1..], k - 1);
      assert ts[1..][k - 1..] == ts[k..];
    }
  }

  /** The case that goes wrong: a status, then a streamed string without parts.  One call removes both. */
  lemma {:induction false} SwallowedStreamExample()
    ensures
      var ts := [Line(SimpleString, []), Stream([])];
      |PreOrderAll(ts, 0)| == 3 && AfterOne(PreOrderAll(ts, 0)) == []
  {
    var ts := [Line(SimpleString, []), Stream([])];
    assert ts[1..] == [ts[1]] && [ts[1]][1..] == [];
    assert PreOrderAll(ts[1..], 0) == PreOrder(ts[1], 0) + [];
    ConsumeOneMessage(ts);
    assert LeadingStreams(ts[1..]) == 1;
    assert ts[2..] == [];
  }
}
