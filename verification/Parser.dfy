/** The parser object, in the form the source has it: a fixed array of counts updated in place. */
module Parser {
  import opened Bytes
  import opened Decimal
  import opened Resp3
  import Spec = ParserSpec

  /** What `consume` gives its caller.  `Undefined` stands for the cases in which the source's behaviour
      is undefined or the program is terminated. */
  datatype Consumed = NeedsMore | Got(node: Node) | Error(error: Error) | Undefined

  class Parser {
    var depth: nat
    const sizes: array<nat>
    var bulkLength: nat
    var bulk: Type
    var consumed: nat

    ghost predicate Valid()
      reads this, sizes
    {
      sizes.Length == Spec.MAX_DEPTH + 1 && depth <= Spec.MAX_DEPTH
    }

    /** The live part of the object: counts above the current depth, and the bulk length while no bulk is
        expected, are never read again. */
    ghost function View(): (s: Spec.State)
      requires Valid()
      reads this, sizes
      ensures s.Ok()
    {
      Spec.State(sizes[..depth + 1], if bulk.Invalid? then None else Some(Spec.Bulk(bulk, bulkLength)), consumed)
    }

    constructor ()
      ensures Valid() && fresh(sizes) && View() == Spec.INITIAL
    {
      sizes := new nat[Spec.MAX_DEPTH + 1](i => if i == 0 then 2 else 0);
      depth, bulkLength, bulk, consumed := 0, SIZE - 1, Invalid, 0;
    }

    method Reset()
      requires Valid()
      modifies this, sizes
      ensures Valid() && View() == Spec.INITIAL
    {
      depth := 0;
      forall i | 0 <= i < sizes.Length {
        sizes[i] := if i == 0 then 1 else 0;
      }
      bulkLength := SIZE - 1;
      bulk := Invalid;
      consumed := 0;
      sizes[0] := 2; // one for the root, one that stays
    }

    predicate Done()
      reads this
    {
      depth == 0 && bulk.Invalid? && consumed != 0
    }

    /** The loop that completes every level the element was the last of. */
    method CommitElem() returns (ok: bool)
      requires Valid()
      modifies this`depth, sizes
      ensures Valid()
      ensures ok <==> Spec.CommitElem(old(View().levels)).Some?
      ensures ok ==> Spec.CommitElem(old(View().levels)) == Some(View().levels)
    {
      ghost var levels := View().levels;
      sizes[depth] := Spec.Dec(sizes[depth]);
      assert sizes[..depth] == levels[..depth] && levels[..depth + 1] == levels;
      while sizes[depth] == 0
        invariant Valid()
        invariant sizes[..depth] == levels[..depth] && depth < |levels|
        invariant sizes[depth] == Spec.Dec(levels[depth])
        invariant Spec.CommitElem(levels) == Spec.CommitElem(levels[..depth + 1])
        decreases depth
      {
        if depth == 0 {
          return false;
        }
        depth := depth - 1;
        assert levels[..depth + 2][..depth + 1] == levels[..depth + 1];
        sizes[depth] := Spec.Dec(sizes[depth]);
        assert sizes[..depth] == levels[..depth];
      }
      assert levels[..depth + 1][..depth] == levels[..depth];
      assert sizes[..depth + 1] == levels[..depth] + [sizes[depth]];
      ok := true;
    }

    /** Emits `node` after committing it. */
    method Emit(node: Node) returns (r: Consumed)
      requires Valid()
      modifies this`depth, sizes
      ensures Valid()
      ensures
        match Spec.Committed(node, old(View().levels))
        case Emits(n, l) => r == Got(n) && View().levels == l
        case _ => r == Undefined
    {
      var ok := CommitElem();
      r := if ok then Got(node) else Undefined;
    }

    /** `consume_impl`: handles one header line.  `NeedsMore` says that the line announced a bulk. */
    method ConsumeImpl(t: Type, elem: bytes) returns (r: Consumed)
      requires Valid() && bulk.Invalid?
      modifies this`depth, this`bulk, this`bulkLength, sizes
      ensures Valid()
      ensures
        match Spec.ReadHeader(t, elem, old(View().levels))
        case Emits(n, l) => r == Got(n) && View() == Spec.State(l, None, consumed)
        case Expects(b) => r == NeedsMore && View() == Spec.State(old(View().levels), Some(b), consumed)
        case Rejects(e) => r == Error(e) && View() == old(View())
        case Undefined => r == Undefined
    {
      match t
      case StreamedStringPart =>
        var n := FromChars(elem);
        if n.None? {
          return Error(NotANumber);
        }
        bulkLength := n.value;
        if bulkLength == 0 {
          var node := Node(StreamedStringPart, 1, depth, []);
          sizes[depth] := 1;
          assert View().levels == old(View().levels)[depth := 1];
          r := Emit(node);
        } else {
          bulk := StreamedStringPart;
          r := NeedsMore;
        }
      case BlobError | VerbatimString | BlobString =>
        r := ConsumeBlobHeader(t, elem);
      case Boolean =>
        if elem == [] {
          return Error(EmptyField);
        }
        if elem[0] != LETTER_F && elem[0] != LETTER_T {
          return Error(UnexpectedBoolValue);
        }
        r := Emit(Node(t, 1, depth, elem));
      case Double | BigNumber | Number =>
        if elem == [] {
          return Error(EmptyField);
        }
        r := Emit(Node(t, 1, depth, elem));
      case SimpleError | SimpleString | Null =>
        r := Emit(Node(t, 1, depth, elem));
      case Push | Set | Array | Attribute | Map =>
        r := ConsumeAggregateHeader(t, elem);
      case _ =>
        r := Error(InvalidDataType);
    }

    method ConsumeBlobHeader(t: Type, elem: bytes) returns (r: Consumed)
      requires Valid() && bulk.Invalid? && IsBlob(t)
      modifies this`depth, this`bulk, this`bulkLength, sizes
      ensures Valid()
      ensures
        match Spec.ReadHeader(t, elem, old(View().levels))
        case Emits(n, l) => r == Got(n) && View() == Spec.State(l, None, consumed)
        case Expects(b) => r == NeedsMore && View() == Spec.State(old(View().levels), Some(b), consumed)
        case Rejects(e) => r == Error(e) && View() == old(View())
        case Undefined => r == Undefined
    {
      if elem == [] {
        return Undefined; // elem.at(0) throws
      }
      if elem[0] == QUESTION {
        if depth == Spec.MAX_DEPTH {
          return Undefined; // sizes_ has no further element
        }
        ghost var levels := View().levels;
        depth := depth + 1;
        sizes[depth] := SIZE - 1;
        assert View().levels == levels + [SIZE - 1];
        return Got(Node(StreamedString, 0, depth, []));
      }
      var n := FromChars(elem);
      if n.None? {
        return Error(NotANumber);
      }
      bulkLength := n.value;
      bulk := t;
      r := NeedsMore;
    }

    method ConsumeAggregateHeader(t: Type, elem: bytes) returns (r: Consumed)
      requires Valid() && bulk.Invalid? && IsAggregate(t)
      modifies this`depth, sizes
      ensures Valid()
      ensures
        match Spec.ReadHeader(t, elem, old(View().levels))
        case Emits(n, l) => r == Got(n) && View() == Spec.State(l, None, consumed)
        case Rejects(e) => r == Error(e) && View() == old(View())
        case _ => r == Undefined
    {
      var l := FromChars(elem);
      if l.None? {
        return Error(NotANumber);
      }
      var node := Node(t, l.value, depth, []);
      if l.value == 0 {
        r := Emit(node);
      } else {
        if depth == Spec.MAX_DEPTH {
          return Error(ExceedsMaxNestedDepth);
        }
        ghost var levels := View().levels;
        depth := depth + 1;
        sizes[depth] := l.value * Multiplicity(t) % SIZE;
        assert View().levels == levels + [sizes[depth]];
        r := Got(node);
      }
    }

    /** `consume`: one node, or nothing yet, from the view of the whole buffer. */
    method Consume(view: bytes) returns (r: Consumed)
      requires Valid() && consumed <= |view|
      modifies this, sizes
      ensures Valid()
      ensures
        match Spec.Consume(old(View()), view)
        case More(s) => r == NeedsMore && View() == s
        case Emit(n, s) => r == Got(n) && View() == s
        case Fail(e, s) => r == Error(e) && View() == s
        case Broken => r == Undefined
    {
      if bulk.Invalid? {
        var pos := FindSep(view, consumed);
        if pos.None? {
          return NeedsMore;
        }
        var t := ToType(view[consumed]);
        var content := Spec.Content(view, consumed, pos.value);
        r := ConsumeImpl(t, content);
        if r.Error? || r.Undefined? {
          return;
        }
        consumed := pos.value + 2;
        if bulk.Invalid? {
          return;
        }
      }
      r := ConsumeBulk(view);
    }

    method ConsumeBulk(view: bytes) returns (r: Consumed)
      requires Valid() && !bulk.Invalid? && consumed <= |view|
      modifies this, sizes
      ensures Valid()
      ensures
        match Spec.TakeBulk(old(View()), view)
        case More(s) => r == NeedsMore && View() == s
        case Emit(n, s) => r == Got(n) && View() == s
        case _ => r == Undefined
    {
      var span := (bulkLength + 2) % SIZE;
      if |view| - consumed < span {
        return NeedsMore;
      }
      var node := Node(bulk, 1, depth, Spec.BulkValue(view, consumed, bulkLength));
      bulk := Invalid;
      r := Emit(node);
      consumed := consumed + span;
    }
  }

  /** One turn of the loop, with the nodes handed over before it. */
  lemma {:induction false} ParseTurn(nodes: seq<Node>, p: Spec.State, view: bytes, f: Option<Spec.Fault>)
    requires p.Ok() && p.consumed <= |view|
    ensures
      var whole := Spec.Prepend(nodes, Spec.Parse(p, view, f));
      if p.Done() then whole == Spec.Parsed(Spec.Complete, p, nodes)
      else
        match Spec.Consume(p, view)
        case Broken => whole == Spec.Parsed(Spec.Crashed, Spec.INITIAL, nodes)
        case Fail(e, q) => whole == Spec.Parsed(Spec.Failed(e), q, nodes)
        case More(q) => whole == Spec.Parsed(Spec.Partial, q, nodes)
        case Emit(n, q) =>
          if f.Some? && f.value.at == 0 then whole == Spec.Parsed(Spec.Failed(f.value.error), q, nodes + [n])
          else whole == Spec.Prepend(nodes + [n], Spec.Parse(q, view, Spec.Later(f)))
  {
    hide Spec.Consume;
    assert nodes + [] == nodes;
    if !p.Done() && Spec.Consume(p, view).Emit? {
      var n, q := Spec.Consume(p, view).node, Spec.Consume(p, view).state;
      if f.None? || f.value.at > 0 {
        var rest := Spec.Parse(q, view, Spec.Later(f)).nodes;
        assert nodes + ([n] + rest) == nodes + [n] + rest;
      }
    }
  }

  /** The `parse` loop.  `nodes` are the nodes handed to the adapter, which refuses the one that `fault`
      names. */
  method Parse(p: Parser, view: bytes, fault: Option<Spec.Fault>) returns (end: Spec.End, nodes: seq<Node>)
    requires p.Valid() && p.consumed <= |view|
    modifies p, p.sizes
    ensures p.Valid()
    ensures
      var r := Spec.Parse(old(p.View()), view, fault);
      end == r.end && nodes == r.nodes && (end.Crashed? || p.View() == r.state)
  {
    hide Spec.Consume, Spec.Parse;
    nodes := [];
    var f := fault;
    ghost var whole := Spec.Parse(p.View(), view, fault);
    assert whole.nodes == [] + whole.nodes;
    while !p.Done()
      invariant p.Valid() && p.consumed <= |view|
      invariant whole == Spec.Prepend(nodes, Spec.Parse(p.View(), view, f))
      decreases |view| - p.consumed, if p.bulk.Invalid? then 0 else 1
    {
      ParseTurn(nodes, p.View(), view, f);
      var r := p.Consume(view);
      match r
      case NeedsMore => return Spec.Partial, nodes;
      case Error(e) => return Spec.Failed(e), nodes;
      case Undefined => return Spec.Crashed, nodes;
      case Got(n) =>
        nodes := nodes + [n];
        if f.Some? {
          if f.value.at == 0 {
            return Spec.Failed(f.value.error), nodes;
          }
          f := Spec.Later(f);
        }
    }
    ParseTurn(nodes, p.View(), view, f);
    end := Spec.Complete;
  }
}
