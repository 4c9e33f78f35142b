/** Parsing a prefix and resuming on a longer buffer is the same as parsing the longer buffer. */
module Prefixes {
  import opened Bytes
  import opened Resp3
  import opened ParserSpec

  /** The bulk that a step from `p` tries to take, if it gets that far. */
  function Expected(p: State, view: bytes): (b: Option<Bulk>)
    requires p.Ok() && p.consumed <= |view|
  {
    if p.bulk.Some? then p.bulk
    else
      match FindSep(view, p.consumed)
      case None => None
      case Some(pos) =>
        match ReadHeader(ToType(view[p.consumed]), Content(view, p.consumed, pos), p.levels)
        case Expects(b) => Some(b)
        case _ => None
  }

  /** `bulk_length_ + 2` does not wrap. */
  predicate Fits(b: Bulk) {
    b.length + 2 < SIZE
  }

  /** A bulk taken by the step from `p` has a length that fits. */
  predicate StepFits(p: State, view: bytes)
    requires p.Ok() && p.consumed <= |view|
  {
    Expected(p, view).Some? && Consume(p, view).Emit? ==> Fits(Expected(p, view).value)
  }

  /** Every bulk taken while parsing `view` from `p` has a length that fits. */
  predicate NoWrap(p: State, view: bytes)
    requires p.Ok() && p.consumed <= |view|
    decreases |view| - p.consumed, if p.bulk.Some? then 1 else 0
  {
    p.Done() || !Consume(p, view).Emit? || (StepFits(p, view) && NoWrap(Consume(p, view).state, view))
  }

  /** Parsing `view` until it asks for more, then resuming on `view + ext`, gives the nodes, the error
      and the state that parsing `view + ext` at once gives. */
  ghost predicate Agrees(p: State, view: bytes, ext: bytes)
    requires p.Ok() && p.consumed <= |view|
  {
    var r := Parse(p, view, None);
    Parse(p, view + ext, None) ==
    if r.end.Partial? then Prepend(r.nodes, Parse(r.state, view + ext, None)) else r
  }

  lemma {:induction false} TakeBulkStable(p: State, view: bytes, ext: bytes)
    requires p.Ok() && p.bulk.Some? && p.consumed <= |view|
    requires TakeBulk(p, view).Emit? ==> Fits(p.bulk.value)
    ensures TakeBulk(p, view).More? ==> TakeBulk(p, view).state == p
    ensures !TakeBulk(p, view).More? ==> TakeBulk(p, view + ext) == TakeBulk(p, view)
  {
    var n := p.bulk.value.length;
    if TakeBulk(p, view).Emit? {
      assert BulkValue(view + ext, p.consumed, n) == BulkValue(view, p.consumed, n);
    }
  }

  /** The header line, once visible, is read the same way from any longer buffer. */
  lemma {:induction false} HeaderStable(p: State, view: bytes, ext: bytes)
    requires p.Ok() && p.bulk.None? && p.consumed <= |view|
    requires FindSep(view, p.consumed).Some?
    ensures
      var pos := FindSep(view, p.consumed).value;
      var c := p.consumed;
      && FindSep(view + ext, c) == Some(pos)
      && ReadHeader(ToType((view + ext)[c]), Content(view + ext, c, pos), p.levels)
         == ReadHeader(ToType(view[c]), Content(view, c, pos), p.levels)
  {
    FindSepStable(view, ext, p.consumed);
    var c, pos := p.consumed, FindSep(view, p.consumed).value;
    if pos == c {
      assert ToType(CR) == Invalid;
    } else {
      assert (view + ext)[c + 1..pos] == view[c + 1..pos];
    }
  }

  lemma {:induction false} ConsumeStable(p: State, view: bytes, ext: bytes)
    requires p.Ok() && p.consumed <= |view| && StepFits(p, view)
    ensures Consume(p, view).More? ==>
              && (Consume(p, view).state == p || Consume(p, view).state.bulk.Some?)
              && Consume(p, view + ext) == Consume(Consume(p, view).state, view + ext)
    ensures !Consume(p, view).More? ==> Consume(p, view + ext) == Consume(p, view)
  {
    hide ReadHeader, ToType;
    if p.bulk.Some? {
      TakeBulkStable(p, view, ext);
    } else if FindSep(view, p.consumed).Some? {
      HeaderStable(p, view, ext);
      if Expected(p, view).Some? {
        var next := FindSep(view, p.consumed).value + 2;
        TakeBulkStable(State(p.levels, Expected(p, view), next), view, ext);
      }
    }
  }

  lemma {:induction false} ResumeAgrees(p: State, view: bytes, ext: bytes)
    requires p.Ok() && p.consumed <= |view| && NoWrap(p, view)
    ensures Agrees(p, view, ext)
    decreases |view| - p.consumed, if p.bulk.Some? then 1 else 0
  {
    hide Consume, Expected;
    if !p.Done() {
      ConsumeStable(p, view, ext);
      if Consume(p, view).Emit? {
        ResumeAgrees(Consume(p, view).state, view, ext);
      }
    }
  }

  /** A wrapped length makes the value swallow whatever the buffer happens to hold. */
  lemma {:induction false} WrappedBulkGrows(p: State, view: bytes, ext: bytes)
    requires p.Ok() && p.consumed <= |view| && !StepFits(p, view)
    requires ext != [] && |view + ext| + 2 < SIZE
    requires Expected(p, view).value.length < SIZE
    ensures Consume(p, view).Emit? && Consume(p, view + ext).Emit?
    ensures |Consume(p, view + ext).node.value| == |Consume(p, view).node.value| + |ext|
  {
    hide ReadHeader, ToType;
    if p.bulk.None? {
      HeaderStable(p, view, ext);
    }
  }

  lemma {:induction false} WrapDisagrees(p: State, view: bytes, ext: bytes)
    requires p.Ok() && p.consumed <= |view| && !NoWrap(p, view)
    requires p.bulk.Some? ==> p.bulk.value.length < SIZE
    requires ext != [] && |view + ext| + 2 < SIZE
    ensures !Agrees(p, view, ext)
    decreases |view| - p.consumed, if p.bulk.Some? then 1 else 0
  {
    hide Consume, ReadHeader;
    var q := Consume(p, view).state;
    if StepFits(p, view) {
      ConsumeStable(p, view, ext);
      WrapDisagrees(q, view, ext);
      var rest := Parse(q, view, None);
      assert Parse(p, view + ext, None).nodes[1..] == Parse(q, view + ext, None).nodes;
      assert Prepend(Parse(p, view, None).nodes, Parse(rest.state, view + ext, None)).nodes[1..]
          == Prepend(rest.nodes, Parse(rest.state, view + ext, None)).nodes;
      assert Parse(p, view, None).nodes[1..] == rest.nodes;
    } else {
      ExpectedInRange(p, view);
      WrappedBulkGrows(p, view, ext);
      assert Parse(p, view, None).nodes[0] == Consume(p, view).node;
      assert Parse(p, view + ext, None).nodes[0] == Consume(p, view + ext).node;
    }
  }

  lemma {:induction false} ExpectedInRange(p: State, view: bytes)
    requires p.Ok() && p.consumed <= |view| && Expected(p, view).Some?
    requires p.bulk.Some? ==> p.bulk.value.length < SIZE
    ensures Expected(p, view).value.length < SIZE
  {
  }

  /** Prefix stability, exactly.  Resuming agrees with parsing at once, for every way the buffer can
      grow, if and only if no bulk was taken whose length plus the separator wraps in `std::size_t`. */
  lemma {:induction false} PrefixStability(p: State, view: bytes)
    requires p.Ok() && p.consumed <= |view| && |view| + 3 < SIZE
    requires p.bulk.Some? ==> p.bulk.value.length < SIZE
    ensures NoWrap(p, view) <==> forall ext :: Agrees(p, view, ext)
  {
    if NoWrap(p, view) {
      forall ext ensures Agrees(p, view, ext) {
        ResumeAgrees(p, view, ext);
      }
    } else {
      WrapDisagrees(p, view, [CR]);
    }
  }

  /** Each node advances the parser within the buffer, so the loop ends: a buffer yields at most one
      node per byte it holds. */
  lemma {:induction false} NodesAreBoundedByBytes(p: State, view: bytes)
    requires p.Ok() && p.consumed <= |view|
    ensures
      var r := Parse(p, view, None);
      |r.nodes| <= |view| - p.consumed + (if p.bulk.Some? then 1 else 0)
    decreases |view| - p.consumed, if p.bulk.Some? then 1 else 0
  {
    hide Consume;
    if !p.Done() && Consume(p, view).Emit? {
      NodesAreBoundedByBytes(Consume(p, view).state, view);
    }
  }

  /** What fits in a longer buffer fits in the shorter one. */
  lemma {:induction false} NoWrapOfPrefix(p: State, view: bytes, ext: bytes)
    requires p.Ok() && p.consumed <= |view| && NoWrap(p, view + ext)
    ensures NoWrap(p, view)
    decreases |view| - p.consumed, if p.bulk.Some? then 1 else 0
  {
    hide Consume, Expected;
    if !p.Done() && Consume(p, view).Emit? {
      StepFitsOfPrefix(p, view, ext);
      ConsumeStable(p, view, ext);
      NoWrapOfPrefix(Consume(p, view).state, view, ext);
    }
  }

  lemma {:induction false} StepFitsOfPrefix(p: State, view: bytes, ext: bytes)
    requires p.Ok() && p.consumed <= |view| && Consume(p, view).Emit?
    requires !p.Done() && NoWrap(p, view + ext)
    ensures StepFits(p, view)
  {
    hide ReadHeader, ToType, NoWrap;
    if p.bulk.None? {
      HeaderStable(p, view, ext);
    }
    if Expected(p, view).Some? {
      assert Expected(p, view + ext) == Expected(p, view);
      EmitsToo(p, view, ext);
      FitsNow(p, view + ext);
    }
  }

  lemma {:induction false} EmitsToo(p: State, view: bytes, ext: bytes)
    requires p.Ok() && p.consumed <= |view| && Consume(p, view).Emit?
    requires Expected(p, view).Some? && Expected(p, view + ext) == Expected(p, view)
    ensures Consume(p, view + ext).Emit?
  {
    hide ReadHeader, ToType;
    if p.bulk.None? {
      HeaderStable(p, view, ext);
    }
  }

  lemma {:induction false} FitsNow(p: State, view: bytes)
    requires p.Ok() && p.consumed <= |view| && !p.Done() && Consume(p, view).Emit? && NoWrap(p, view)
    ensures StepFits(p, view)
  {
    hide Consume, Expected;
  }

  /** An adapter that refuses a node cuts the parse there: the nodes up to it were handed over, the error is the
      adapter's, and the parser stands where an accepting adapter would have gone on.  A refusal that is not
      reached changes nothing. */
  lemma {:induction false} RefusalCuts(p: State, view: bytes, k: nat, e: Error)
    requires p.Ok() && p.consumed <= |view|
    ensures
      var all, r := Parse(p, view, None), Parse(p, view, Some(Fault(k, e)));
      if k < |all.nodes| then
        r.end == Failed(e) && r.nodes == all.nodes[..k + 1] && all == Prepend(r.nodes, Parse(r.state, view, None))
      else r == all
    decreases |view| - p.consumed, if p.bulk.Some? then 1 else 0
  {
    hide Consume;
    if !p.Done() && Consume(p, view).Emit? {
      var n, q := Consume(p, view).node, Consume(p, view).state;
      var rest := Parse(q, view, None).nodes;
      if k > 0 {
        RefusalCuts(q, view, k - 1, e);
        var r := Parse(q, view, Some(Fault(k - 1, e)));
        var more := Parse(r.state, view, None).nodes;
        if k - 1 < |rest| {
          assert ([n] + rest)[..k + 1] == [n] + rest[..k];
          assert [n] + (r.nodes + more) == ([n] + r.nodes) + more;
        }
      } else {
        assert ([n] + rest)[..1] == [n];
      }
    }
  }
}
