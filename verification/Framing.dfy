/** Cutting the byte stream into messages does not depend on how the stream is cut into reads. */
module Framing {
  import opened Bytes
  import opened Resp3
  import opened MultiplexerSpec
  import opened Invariants
  import opened Prefixes
  import Parser = ParserSpec

  /** The multiplexer after the reader took all it can, and whether the reader gave up. */
  datatype Drained = Drained(mpx: Mpx, stopped: bool)

  /** The reader's loop between two reads from the socket, with adapters that accept. */
  function Drain(s: Mpx): (d: Drained)
    requires ParserOk(s)
    ensures ParserOk(d.mpx)
    decreases |s.readBuffer|
  {
    if s.readBuffer == [] then Drained(s, false)
    else
      var r := CommitRead(s, None);
      match r.read
      case NeedMore => Drained(r.mpx, false)
      case Message(_, _) => Drain(r.mpx)
      case _ => Drained(r.mpx, true)
  }

  /** One read from the socket; after an error the bytes stay unread. */
  function Feed(d: Drained, data: bytes): (e: Drained)
    requires ParserOk(d.mpx)
    ensures ParserOk(e.mpx)
  {
    if d.stopped then d.(mpx := Append(d.mpx, data)) else Drain(Append(d.mpx, data))
  }

  function FeedAll(d: Drained, chunks: seq<bytes>): (e: Drained)
    requires ParserOk(d.mpx)
    ensures ParserOk(e.mpx)
    decreases |chunks|
  {
    if chunks == [] then d else Feed(FeedAll(d, chunks[..|chunks| - 1]), chunks[|chunks| - 1])
  }

  function Concat(chunks: seq<bytes>): (w: bytes) {
    if chunks == [] then [] else Concat(chunks[..|chunks| - 1]) + chunks[|chunks| - 1]
  }

  /** No bulk taken while draining has a length that wraps. */
  predicate DrainFits(s: Mpx)
    requires ParserOk(s)
    decreases |s.readBuffer|
  {
    || s.readBuffer == []
    || (&& NoWrap(s.parser, s.readBuffer)
        && (CommitRead(s, None).read.Message? ==> DrainFits(CommitRead(s, None).mpx)))
  }

  lemma {:induction false} DeliverAppend(a: seq<Node>, b: seq<Node>, dest: Option<Elem>)
    ensures Deliver(a + b, dest) == Deliver(a, dest) + Deliver(b, dest)
  {
  }

  /** A partial parse, resumed on a longer buffer. */
  lemma {:induction false} PartialReadResumes(s: Mpx, ext: bytes)
    requires ParserOk(s) && s.readBuffer != [] && NoWrap(s.parser, s.readBuffer)
    requires CommitRead(s, None).read.NeedMore?
    ensures
      var t := CommitRead(s, None).mpx;
      && t.readBuffer != [] && ParserOk(t)
      && CommitRead(Append(s, ext), None) == CommitRead(Append(t, ext), None)
  {
    hide Parser.Parse, NoWrap, Deliver, CommitResponse, FinishParsing;
    var p := Parser.Parse(s.parser, s.readBuffer, None);
    ResumeAgrees(s.parser, s.readBuffer, ext);
    var q := Parser.Parse(p.state, s.readBuffer + ext, None);
    var dest := if s.onPush || IsNextPush(s) then None else Some(s.queue[0]);
    DeliverAppend(p.nodes, q.nodes, dest);
    assert s.deliveries + Deliver(p.nodes + q.nodes, dest)
        == s.deliveries + Deliver(p.nodes, dest) + Deliver(q.nodes, dest);
  }

  /** Anything else has the same outcome in a longer buffer, which keeps the extra bytes. */
  lemma {:induction false} FinishedReadIgnoresRest(s: Mpx, ext: bytes)
    requires ParserOk(s) && s.readBuffer != [] && NoWrap(s.parser, s.readBuffer)
    requires !CommitRead(s, None).read.NeedMore?
    ensures
      var r := CommitRead(s, None);
      CommitRead(Append(s, ext), None) == ReadResult(r.read, Append(r.mpx, ext))
  {
    hide Parser.Parse, NoWrap, Deliver;
    var p := Parser.Parse(s.parser, s.readBuffer, None);
    ResumeAgrees(s.parser, s.readBuffer, ext);
    if p.end.Complete? {
      var n := p.state.consumed;
      assert (s.readBuffer + ext)[n..] == s.readBuffer[n..] + ext;
    }
  }

  /** Two reads in a row do what one read of both does. */
  lemma {:induction false} TwoReads(s: Mpx, ext: bytes)
    requires ParserOk(s) && DrainFits(s)
    ensures Feed(Drain(s), ext) == Drain(Append(s, ext))
    decreases |s.readBuffer|
  {
    hide CommitRead, NoWrap;
    if s.readBuffer != [] {
      var r := CommitRead(s, None);
      if r.read.NeedMore? {
        PartialReadResumes(s, ext);
      } else {
        FinishedReadIgnoresRest(s, ext);
        if r.read.Message? {
          ShrinksOnMessage(s);
          TwoReads(r.mpx, ext);
        }
      }
    }
  }

  lemma {:induction false} ShrinksOnMessage(s: Mpx)
    requires ParserOk(s) && s.readBuffer != [] && CommitRead(s, None).read.Message?
    ensures ParserOk(CommitRead(s, None).mpx)
    ensures |CommitRead(s, None).mpx.readBuffer| < |s.readBuffer|
  {
    hide Parser.Parse;
  }

  lemma {:induction false} DrainFitsOfPrefix(s: Mpx, ext: bytes)
    requires ParserOk(s) && DrainFits(Append(s, ext))
    ensures DrainFits(s)
    decreases |s.readBuffer|
  {
    hide CommitRead, NoWrap;
    if s.readBuffer != [] {
      NoWrapOfPrefix(s.parser, s.readBuffer, ext);
      if CommitRead(s, None).read.Message? {
        FinishedReadIgnoresRest(s, ext);
        ShrinksOnMessage(s);
        DrainFitsOfPrefix(CommitRead(s, None).mpx, ext);
      }
    }
  }

  /** De-framing is independent of chunking: however the stream is cut into reads, the same nodes reach
      the same adapters in the same order and the multiplexer ends in the same state as if the whole
      stream had arrived at once. */
  lemma {:induction false} ChunkingDoesNotMatter(s: Mpx, chunks: seq<bytes>)
    requires ParserOk(s) && DrainFits(Append(s, Concat(chunks)))
    requires Drain(s) == Drained(s, false)
    ensures FeedAll(Drained(s, false), chunks) == Feed(Drained(s, false), Concat(chunks))
    decreases |chunks|
  {
    hide Drain, DrainFits;
    if chunks == [] {
      assert Append(s, []) == s;
    } else {
      var init, last := chunks[..|chunks| - 1], chunks[|chunks| - 1];
      var t := Append(s, Concat(init));
      assert Append(t, last) == Append(s, Concat(chunks));
      DrainFitsOfPrefix(t, last);
      ChunkingDoesNotMatter(s, init);
      TwoReads(t, last);
    }
  }
}
