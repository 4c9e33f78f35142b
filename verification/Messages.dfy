/** The wire side and the request side together: whole messages, as a peer sends them, reach the
    requests they answer. */
module Messages {
  import opened Bytes
  import opened Resp3
  import opened Trees
  import opened RoundTrip
  import opened MultiplexerSpec
  import opened Invariants
  import opened Framing
  import Parser = ParserSpec
  import Prefixes

  /** A message a peer can send and the parser can take. */
  predicate Receivable(t: Tree) {
    WellFormed(t) && StreamsFit(t, 0) && Height(t) <= Parser.MAX_DEPTH
  }

  predicate AllReceivable(ts: seq<Tree>) {
    forall i :: 0 <= i < |ts| ==> Receivable(ts[i])
  }

  /** Between two messages, with nothing left to read. */
  ghost predicate Idle(s: Mpx) {
    s.parser == Parser.INITIAL && !s.onPush && s.readBuffer == []
  }

  /** Whether a message is taken as a server push, said without looking at bytes. */
  predicate TakenAsPush(s: Mpx, t: Tree) {
    || (t.Aggregate? && t.kind.Push?)
    || s.queue == []
    || s.queue[0].remaining == 0
    || s.queue[0].IsWaiting()
  }

  /** The reference: one whole message is handed over, without buffers, parser state or resumption. */
  function HandOver(s: Mpx, t: Tree): (r: Mpx)
    requires WellFormed(t)
  {
    var size := |Encode(t)|;
    var u := s.usage;
    if TakenAsPush(s, t) then
      s.(deliveries := s.deliveries + Deliver(PreOrder(t, 0), None),
         usage := u.(pushesReceived := u.pushesReceived + 1, pushBytes := u.pushBytes + size))
    else
      CommitResponse(s, size).(
      deliveries := s.deliveries + Deliver(PreOrder(t, 0), Some(s.queue[0])),
      usage := u.(responsesReceived := u.responsesReceived + 1, responseBytes := u.responseBytes + size))
  }

  function HandOverAll(s: Mpx, ts: seq<Tree>): (r: Mpx)
    requires AllWellFormed(ts)
    decreases |ts|
  {
    if ts == [] then s else HandOverAll(HandOver(s, ts[0]), ts[1..])
  }

  lemma {:induction false} FirstByte(t: Tree, rest: bytes)
    requires WellFormed(t)
    ensures
      var w := Encode(t) + rest;
      w != [] && (ToType(w[0]).Push? <==> t.Aggregate? && t.kind.Push?)
  {
    match t
    case Aggregate(k, items) => CodesAreInverse(k, 0);
    case Line(k, _) => CodesAreInverse(k, 0);
    case Blob(k, _) => CodesAreInverse(k, 0);
    case Stream(_) => CodesAreInverse(BlobString, 0);
  }

  /** One `commit_read` on a buffer that starts with a message hands that message over. */
  lemma {:induction false} ReadsOneMessage(s: Mpx, t: Tree, rest: bytes)
    requires Idle(s) && Receivable(t)
    ensures
      var b := Append(s, Encode(t) + rest);
      && ParserOk(b) && b.readBuffer != [] && Prefixes.NoWrap(b.parser, b.readBuffer)
      && CommitRead(b, None) ==
         ReadResult(Message(TakenAsPush(s, t), |Encode(t)|), Append(HandOver(s, t), rest))
  {
    hide Parser.Parse, Prefixes.NoWrap, Encode, PreOrder, Deliver;
    var w := Encode(t) + rest;
    assert [] + w == w;
    FirstByte(t, rest);
    EncodedMessageParses(t, rest);
    assert w[|Encode(t)|..] == rest;
    assert [] + rest == rest;
  }

  lemma {:induction false} HandOverKeepsIdle(s: Mpx, t: Tree)
    requires WellFormed(t) && Idle(s)
    ensures Idle(HandOver(s, t))
  {
  }

  lemma {:induction false} DrainsMessages(s: Mpx, ts: seq<Tree>)
    requires Idle(s) && AllReceivable(ts) && AllWellFormed(ts)
    ensures ParserOk(Append(s, EncodeAll(ts))) && DrainFits(Append(s, EncodeAll(ts)))
    ensures Drain(Append(s, EncodeAll(ts))) == Drained(HandOverAll(s, ts), false)
    ensures Idle(HandOverAll(s, ts))
    decreases |ts|
  {
    hide CommitRead, HandOver, Encode, Prefixes.NoWrap;
    if ts == [] {
      assert [] + [] == s.readBuffer;
    } else {
      var rest := EncodeAll(ts[1..]);
      ReadsOneMessage(s, ts[0], rest);
      HandOverKeepsIdle(s, ts[0]);
      DrainsMessages(HandOver(s, ts[0]), ts[1..]);
      EncodingNotEmpty(ts[0]);
      assert |EncodeAll(ts)| > |rest|;
    }
  }

  /** Any list of messages, cut into reads in any way: the incremental machinery of buffers, parser state
      and classification does exactly what handing over the whole messages one by one does. */
  lemma {:induction false} ChunkedMessagesAreHandedOver(s: Mpx, ts: seq<Tree>, chunks: seq<bytes>)
    requires Idle(s) && AllReceivable(ts) && AllWellFormed(ts)
    requires Concat(chunks) == EncodeAll(ts)
    ensures FeedAll(Drained(s, false), chunks) == Drained(HandOverAll(s, ts), false)
  {
    hide CommitRead, HandOverAll, Encode, EncodeAll, DrainFits;
    DrainsMessages(s, ts);
    ChunkingDoesNotMatter(s, chunks);
  }
}
