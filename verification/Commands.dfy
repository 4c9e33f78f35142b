/** A request's payload as a value: the commands it carries, their encoding, and decoding it again. */
module Commands {
  import opened Bytes
  import opened Resp3
  import opened ParserSpec
  import opened Trees
  import opened RoundTrip

  const SUBSCRIBE: bytes := [83, 85, 66, 83, 67, 82, 73, 66, 69] // "SUBSCRIBE"
  const PSUBSCRIBE: bytes := [80] + SUBSCRIBE // "PSUBSCRIBE"
  const UNSUBSCRIBE: bytes := [85, 78] + SUBSCRIBE // "UNSUBSCRIBE"
  const HELLO: bytes := [72, 69, 76, 76, 79] // "HELLO"

  /** A command: its name and its arguments, each sent as one bulk. */
  type Command = c: seq<bytes> | c != [] witness [[]]

  /** Every size of the command is a `std::size_t`. */
  predicate Sendable(c: Command) {
    |c| < SIZE && forall i :: 0 <= i < |c| ==> |c[i]| + 2 < SIZE
  }

  predicate AllSendable(cs: seq<Command>) {
    forall i :: 0 <= i < |cs| ==> Sendable(cs[i])
  }

  function Bulks(c: seq<bytes>): (ts: seq<Tree>)
    ensures |ts| == |c|
  {
    if c == [] then [] else [Blob(BlobString, c[0])] + Bulks(c[1..])
  }

  /** A command travels as an array of blob strings. */
  function CommandTree(c: Command): (t: Tree) {
    Aggregate(Array, Bulks(c))
  }

  function BulksBytes(c: seq<bytes>): (w: bytes) {
    if c == [] then [] else BulksBytes(c[..|c| - 1]) + BlobBytes(BlobString, c[|c| - 1])
  }

  function CommandBytes(c: Command): (w: bytes) {
    HeaderLine(Array, |c|) + BulksBytes(c)
  }

  function Payload(cs: seq<Command>): (w: bytes) {
    if cs == [] then [] else Payload(cs[..|cs| - 1]) + CommandBytes(cs[|cs| - 1])
  }

  /** Commands of the SUBSCRIBE family are answered by pushes, not by replies. */
  predicate AnsweredByPush(name: bytes) {
    name == SUBSCRIBE || name == PSUBSCRIBE || name == UNSUBSCRIBE
  }

  /** The number of replies the commands call for. */
  function Replies(cs: seq<Command>): (n: nat)
    ensures n <= |cs|
  {
    if cs == [] then 0
    else Replies(cs[..|cs| - 1]) + if AnsweredByPush(cs[|cs| - 1][0]) then 0 else 1
  }

  predicate HasHello(cs: seq<Command>) {
    exists i :: 0 <= i < |cs| && cs[i][0] == HELLO
  }

  // Decoding.

  function Values(ns: seq<Node>): (vs: seq<bytes>) {
    if ns == [] then [] else [ns[0].value] + Values(ns[1..])
  }

  /** Repeatedly parses one message and consumes it; the values below the root are the command. */
  function Decode(buffer: bytes): (r: Option<seq<seq<bytes>>>)
    decreases |buffer|
  {
    if buffer == [] then Some([])
    else
      var r := Parse(INITIAL, buffer, None);
      if !r.end.Complete? || r.nodes == [] then None
      else
        match Decode(buffer[r.state.consumed..])
        case None => None
        case Some(rest) => Some([Values(r.nodes[1..])] + rest)
  }

  lemma {:induction false} BulksBytesCons(c: seq<bytes>)
    requires c != []
    ensures BulksBytes(c) == BlobBytes(BlobString, c[0]) + BulksBytes(c[1..])
  {
    if |c| > 1 {
      var n := |c| - 1;
      BulksBytesCons(c[..n]);
      assert c[..n][1..] == c[1..][..n - 1];
      assert c[1..][n - 1] == c[n];
    }
  }

  lemma {:induction false} BulksEncode(c: seq<bytes>)
    requires forall i :: 0 <= i < |c| ==> |c[i]| + 2 < SIZE
    ensures AllWellFormed(Bulks(c)) && EncodeAll(Bulks(c)) == BulksBytes(c)
    ensures AllStreamsFit(Bulks(c), 1) && MaxHeight(Bulks(c)) == 0
  {
    hide BlobBytes, BulksBytes;
    if c != [] {
      BulksEncode(c[1..]);
      BulksBytesCons(c);
      assert Bulks(c)[1..] == Bulks(c[1..]);
    } else {
      NoBulks();
    }
  }

  lemma {:induction false} NoBulks()
    ensures BulksBytes([]) == []
  {
  }

  lemma {:induction false} BulksNodes(c: seq<bytes>)
    ensures Values(PreOrderAll(Bulks(c), 1)) == c
  {
    if c != [] {
      BulksNodes(c[1..]);
      assert Bulks(c)[1..] == Bulks(c[1..]);
      assert PreOrderAll(Bulks(c), 1)[1..] == PreOrderAll(Bulks(c[1..]), 1);
    }
  }

  lemma {:induction false} AnyArray(count: nat)
    requires count < SIZE
    ensures AggregateOk(Array, count) && Announced(Array, count) == count
  {
  }

  lemma {:induction false} CommandEncodes(c: Command)
    requires Sendable(c)
    ensures WellFormed(CommandTree(c)) && Encode(CommandTree(c)) == CommandBytes(c)
    ensures StreamsFit(CommandTree(c), 0) && Height(CommandTree(c)) == 1
    ensures Values(PreOrder(CommandTree(c), 0)[1..]) == c
  {
    hide AllWellFormed, AllStreamsFit, MaxHeight, EncodeAll, PreOrderAll, BulksBytes, HeaderLine, Values;
    hide AggregateOk, Announced;
    AnyArray(|c|);
    BulksEncode(c);
    BulksNodes(c);
    assert PreOrder(CommandTree(c), 0)[1..] == PreOrderAll(Bulks(c), 1);
  }

  lemma {:induction false} PayloadCons(cs: seq<Command>)
    requires cs != []
    ensures Payload(cs) == CommandBytes(cs[0]) + Payload(cs[1..])
  {
    if |cs| > 1 {
      var n := |cs| - 1;
      PayloadCons(cs[..n]);
      assert cs[..n][1..] == cs[1..][..n - 1];
    }
  }

  /** Request round trip: parsing and consuming a payload until it is empty gives back exactly the
      commands it was built from, with every argument's bytes intact. */
  lemma {:induction false} PayloadDecodes(cs: seq<Command>)
    requires AllSendable(cs)
    ensures Decode(Payload(cs)) == Some(cs)
  {
    hide CommandBytes, CommandTree, Parse;
    if cs != [] {
      var c, rest := cs[0], Payload(cs[1..]);
      PayloadCons(cs);
      CommandEncodes(c);
      EncodedMessageParses(CommandTree(c), rest);
      EncodingNotEmpty(CommandTree(c));
      assert Payload(cs)[|CommandBytes(c)|..] == rest;
      PayloadDecodes(cs[1..]);
      assert cs == [c] + cs[1..];
    }
  }
}
