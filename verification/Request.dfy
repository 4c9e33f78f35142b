/** The request builder. */
module Request {
  import opened Bytes
  import opened Decimal
  import opened Resp3
  import opened Trees
  import opened Commands

  datatype Config = Config(
    cancelOnConnectionLost: bool,
    cancelIfNotConnected: bool,
    cancelIfUnresponded: bool,
    helloWithPriority: bool
  )

  const DEFAULT_CONFIG: Config := Config(true, false, true, true)

  /** An argument as the caller passes it; integers are sent in decimal. */
  datatype Arg = Text(text: bytes) | Integer(n: int) {
    function Bytes(): bytes {
      match this
      case Text(t) => t
      case Integer(n) => ToString(n)
    }
  }

  function ArgBytes(args: seq<Arg>): (bs: seq<bytes>)
    ensures |bs| == |args| && forall i :: 0 <= i < |args| ==> bs[i] == args[i].Bytes()
  {
    if args == [] then [] else ArgBytes(args[..|args| - 1]) + [args[|args| - 1].Bytes()]
  }

  /** The bulks of a range of pairs: two for each. */
  function PairBytes(pairs: seq<(Arg, Arg)>): (bs: seq<bytes>)
    ensures |bs| == 2 * |pairs|
    ensures forall i :: 0 <= i < |pairs| ==> bs[2 * i] == pairs[i].0.Bytes() && bs[2 * i + 1] == pairs[i].1.Bytes()
  {
    if pairs == [] then []
    else
      var last := pairs[|pairs| - 1];
      PairBytes(pairs[..|pairs| - 1]) + [last.0.Bytes(), last.1.Bytes()]
  }

  function WithKey(cmd: bytes, key: Option<bytes>): (bs: seq<bytes>)
    ensures |bs| == (if key.Some? then 2 else 1) && bs[0] == cmd && (key.Some? ==> bs[1] == key.value)
  {
    if key.Some? then [cmd, key.value] else [cmd]
  }

  lemma {:induction false} OneBulk(b: bytes)
    ensures BulksBytes([b]) == BlobBytes(BlobString, b)
  {
    hide BlobBytes;
    assert [b][..0] == [];
  }

  lemma {:induction false} BulksBytesSnoc(c: seq<bytes>, b: bytes)
    ensures BulksBytes(c + [b]) == BulksBytes(c) + BlobBytes(BlobString, b)
  {
    hide BlobBytes;
    assert (c + [b])[..|c|] == c;
  }

  /** What one more command adds. */
  lemma {:induction false} OneMoreCommand(cs: seq<Command>, c: Command)
    ensures Payload(cs + [c]) == Payload(cs) + CommandBytes(c)
    ensures Replies(cs + [c]) == Replies(cs) + if AnsweredByPush(c[0]) then 0 else 1
    ensures HasHello(cs + [c]) <==> HasHello(cs) || c[0] == HELLO
    ensures AllSendable(cs + [c]) <==> AllSendable(cs) && Sendable(c)
  {
    hide CommandBytes, AnsweredByPush, Sendable;
    assert (cs + [c])[..|cs|] == cs;
    assert forall i :: 0 <= i < |cs| ==> (cs + [c])[i] == cs[i];
    assert (cs + [c])[|cs|] == c;
  }

  class Request {
    var cfg: Config
    var payload: bytes
    var commands: nat
    var expectedResponses: nat
    var helloPriority: bool

    /** The commands pushed since the request was created or cleared. */
    ghost var sent: seq<Command>

    ghost predicate Valid()
      reads this
    {
      && AllSendable(sent)
      && payload == Payload(sent)
      && commands == |sent|
      && expectedResponses == Replies(sent)
      && helloPriority == (cfg.helloWithPriority && HasHello(sent))
    }

    constructor (cfg: Config)
      ensures Valid() && sent == [] && this.cfg == cfg
    {
      this.cfg := cfg;
      payload, commands, expectedResponses, helloPriority := [], 0, 0, false;
      sent := [];
    }

    method Clear()
      requires Valid()
      modifies this
      ensures Valid() && sent == [] && cfg == old(cfg)
    {
      payload := [];
      commands := 0;
      expectedResponses := 0;
      helloPriority := false;
      sent := [];
    }

    /** `boost_redis_to_bulk`: appends a length-prefixed string. */
    method ToBulk(data: bytes)
      modifies this`payload
      ensures payload == old(payload) + BlobBytes(BlobString, data)
    {
      var str := Digits(|data|);
      payload := payload + [ToCode(BlobString)];
      payload := payload + str;
      payload := payload + SEP;
      payload := payload + data;
      payload := payload + SEP;
      assert payload == old(payload) + BlobBytes(BlobString, data);
    }

    method AddHeader(t: Type, size: nat)
      requires HasCode(t)
      modifies this`payload
      ensures payload == old(payload) + HeaderLine(t, size)
    {
      var str := Digits(size);
      payload := payload + [ToCode(t)];
      payload := payload + str;
      payload := payload + SEP;
      assert payload == old(payload) + HeaderLine(t, size);
    }

    /** `check_cmd`: the bookkeeping after the bytes of one command were appended. */
    method CheckCmd(cmd: bytes, ghost c: Command)
      requires Sendable(c) && c[0] == cmd && AllSendable(sent)
      requires payload == Payload(sent) + CommandBytes(c)
      requires commands == |sent| && expectedResponses == Replies(sent)
      requires helloPriority == (cfg.helloWithPriority && HasHello(sent))
      modifies this`commands, this`expectedResponses, this`helloPriority, this`sent
      ensures Valid() && sent == old(sent) + [c]
    {
      hide Payload, CommandBytes, Replies, HasHello, AllSendable, Sendable;
      commands := commands + 1;
      if !AnsweredByPush(cmd) {
        expectedResponses := expectedResponses + 1;
      }
      if cmd == HELLO {
        helloPriority := cfg.helloWithPriority;
      }
      OneMoreCommand(sent, c);
      sent := sent + [c];
    }

    /** Appends one bulk per argument. */
    method AddArgs(args: seq<Arg>, ghost start: bytes, ghost before: seq<bytes>)
      requires payload == start + BulksBytes(before)
      modifies this`payload
      ensures payload == start + BulksBytes(before + ArgBytes(args))
    {
      hide BlobBytes, BulksBytes, Arg.Bytes;
      var i := 0;
      assert before + ArgBytes(args[..0]) == before;
      while i < |args|
        invariant 0 <= i <= |args|
        invariant payload == start + BulksBytes(before + ArgBytes(args[..i]))
      {
        ghost var done := before + ArgBytes(args[..i]);
        BulksBytesSnoc(done, args[i].Bytes());
        ToBulk(args[i].Bytes());
        i := i + 1;
        assert args[..i][..i - 1] == args[..i - 1];
        assert before + ArgBytes(args[..i]) == done + [args[i - 1].Bytes()];
      }
      assert args[..|args|] == args;
    }

    /** `push`: one command with a fixed list of arguments. */
    method Push(cmd: bytes, args: seq<Arg>)
      requires Valid() && Sendable([cmd] + ArgBytes(args))
      modifies this
      ensures Valid() && cfg == old(cfg)
      ensures sent == old(sent) + [[cmd] + ArgBytes(args)]
    {
      hide HeaderLine, BlobBytes, BulksBytes, Payload, ArgBytes, Arg.Bytes, Replies, HasHello, Sendable;
      ghost var c: Command := [cmd] + ArgBytes(args);
      AddHeader(Array, 1 + |args|);
      ghost var start := payload;
      OneBulk(cmd);
      ToBulk(cmd);
      AddArgs(args, start, [cmd]);
      assert payload == Payload(sent) + CommandBytes(c);
      CheckCmd(cmd, c);
    }

    /** `push_range` on single values, with or without a key; an empty range pushes nothing. */
    method PushRange(cmd: bytes, key: Option<bytes>, range: seq<Arg>)
      requires Valid() && Sendable(WithKey(cmd, key) + ArgBytes(range))
      modifies this
      ensures Valid() && cfg == old(cfg)
      ensures sent == old(sent) + if range == [] then [] else [WithKey(cmd, key) + ArgBytes(range)]
    {
      hide HeaderLine, BlobBytes, BulksBytes, WithKey, Payload, ArgBytes, Replies, HasHello, Sendable;
      if range == [] {
        return;
      }
      ghost var c: Command := WithKey(cmd, key) + ArgBytes(range);
      AddHeader(Array, (if key.Some? then 2 else 1) + |range|);
      ghost var start := payload;
      AddNames(cmd, key, start);
      AddArgs(range, start, WithKey(cmd, key));
      assert payload == Payload(sent) + CommandBytes(c);
      CheckCmd(cmd, c);
    }

    method AddNames(cmd: bytes, key: Option<bytes>, ghost start: bytes)
      requires payload == start
      modifies this`payload
      ensures payload == start + BulksBytes(WithKey(cmd, key))
    {
      OneBulk(cmd);
      ToBulk(cmd);
      if key.Some? {
        BulksBytesSnoc([cmd], key.value);
        ToBulk(key.value);
      }
    }

    /** Appends two bulks per pair. */
    method AddPairs(range: seq<(Arg, Arg)>, ghost start: bytes, ghost before: seq<bytes>)
      requires payload == start + BulksBytes(before)
      modifies this`payload
      ensures payload == start + BulksBytes(before + PairBytes(range))
    {
      hide BlobBytes, BulksBytes, Arg.Bytes;
      var i := 0;
      assert before + PairBytes(range[..0]) == before;
      while i < |range|
        invariant 0 <= i <= |range|
        invariant payload == start + BulksBytes(before + PairBytes(range[..i]))
      {
        ghost var done := before + PairBytes(range[..i]);
        BulksBytesSnoc(done, range[i].0.Bytes());
        BulksBytesSnoc(done + [range[i].0.Bytes()], range[i].1.Bytes());
        ToBulk(range[i].0.Bytes());
        ToBulk(range[i].1.Bytes());
        i := i + 1;
        assert range[..i][..i - 1] == range[..i - 1];
        assert before + PairBytes(range[..i]) == done + [range[i - 1].0.Bytes()] + [range[i - 1].1.Bytes()];
      }
      assert range[..|range|] == range;
    }

    /** `push_range` on pairs: two bulks for each element, and a header that counts both. */
    method PushPairs(cmd: bytes, key: Option<bytes>, range: seq<(Arg, Arg)>)
      requires Valid() && Sendable(WithKey(cmd, key) + PairBytes(range))
      modifies this
      ensures Valid() && cfg == old(cfg)
      ensures sent == old(sent) + if range == [] then [] else [WithKey(cmd, key) + PairBytes(range)]
    {
      hide HeaderLine, BlobBytes, BulksBytes, WithKey, Payload, PairBytes, Replies, HasHello, Sendable;
      if range == [] {
        return;
      }
      ghost var c: Command := WithKey(cmd, key) + PairBytes(range);
      AddHeader(Array, (if key.Some? then 2 else 1) + 2 * |range|);
      ghost var start := payload;
      AddNames(cmd, key, start);
      AddPairs(range, start, WithKey(cmd, key));
      assert payload == Payload(sent) + CommandBytes(c);
      CheckCmd(cmd, c);
    }
  }

  /** The payload of a valid request decodes to exactly the commands that were pushed, and the two
      counters are the number of commands and the number of replies the server owes for them. */
  lemma {:induction false} RequestRoundTrip(r: Request)
    requires r.Valid()
    ensures Decode(r.payload) == Some(r.sent)
    ensures r.commands == |Decode(r.payload).value|
    ensures r.expectedResponses == Replies(Decode(r.payload).value)
  {
    PayloadDecodes(r.sent);
  }

  /** The server reads an argument: a text as it is, an integer as the same integer. */
  predicate ReadsAs(b: bytes, arg: Arg) {
    match arg
    case Text(t) => b == t
    case Integer(n) => SignedValue(b) == Some(n)
  }

  lemma {:induction false} ArgReadsBack(arg: Arg)
    ensures ReadsAs(arg.Bytes(), arg)
  {
    if arg.Integer? {
      SignedReadsBack(arg.n);
    }
  }

  /** What `push` or `push_range` was given is what the server reads from the payload: the name, the key if there is
      one, then the arguments, in order. */
  lemma {:induction false} PushedIsRead(r: Request, j: nat, cmd: bytes, key: Option<bytes>, args: seq<Arg>)
    requires r.Valid() && j < |r.sent| && r.sent[j] == WithKey(cmd, key) + ArgBytes(args)
    ensures Decode(r.payload).Some? && |Decode(r.payload).value| == |r.sent|
    ensures
      var c, k := Decode(r.payload).value[j], if key.Some? then 2 else 1;
      && |c| == k + |args| && c[0] == cmd && (key.Some? ==> c[1] == key.value)
      && forall i :: 0 <= i < |args| ==> ReadsAs(c[k + i], args[i])
  {
    hide ReadsAs, Arg.Bytes, WithKey, ArgBytes, Decode, Payload, Replies, HasHello, AllSendable;
    RequestRoundTrip(r);
    var c, k := r.sent[j], if key.Some? then 2 else 1;
    forall i | 0 <= i < |args| ensures ReadsAs(c[k + i], args[i]) {
      ArgReadsBack(args[i]);
      assert c[k + i] == ArgBytes(args)[i];
    }
  }

  /** The same for a range of pairs. */
  lemma {:induction false} PairsAreRead(r: Request, j: nat, cmd: bytes, key: Option<bytes>, pairs: seq<(Arg, Arg)>)
    requires r.Valid() && j < |r.sent| && r.sent[j] == WithKey(cmd, key) + PairBytes(pairs)
    ensures Decode(r.payload).Some? && |Decode(r.payload).value| == |r.sent|
    ensures
      var c, k := Decode(r.payload).value[j], if key.Some? then 2 else 1;
      && |c| == k + 2 * |pairs| && c[0] == cmd && (key.Some? ==> c[1] == key.value)
      && forall i :: 0 <= i < |pairs| ==> ReadsAs(c[k + 2 * i], pairs[i].0) && ReadsAs(c[k + 2 * i + 1], pairs[i].1)
  {
    hide ReadsAs, Arg.Bytes, WithKey, PairBytes, Decode, Payload, Replies, HasHello, AllSendable;
    RequestRoundTrip(r);
    var c, k := r.sent[j], if key.Some? then 2 else 1;
    forall i | 0 <= i < |pairs|
      ensures ReadsAs(c[k + 2 * i], pairs[i].0) && ReadsAs(c[k + 2 * i + 1], pairs[i].1)
    {
      ArgReadsBack(pairs[i].0);
      ArgReadsBack(pairs[i].1);
      assert c[k + 2 * i] == PairBytes(pairs)[2 * i] && c[k + 2 * i + 1] == PairBytes(pairs)[2 * i + 1];
    }
  }

  function Ascii(s: string): (b: bytes) {
    seq(|s|, i requires 0 <= i < |s| => (s[i] as int % 256) as byte)
  }

  /** The names that matter, spelled out: the SUBSCRIBE family has no replies, and HELLO asks for priority. */
  lemma {:induction false} NamesSpelledOut(name: bytes)
    ensures AnsweredByPush(name) <==>
            name == Ascii("SUBSCRIBE") || name == Ascii("PSUBSCRIBE") || name == Ascii("UNSUBSCRIBE")
    ensures HELLO == Ascii("HELLO")
  {
    assert Ascii("SUBSCRIBE") == SUBSCRIBE;
    assert Ascii("PSUBSCRIBE") == PSUBSCRIBE;
    assert Ascii("UNSUBSCRIBE") == UNSUBSCRIBE;
    assert Ascii("HELLO") == HELLO;
  }

  /** A valid request asks for one reply for each of its commands outside that family, and goes first exactly if
      it says HELLO and is configured to. */
  lemma {:induction false} RepliesAreCounted(r: Request)
    requires r.Valid()
    ensures r.expectedResponses == |set i | 0 <= i < |r.sent| && !AnsweredByPush(r.sent[i][0])|
    ensures r.helloPriority <==>
            r.cfg.helloWithPriority && exists i :: 0 <= i < |r.sent| && r.sent[i][0] == Ascii("HELLO")
  {
    CountReplies(r.sent);
    NamesSpelledOut([]);
  }

  lemma {:induction false} CountReplies(cs: seq<Command>)
    ensures Replies(cs) == |set i | 0 <= i < |cs| && !AnsweredByPush(cs[i][0])|
  {
    hide AnsweredByPush;
    if cs != [] {
      var n := |cs| - 1;
      CountReplies(cs[..n]);
      var few := set i | 0 <= i < n && !AnsweredByPush(cs[..n][i][0]);
      var all := set i | 0 <= i < |cs| && !AnsweredByPush(cs[i][0]);
      assert all == if AnsweredByPush(cs[n][0]) then few else few + {n};
    }
  }
}
