/** The wire format on literal bytes: what the parser makes of each type code, and what it refuses. */
module Wire {
  import opened Bytes
  import opened Decimal
  import opened Resp3
  import opened ParserSpec
  import opened Trees
  import opened RoundTrip

  // The codes of RESP3.

  predicate LineCode(c: byte, k: Type) {
    match k
    case SimpleString => c == 43 // '+'
    case SimpleError => c == 45 // '-'
    case Number => c == 58 // ':'
    case Double => c == 44 // ','
    case Boolean => c == 35 // '#'
    case BigNumber => c == 40 // '('
    case Null => c == 95 // '_'
    case _ => false
  }

  predicate BlobCode(c: byte, k: Type) {
    match k
    case BlobString => c == 36 // '$'
    case BlobError => c == 33 // '!'
    case VerbatimString => c == 61 // '='
    case _ => false
  }

  /** Aggregates whose header counts the children. */
  predicate ListCode(c: byte, k: Type) {
    match k
    case Array => c == 42 // '*'
    case Push => c == 62 // '>'
    case Set => c == 126 // '~'
    case _ => false
  }

  /** Aggregates whose header counts pairs. */
  predicate PairCode(c: byte, k: Type) {
    match k
    case Map => c == 37 // '%'
    case Attribute => c == 124 // '|'
    case _ => false
  }

  /** The sixteen codes, `;` for the part of a streamed string among them. */
  predicate IsCode(c: byte) {
    || c == 33 || c == 35 || c == 36 || c == 37 || c == 40 || c == 42 || c == 43 || c == 44
    || c == 45 || c == 58 || c == 59 || c == 61 || c == 62 || c == 95 || c == 124 || c == 126
  }

  /** No line break inside. */
  predicate OneRow(text: bytes) {
    forall i :: 0 <= i < |text| - 1 ==> text[i] != 13 || text[i + 1] != 10
  }

  lemma {:induction false} RowIsLine(text: bytes)
    requires OneRow(text)
    ensures OneLine(text)
  {
  }

  lemma {:induction false} CodesAreThose(c: byte, k: Type)
    ensures LineCode(c, k) || BlobCode(c, k) || ListCode(c, k) || PairCode(c, k) ==> HasCode(k) && ToCode(k) == c
    ensures ToCode(StreamedStringPart) == 59
    ensures ToType(c) == Invalid <==> !IsCode(c)
  {
    CodesAreInverse(k, c);
  }

  /** A parse from the start that is complete after `size` bytes and handed over these nodes. */
  predicate ParsesTo(view: bytes, size: nat, ns: seq<Node>) {
    Parse(INITIAL, view, None) == Parsed(Complete, State([1], None, size), ns)
  }

  lemma {:induction false} TreeParsesTo(t: Tree, w: bytes, rest: bytes)
    requires WellFormed(t) && StreamsFit(t, 0) && Height(t) <= 5 && Encode(t) == w
    ensures ParsesTo(w + rest, |w|, PreOrder(t, 0))
  {
    hide Parse, Encode, PreOrder;
    EncodedMessageParses(t, rest);
  }

  // What a peer sends is read.

  /** Values on one line: strings and errors, numbers that are not empty, booleans that begin with 't' or 'f'. */
  lemma {:induction false} LineOnTheWire(c: byte, k: Type, text: bytes, rest: bytes)
    requires LineCode(c, k) && OneRow(text)
    requires c == 58 || c == 44 || c == 40 ==> text != []
    requires c == 35 ==> text != [] && (text[0] == 116 || text[0] == 102)
    ensures ParsesTo([c] + text + [13, 10] + rest, |text| + 3, [Node(k, 1, 0, text)])
  {
    hide Parse, OneLine;
    RowIsLine(text);
    CodesAreThose(c, k);
    TreeParsesTo(Line(k, text), [c] + text + [13, 10], rest);
  }

  /** Length-prefixed values, with any bytes in them. */
  lemma {:induction false} BlobOnTheWire(c: byte, k: Type, data: bytes, rest: bytes)
    requires BlobCode(c, k) && |data| + 2 < 18446744073709551616
    ensures
      var w := [c] + Digits(|data|) + [13, 10] + data + [13, 10];
      ParsesTo(w + rest, |w|, [Node(k, 1, 0, data)])
  {
    hide Parse, Digits;
    CodesAreThose(c, k);
    TreeParsesTo(Blob(k, data), [c] + Digits(|data|) + [13, 10] + data + [13, 10], rest);
  }

  /** Arrays, sets and pushes: the header counts the children. */
  lemma {:induction false} ListOnTheWire(c: byte, k: Type, items: seq<Tree>, rest: bytes)
    requires ListCode(c, k) && |items| < 18446744073709551616
    requires AllWellFormed(items) && AllStreamsFit(items, 1) && MaxHeight(items) < 5
    ensures
      var w := [c] + Digits(|items|) + [13, 10] + EncodeAll(items);
      ParsesTo(w + rest, |w|, [Node(k, |items|, 0, [])] + PreOrderAll(items, 1))
  {
    hide Parse, Digits, AllWellFormed, AllStreamsFit, MaxHeight, EncodeAll, PreOrderAll;
    CodesAreThose(c, k);
    TreeParsesTo(Aggregate(k, items), [c] + Digits(|items|) + [13, 10] + EncodeAll(items), rest);
  }

  function Flatten(entries: seq<(Tree, Tree)>): (items: seq<Tree>)
    ensures |items| == 2 * |entries|
  {
    if entries == [] then [] else [entries[0].0, entries[0].1] + Flatten(entries[1..])
  }

  /** Each key followed by its value. */
  function EntriesBytes(entries: seq<(Tree, Tree)>): (w: bytes)
    requires EntriesOk(entries)
  {
    if entries == [] then []
    else
      assert EntryOk(entries[0]);
      Encode(entries[0].0) + Encode(entries[0].1) + EntriesBytes(entries[1..])
  }

  function EntriesNodes(entries: seq<(Tree, Tree)>): (ns: seq<Node>) {
    if entries == [] then []
    else PreOrder(entries[0].0, 1) + PreOrder(entries[0].1, 1) + EntriesNodes(entries[1..])
  }

  predicate EntryOk(entry: (Tree, Tree)) {
    && WellFormed(entry.0) && WellFormed(entry.1) && StreamsFit(entry.0, 1) && StreamsFit(entry.1, 1)
    && Height(entry.0) < 5 && Height(entry.1) < 5
  }

  predicate EntriesOk(entries: seq<(Tree, Tree)>) {
    forall i :: 0 <= i < |entries| ==> EntryOk(entries[i])
  }

  lemma {:induction false} EntriesFlatten(entries: seq<(Tree, Tree)>)
    requires EntriesOk(entries)
    ensures
      var items := Flatten(entries);
      && AllWellFormed(items) && AllStreamsFit(items, 1) && MaxHeight(items) < 5
      && EncodeAll(items) == EntriesBytes(entries) && PreOrderAll(items, 1) == EntriesNodes(entries)
  {
    hide WellFormed, StreamsFit, Height, Encode, PreOrder;
    if entries != [] {
      var e, rest := entries[0], Flatten(entries[1..]);
      assert EntryOk(e);
      EntriesFlatten(entries[1..]);
      var items := Flatten(entries);
      assert items[1..] == [e.1] + rest && ([e.1] + rest)[1..] == rest;
      assert AllWellFormed([e.1] + rest) && AllStreamsFit([e.1] + rest, 1);
      assert MaxHeight([e.1] + rest) < 5;
      assert EncodeAll([e.1] + rest) == Encode(e.1) + EncodeAll(rest);
      assert PreOrderAll([e.1] + rest, 1) == PreOrder(e.1, 1) + PreOrderAll(rest, 1);
    }
  }

  /** Maps and attributes: the header counts the pairs, and each pair is a key and its value. */
  lemma {:induction false} PairsOnTheWire(c: byte, k: Type, entries: seq<(Tree, Tree)>, rest: bytes)
    requires PairCode(c, k) && 2 * |entries| < 18446744073709551616
    requires EntriesOk(entries)
    ensures
      var w := [c] + Digits(|entries|) + [13, 10] + EntriesBytes(entries);
      ParsesTo(w + rest, |w|, [Node(k, |entries|, 0, [])] + EntriesNodes(entries))
  {
    hide Parse, Digits, AllWellFormed, AllStreamsFit, MaxHeight, EncodeAll, PreOrderAll, Flatten, EntriesBytes;
    hide EntriesNodes, EntriesOk, WellFormed, Encode, StreamsFit, Height, PreOrder;
    var items := Flatten(entries);
    EntriesFlatten(entries);
    CodesAreThose(c, k);
    PairsUnfold(k, items, |entries|);
    TreeParsesTo(Aggregate(k, items), [c] + Digits(|entries|) + [13, 10] + EntriesBytes(entries), rest);
  }

  lemma {:induction false} PairsUnfold(k: Type, items: seq<Tree>, n: nat)
    requires (k.Map? || k.Attribute?) && |items| == 2 * n < SIZE
    requires AllWellFormed(items) && AllStreamsFit(items, 1) && MaxHeight(items) < 5
    ensures
      var t := Aggregate(k, items);
      && WellFormed(t) && StreamsFit(t, 0) && Height(t) <= 5
      && Encode(t) == [ToCode(k)] + Digits(n) + SEP + EncodeAll(items)
      && PreOrder(t, 0) == [Node(k, n, 0, [])] + PreOrderAll(items, 1)
  {
    hide Digits, AllWellFormed, AllStreamsFit, MaxHeight, EncodeAll, PreOrderAll, ToCode;
  }

  function StreamBytes(parts: seq<bytes>): (w: bytes) {
    if parts == [] then [59, 48, 13, 10]
    else [59] + Digits(|parts[0]|) + [13, 10] + parts[0] + [13, 10] + StreamBytes(parts[1..])
  }

  function StreamParts(parts: seq<bytes>): (ns: seq<Node>) {
    if parts == [] then [Node(StreamedStringPart, 1, 1, [])]
    else [Node(StreamedStringPart, 1, 1, parts[0])] + StreamParts(parts[1..])
  }

  lemma {:induction false} PartsAreThose(parts: seq<bytes>)
    ensures PartsBytes(parts) == StreamBytes(parts) && PartNodes(parts, 1) == StreamParts(parts)
  {
    CodesAreThose(59, Invalid);
    if parts == [] {
      assert Digits(0) == [48];
      assert PartsBytes(parts) == [59] + [48] + [13, 10];
    } else {
      hide Digits;
      PartsAreThose(parts[1..]);
    }
  }

  /** A string sent in parts, none of them empty but the last. */
  lemma {:induction false} StreamOnTheWire(parts: seq<bytes>, rest: bytes)
    requires |parts| < 18446744073709551615
    requires forall i :: 0 <= i < |parts| ==> parts[i] != [] && |parts[i]| + 2 < 18446744073709551616
    ensures
      var w := [36, 63, 13, 10] + StreamBytes(parts);
      ParsesTo(w + rest, |w|, [Node(StreamedString, 0, 1, [])] + StreamParts(parts))
  {
    hide Parse, Digits, StreamBytes, StreamParts, PartsBytes, PartNodes;
    PartsAreThose(parts);
    CodesAreThose(36, BlobString);
    var t, w := Stream(parts), [36, 63, 13, 10] + StreamBytes(parts);
    assert [ToCode(BlobString), QUESTION] + SEP == [36, 63, 13, 10];
    TreeParsesTo(t, w, rest);
  }

  // What the parser refuses.

  /** The error a header line is refused with, if it is. */
  function HeaderError(c: byte, content: bytes): (e: Option<Error>) {
    if !IsCode(c) then Some(InvalidDataType)
    else if c == 35 then
      if content == [] then Some(EmptyField)
      else if content[0] != 116 && content[0] != 102 then Some(UnexpectedBoolValue)
      else None
    else if c == 58 || c == 44 || c == 40 then if content == [] then Some(EmptyField) else None
    else if c == 36 || c == 33 || c == 61 then
      if content != [] && content[0] != 63 && FromChars(content).None? then Some(NotANumber) else None
    else if c == 43 || c == 45 || c == 95 then None
    else if FromChars(content).None? then Some(NotANumber) else None
  }

  lemma {:induction false} HeaderRefused(c: byte, content: bytes, levels: seq<nat>)
    requires 1 <= |levels| <= MAX_DEPTH
    ensures
      var h := ReadHeader(ToType(c), content, levels);
      (h.Rejects? <==> HeaderError(c, content).Some?) && (h.Rejects? ==> Some(h.error) == HeaderError(c, content))
  {
    hide FromChars, CommitElem;
    CodesAreThose(c, Invalid);
  }

  /** The first line of a message is refused exactly in these cases, with these errors, before any node. */
  lemma {:induction false} RefusedOnTheWire(c: byte, content: bytes, rest: bytes)
    requires c != 13 && OneRow(content)
    ensures
      var r := Parse(INITIAL, [c] + content + [13, 10] + rest, None);
      var e := HeaderError(c, content);
      && (e.Some? ==> r == Parsed(Failed(e.value), INITIAL, []))
      && (e.None? ==> !(r.end.Failed? && r.nodes == []))
  {
    hide HeaderError, ReadHeader, FindSep, CommitElem;
    var view := [c] + content + [13, 10] + rest;
    RowIsLine(content);
    assert view[0..0 + |[c] + content + SEP|] == [c] + content + SEP;
    LineRead(view, 0, c, content);
    HeaderRefused(c, content, [2]);
  }
}
