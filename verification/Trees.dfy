/** RESP3 messages as trees: the reference that the parser's node lists are measured against. */
module Trees {
  import opened Bytes
  import opened Decimal
  import opened Resp3
  import opened ParserSpec

  /** `Line` values stand on one line, `Blob` values are length-prefixed, `Aggregate` values have
      children (keys and values alternate in a map), `Stream` is a string sent in parts. */
  datatype Tree =
    | Line(kind: Type, text: bytes)
    | Blob(kind: Type, data: bytes)
    | Aggregate(kind: Type, items: seq<Tree>)
    | Stream(parts: seq<bytes>)

  predicate LineOk(kind: Type, text: bytes) {
    && IsLine(kind)
    && OneLine(text)
    && (IsNumeric(kind) ==> text != [])
    && (kind.Boolean? ==> text != [] && (text[0] == LETTER_F || text[0] == LETTER_T))
  }

  predicate BlobOk(kind: Type, data: bytes) {
    IsBlob(kind) && |data| + 2 < SIZE
  }

  /** The aggregates whose children are keys and values in turn, and whose header counts the pairs. */
  predicate IsPaired(kind: Type) {
    kind.Map? || kind.Attribute?
  }

  predicate AggregateOk(kind: Type, count: nat) {
    IsAggregate(kind) && (IsPaired(kind) ==> count % 2 == 0) && count < SIZE
  }

  predicate PartOk(part: bytes) {
    part != [] && |part| + 2 < SIZE
  }

  predicate PartsOk(parts: seq<bytes>) {
    forall i :: 0 <= i < |parts| ==> PartOk(parts[i])
  }

  /** The messages RESP3 can express, with every length within `std::size_t`. */
  predicate WellFormed(t: Tree)
    decreases t, 1
  {
    match t
    case Line(k, text) => LineOk(k, text)
    case Blob(k, data) => BlobOk(k, data)
    case Aggregate(k, items) => AggregateOk(k, |items|) && AllWellFormed(items)
    case Stream(parts) => |parts| < SIZE - 1 && PartsOk(parts)
  }

  predicate AllWellFormed(ts: seq<Tree>)
    decreases ts, 0
  {
    ts == [] || (WellFormed(ts[0]) && AllWellFormed(ts[1..]))
  }

  /** Streamed strings are opened below the depth limit only. */
  predicate StreamsFit(t: Tree, depth: nat)
    decreases t, 1
  {
    match t
    case Aggregate(_, items) => AllStreamsFit(items, depth + 1)
    case Stream(_) => depth < MAX_DEPTH
    case _ => true
  }

  predicate AllStreamsFit(ts: seq<Tree>, depth: nat)
    decreases ts, 0
  {
    ts == [] || (StreamsFit(ts[0], depth) && AllStreamsFit(ts[1..], depth))
  }

  function Max(a: nat, b: nat): nat {
    if a < b then b else a
  }

  /** How many levels a message opens. */
  function Height(t: Tree): (h: nat)
    decreases t, 1
  {
    match t
    case Aggregate(_, items) => if items == [] then 0 else 1 + MaxHeight(items)
    case Stream(_) => 1
    case _ => 0
  }

  function MaxHeight(ts: seq<Tree>): (h: nat)
    decreases ts, 0
  {
    if ts == [] then 0 else Max(Height(ts[0]), MaxHeight(ts[1..]))
  }

  // The wire format.

  function HeaderLine(kind: Type, count: nat): (w: bytes)
    requires HasCode(kind)
  {
    [ToCode(kind)] + Digits(count) + SEP
  }

  /** The number in the header of an aggregate with `count` children. */
  function Announced(kind: Type, count: nat): (n: nat) {
    if IsPaired(kind) then count / 2 else count
  }

  function BlobBytes(kind: Type, data: bytes): (w: bytes)
    requires HasCode(kind)
  {
    HeaderLine(kind, |data|) + data + SEP
  }

  function PartsBytes(parts: seq<bytes>): (w: bytes) {
    if parts == [] then HeaderLine(StreamedStringPart, 0)
    else BlobBytes(StreamedStringPart, parts[0]) + PartsBytes(parts[1..])
  }

  function Encode(t: Tree): (w: bytes)
    requires WellFormed(t)
    decreases t, 1
  {
    match t
    case Line(k, text) => [ToCode(k)] + text + SEP
    case Blob(k, data) => BlobBytes(k, data)
    case Aggregate(k, items) => HeaderLine(k, Announced(k, |items|)) + EncodeAll(items)
    case Stream(parts) => [ToCode(BlobString), QUESTION] + SEP + PartsBytes(parts)
  }

  function EncodeAll(ts: seq<Tree>): (w: bytes)
    requires AllWellFormed(ts)
    decreases ts, 0
  {
    if ts == [] then [] else Encode(ts[0]) + EncodeAll(ts[1..])
  }

  // The node lists.

  function PartNodes(parts: seq<bytes>, depth: nat): (ns: seq<Node>) {
    if parts == [] then [Node(StreamedStringPart, 1, depth, [])]
    else [Node(StreamedStringPart, 1, depth, parts[0])] + PartNodes(parts[1..], depth)
  }

  /** The pre-order node list of a message.  A streamed string and its parts stand one level below the
      place where the string occurs, as the parser reports them. */
  function PreOrder(t: Tree, depth: nat): (ns: seq<Node>)
    ensures ns != []
    decreases t, 1
  {
    match t
    case Line(k, text) => [Node(k, 1, depth, text)]
    case Blob(k, data) => [Node(k, 1, depth, data)]
    case Aggregate(k, items) =>
      [Node(k, Announced(k, |items|), depth, [])] + PreOrderAll(items, depth + 1)
    case Stream(parts) => [Node(StreamedString, 0, depth + 1, [])] + PartNodes(parts, depth + 1)
  }

  function PreOrderAll(ts: seq<Tree>, depth: nat): (ns: seq<Node>)
    decreases ts, 0
  {
    if ts == [] then [] else PreOrder(ts[0], depth) + PreOrderAll(ts[1..], depth)
  }

  /** The nodes that precede the first element nested too deeply. */
  function Reached(t: Tree, depth: nat): (ns: seq<Node>)
    decreases t, 1
  {
    if depth + Height(t) <= MAX_DEPTH then PreOrder(t, depth)
    else
      match t
      case Aggregate(k, items) =>
        if depth >= MAX_DEPTH then []
        else [Node(k, Announced(k, |items|), depth, [])] + ReachedAll(items, depth + 1)
      case _ => []
  }

  function ReachedAll(ts: seq<Tree>, depth: nat): (ns: seq<Node>)
    decreases ts, 0
  {
    if ts == [] then []
    else if depth + Height(ts[0]) <= MAX_DEPTH then PreOrder(ts[0], depth) + ReachedAll(ts[1..], depth)
    else Reached(ts[0], depth)
  }

  // Facts about sequences of trees.

  lemma {:induction false} PreOrderAllAppend(ts: seq<Tree>, us: seq<Tree>, depth: nat)
    ensures PreOrderAll(ts + us, depth) == PreOrderAll(ts, depth) + PreOrderAll(us, depth)
  {
    if ts == [] {
      assert ts + us == us;
    } else {
      assert (ts + us)[1..] == ts[1..] + us;
      PreOrderAllAppend(ts[1..], us, depth);
    }
  }

  lemma {:induction false} AllWellFormedAt(ts: seq<Tree>)
    ensures AllWellFormed(ts) <==> forall i :: 0 <= i < |ts| ==> WellFormed(ts[i])
  {
    if ts != [] {
      AllWellFormedAt(ts[1..]);
      assert forall i :: 1 <= i < |ts| ==> ts[i] == ts[1..][i - 1];
    }
  }

  lemma {:induction false} MaxHeightAt(ts: seq<Tree>, h: nat)
    ensures MaxHeight(ts) <= h <==> forall i :: 0 <= i < |ts| ==> Height(ts[i]) <= h
  {
    if ts != [] {
      MaxHeightAt(ts[1..], h);
      assert forall i :: 1 <= i < |ts| ==> ts[i] == ts[1..][i - 1];
    }
  }
}
