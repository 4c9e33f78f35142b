/** RESP3 data types, nodes and errors. */
module Resp3 {
  import opened Bytes

  datatype Type =
    | Array | Push | Set | Map | Attribute
    | SimpleString | SimpleError | Number | Double | Boolean | BigNumber | Null
    | BlobError | VerbatimString | BlobString
    | StreamedString | StreamedStringPart
    | Invalid

  datatype Error =
    | InvalidDataType | NotANumber | ExceedsMaxNestedDepth | UnexpectedBoolValue | EmptyField
    | IncompatibleSize | IncompatibleNodeDepth | NotConnected | OperationAborted
    | AdapterError(code: nat)

  /** One node of the pre-order list the parser hands to an adapter. */
  datatype Node = Node(dataType: Type, aggregateSize: nat, depth: nat, value: bytes)

  predicate IsAggregate(t: Type) {
    t.Array? || t.Push? || t.Set? || t.Map? || t.Attribute?
  }

  predicate IsBlob(t: Type) {
    t.BlobError? || t.VerbatimString? || t.BlobString?
  }

  /** Types whose whole value stands on the header line. */
  predicate IsLine(t: Type) {
    t.SimpleString? || t.SimpleError? || t.Null? || t.Boolean? || IsNumeric(t)
  }

  predicate IsNumeric(t: Type) {
    t.Number? || t.Double? || t.BigNumber?
  }

  predicate IsStreamed(t: Type) {
    t.StreamedString? || t.StreamedStringPart?
  }

  function Multiplicity(t: Type): (m: nat)
    ensures 1 <= m <= 2
  {
    if t.Map? || t.Attribute? then 2 else 1
  }

  /** The types that have a wire code. */
  predicate HasCode(t: Type) {
    !t.StreamedString? && !t.Invalid?
  }

  function ToCode(t: Type): (c: byte)
    requires HasCode(t)
  {
    match t
    case BlobError => 0x21 // '!'
    case VerbatimString => 0x3D // '='
    case BlobString => 0x24 // '$'
    case StreamedStringPart => 0x3B // ';'
    case SimpleError => 0x2D // '-'
    case Number => 0x3A // ':'
    case Double => 0x2C // ','
    case Boolean => 0x23 // '#'
    case BigNumber => 0x28 // '('
    case SimpleString => 0x2B // '+'
    case Null => 0x5F // '_'
    case Push => 0x3E // '>'
    case Set => 0x7E // '~'
    case Array => 0x2A // '*'
    case Attribute => 0x7C // '|'
    case Map => 0x25 // '%'
  }

  function ToType(c: byte): (t: Type) {
    match c
    case 0x21 => BlobError
    case 0x3D => VerbatimString
    case 0x24 => BlobString
    case 0x3B => StreamedStringPart
    case 0x2D => SimpleError
    case 0x3A => Number
    case 0x2C => Double
    case 0x23 => Boolean
    case 0x28 => BigNumber
    case 0x2B => SimpleString
    case 0x5F => Null
    case 0x3E => Push
    case 0x7E => Set
    case 0x2A => Array
    case 0x7C => Attribute
    case 0x25 => Map
    case _ => Invalid
  }

  /** The two code tables are inverse to each other, in both directions. */
  lemma {:induction false} CodesAreInverse(t: Type, c: byte)
    ensures HasCode(t) ==> ToType(ToCode(t)) == t
    ensures HasCode(ToType(c)) ==> ToCode(ToType(c)) == c
    ensures ToType(c) != StreamedString
  {
  }

  const QUESTION: byte := 0x3F // '?'
  const LETTER_F: byte := 0x66 // 'f'
  const LETTER_T: byte := 0x74 // 't'
}
