/** Bytes as the wire carries them, and the line separator the protocol is built on. */
module Bytes {

  datatype Option<+T> = None | Some(value: T)

  newtype byte = i: int | 0 <= i < 256

  type bytes = seq<byte>

  /** Number of values of the source's `std::size_t` (64 bits). */
  const SIZE: nat := 0x1_0000_0000_0000_0000

  const CR: byte := 13
  const LF: byte := 10
  const SEP: bytes := [CR, LF]

  predicate SepAt(v: bytes, i: int) {
    0 <= i && i + 1 < |v| && v[i] == CR && v[i + 1] == LF
  }

  /** `view.find("\r\n", from)`: the first separator at or after `from`. */
  function FindSep(v: bytes, from: nat): (r: Option<nat>)
    requires from <= |v|
    ensures r.Some? ==> from <= r.value && SepAt(v, r.value)
    ensures r.Some? ==> forall i :: from <= i < r.value ==> !SepAt(v, i)
    ensures r.None? ==> forall i :: from <= i ==> !SepAt(v, i)
    decreases |v| - from
  {
    if SepAt(v, from) then Some(from)
    else if from + 1 >= |v| then None
    else FindSep(v, from + 1)
  }

  /** A text that holds no separator, so that it can be sent as one line. */
  predicate OneLine(text: bytes) {
    FindSep(text, 0).None?
  }

  /** The first separator is found from its two defining properties. */
  lemma {:induction false} FindSepIs(v: bytes, from: nat, pos: nat)
    requires from <= pos && SepAt(v, pos)
    requires forall i :: from <= i < pos ==> !SepAt(v, i)
    ensures FindSep(v, from) == Some(pos)
  {
  }

  /** A line of one-line text ends at the separator written after it, whatever follows. */
  lemma {:induction false} LineEnds(v: bytes, from: nat, text: bytes)
    requires OneLine(text)
    requires from + |text| + 2 <= |v|
    requires v[from..from + |text| + 2] == text + SEP
    ensures FindSep(v, from) == Some(from + |text|)
  {
    var w := text + SEP;
    forall i | from <= i < from + |text| ensures !SepAt(v, i) {
      assert v[i] == w[i - from] && v[i + 1] == w[i + 1 - from];
      assert !SepAt(text, i - from);
    }
    var pos := from + |text|;
    assert v[pos] == w[|text|] && v[pos + 1] == w[|text| + 1];
    FindSepIs(v, from, pos);
  }

  /** Growing the buffer never moves a separator that was already visible. */
  lemma {:induction false} FindSepStable(v: bytes, ext: bytes, from: nat)
    requires from <= |v|
    ensures FindSep(v, from).Some? ==> FindSep(v + ext, from) == FindSep(v, from)
  {
    if FindSep(v, from).Some? {
      var pos := FindSep(v, from).value;
      forall i | from <= i < pos ensures !SepAt(v + ext, i) {
        assert !SepAt(v, i);
      }
      FindSepIs(v + ext, from, pos);
    }
  }
}
