/** Decimal lengths: `std::to_string` on the writing side, `std::from_chars` on the reading side. */
module Decimal {
  import opened Bytes

  const ZERO: byte := 48 // '0'
  const MINUS: byte := 45 // '-'

  predicate IsDigit(b: byte) {
    48 <= b <= 57
  }

  /** `std::to_string` on an unsigned value. */
  function Digits(n: nat): (ds: bytes)
    ensures ds != [] && forall i :: 0 <= i < |ds| ==> IsDigit(ds[i])
  {
    if n < 10 then [(48 + n) as byte] else Digits(n / 10) + [(48 + n % 10) as byte]
  }

  /** `std::to_string` on a signed value. */
  function ToString(n: int): (ds: bytes) {
    if n < 0 then [MINUS] + Digits(-n) else Digits(n)
  }

  /** The number a sequence of digits denotes. */
  function Value(ds: bytes): (n: nat)
    requires forall i :: 0 <= i < |ds| ==> IsDigit(ds[i])
  {
    if ds == [] then 0
    else
      assert IsDigit(ds[|ds| - 1]);
      Value(ds[..|ds| - 1]) * 10 + (ds[|ds| - 1] as int - 48)
  }

  /** Length of the longest digit prefix, which is all that `std::from_chars` looks at. */
  function DigitRun(s: bytes): (n: nat)
    ensures n <= |s| && forall i :: 0 <= i < n ==> IsDigit(s[i])
    ensures n < |s| ==> !IsDigit(s[n])
  {
    if s == [] || !IsDigit(s[0]) then 0 else 1 + DigitRun(s[1..])
  }

  /** `to_int`: no digit, or a value beyond `std::size_t`, is an error; what follows the digits is ignored. */
  function FromChars(s: bytes): (r: Option<nat>)
    ensures r.Some? ==> r.value < SIZE && s != []
  {
    var n := DigitRun(s);
    if n == 0 then None
    else
      var v := Value(s[..n]);
      if v < SIZE then Some(v) else None
  }

  lemma {:induction false} DigitRunAll(s: bytes, n: nat)
    requires n <= |s| && forall i :: 0 <= i < n ==> IsDigit(s[i])
    requires n < |s| ==> !IsDigit(s[n])
    ensures DigitRun(s) == n
  {
    if n > 0 {
      DigitRunAll(s[1..], n - 1);
    }
  }

  lemma {:induction false} ValueOfDigits(n: nat)
    ensures Value(Digits(n)) == n
  {
    if n < 10 {
      assert Digits(n)[..0] == [];
    } else {
      var ds := Digits(n);
      assert ds[..|ds| - 1] == Digits(n / 10);
      ValueOfDigits(n / 10);
    }
  }

  /** Printing a length and reading it back is the identity on every `std::size_t`, and whatever
      non-digit text follows is ignored; larger numbers are refused. */
  lemma {:induction false} PrintedLengthReadsBack(n: nat, rest: bytes)
    requires rest == [] || !IsDigit(rest[0])
    ensures FromChars(Digits(n) + rest) == if n < SIZE then Some(n) else None
  {
    var ds := Digits(n);
    var s := ds + rest;
    forall i | 0 <= i < |ds| ensures IsDigit(s[i]) {
      assert s[i] == ds[i];
    }
    DigitRunAll(s, |ds|);
    assert s[..|ds|] == ds;
    ValueOfDigits(n);
  }

  /** Reading any number, leading zeros included: the digits in front count, up to 64 bits; without one there
      is no number. */
  lemma {:induction false} NumberIsRead(ds: bytes, rest: bytes)
    requires (forall i :: 0 <= i < |ds| ==> 48 <= ds[i] <= 57) && (rest == [] || !(48 <= rest[0] <= 57))
    ensures FromChars(ds + rest) ==
            if ds != [] && Value(ds) < 18446744073709551616 then Some(Value(ds)) else None
  {
    var s := ds + rest;
    assert forall i :: 0 <= i < |ds| ==> s[i] == ds[i];
    DigitRunAll(s, |ds|);
    assert s[..|ds|] == ds;
  }

  // Signed numbers.

  /** The number that a decimal text denotes. */
  function SignedValue(s: bytes): (r: Option<int>) {
    if s == [] then None
    else if s[0] == 45 then
      if |s| > 1 && DigitRun(s[1..]) == |s| - 1 then Some(-(Value(s[1..]) as int)) else None
    else if DigitRun(s) == |s| then Some(Value(s)) else None
  }

  /** A signed number is printed as its digits, behind a minus sign if it is negative. */
  lemma {:induction false} ToStringIs(n: int)
    ensures n >= 0 ==> (forall i :: 0 <= i < |ToString(n)| ==> IsDigit(ToString(n)[i])) && Value(ToString(n)) == n
    ensures n < 0 ==>
              && |ToString(n)| > 1 && ToString(n)[0] == 45
              && (forall i :: 1 <= i < |ToString(n)| ==> IsDigit(ToString(n)[i]))
              && Value(ToString(n)[1..]) == -n
  {
    ValueOfDigits(if n < 0 then -n else n);
    if n < 0 {
      assert ToString(n)[1..] == Digits(-n);
    }
  }

  /** Printing a signed number and reading it back is the identity. */
  lemma {:induction false} SignedReadsBack(n: int)
    ensures SignedValue(ToString(n)) == Some(n)
  {
    var s := ToString(n);
    ToStringIs(n);
    if n < 0 {
      DigitRunAll(s[1..], |s| - 1);
    } else {
      assert IsDigit(s[0]);
      DigitRunAll(s, |s|);
    }
  }

  lemma {:induction false} ToStringIsInjective(m: int, n: int)
    requires ToString(m) == ToString(n)
    ensures m == n
  {
    SignedReadsBack(m);
    SignedReadsBack(n);
  }

  lemma {:induction false} DigitsAreOneLine(n: nat)
    ensures OneLine(Digits(n))
  {
    var ds := Digits(n);
    forall i | 0 <= i ensures !SepAt(ds, i) {
      assert i < |ds| ==> IsDigit(ds[i]);
    }
  }
}
