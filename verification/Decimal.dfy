/**
 Decimal numerals: what `%d` and `strconv.FormatInt` print, what a scan of digits reads back,
 and Go's truncating division.
 */
module Decimal {

  predicate IsDigit(c: char) { '0' <= c <= '9' }

  function DigitOf(n: nat): char
    requires n < 10
  {
    "0123456789"[n]
  }

  function ValueOf(c: char): nat
    requires IsDigit(c)
  {
    c as int - '0' as int
  }

  function Natural(n: nat): (s: string)
    ensures |s| > 0 && forall i | 0 <= i < |s| :: IsDigit(s[i])
  {
    if n < 10 then [DigitOf(n)] else Natural(n / 10) + [DigitOf(n % 10)]
  }

  function Integer(i: int): string {
    if i < 0 then "-" + Natural(-i) else Natural(i)
  }

  /** Reads digits until something else comes, and returns the value and the rest. */
  function ReadDigits(s: string, acc: nat): (r: (nat, string))
    ensures |r.1| <= |s|
    ensures r.1 != [] ==> !IsDigit(r.1[0])
  {
    if s == [] || !IsDigit(s[0]) then (acc, s)
    else ReadDigits(s[1..], acc * 10 + ValueOf(s[0]))
  }

  /** Reading a printed numeral leaves its value in the accumulator. */
  lemma {:induction false} ReadNatural(n: nat, tail: string)
    ensures ReadDigits(Natural(n) + tail, 0) == ReadDigits(tail, n)
  {
    if n < 10 {
      assert ([DigitOf(n)] + tail)[1..] == tail;
    } else {
      var rest := [DigitOf(n % 10)] + tail;
      assert Natural(n) + tail == Natural(n / 10) + rest;
      ReadNatural(n / 10, rest);
      assert rest[1..] == tail;
    }
  }

  /** Go's integer division and remainder truncate toward zero. */
  function Quo(a: int, b: int): int
    requires b > 0
  {
    if a >= 0 then a / b else -(-a / b)
  }

  function Rem(a: int, b: int): int
    requires b > 0
  {
    a - Quo(a, b) * b
  }

  /** `%0<width>d`: zero padded, the sign counted in the width. */
  function Padded(i: int, width: nat): string {
    if i < 0 then "-" + Zeros(Natural(-i), if width == 0 then 0 else width - 1) else Zeros(Natural(i), width)
  }

  function Zeros(s: string, width: nat): string
    decreases width - |s|
  {
    if |s| >= width then s else Zeros("0" + s, width)
  }

  /** Leading zeros do not change the value read. */
  lemma {:induction false} ReadZeros(s: string, width: nat, tail: string)
    ensures ReadDigits(Zeros(s, width) + tail, 0) == ReadDigits(s + tail, 0)
    decreases width - |s|
  {
    if |s| < width {
      ReadZeros("0" + s, width, tail);
      assert (("0" + s) + tail)[1..] == s + tail;
    }
  }

  lemma {:induction false} ZerosDigits(s: string, width: nat)
    requires s != [] && IsDigit(s[0])
    ensures Zeros(s, width) != [] && IsDigit(Zeros(s, width)[0])
    decreases width - |s|
  {
    if |s| < width { ZerosDigits("0" + s, width); }
  }
}
