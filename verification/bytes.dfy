/**
 * Octets, byte strings, and the decimal numerals that Go's `%d` verb writes
 * for a non-negative int.
 */
module Bytes {
  import opened Wrappers

  /** An octet, as Go's `byte`. */
  newtype byte = b: int | 0 <= b < 256

  /** The bytes of a string literal. Every literal the handler writes is ASCII,
      and for ASCII the UTF-8 encoding Go uses is the character code itself. */
  function Ascii(s: string): (r: seq<byte>)
    requires forall i :: 0 <= i < |s| ==> s[i] < 128 as char
    ensures |r| == |s| && forall i :: 0 <= i < |s| ==> r[i] as int == s[i] as int
  {
    seq(|s|, i requires 0 <= i < |s| => s[i] as int as byte)
  }

  /** Concatenation of a sequence of sequences, in order. */
  function Flatten<T>(ss: seq<seq<T>>): seq<T>
  {
    if |ss| == 0 then [] else ss[0] + Flatten(ss[1..])
  }

  lemma {:induction false} FlattenAppend<T>(a: seq<seq<T>>, b: seq<seq<T>>)
    ensures Flatten(a + b) == Flatten(a) + Flatten(b)
  {
    if |a| == 0 {
      assert a + b == b;
    } else {
      assert (a + b)[1..] == a[1..] + b;
      FlattenAppend(a[1..], b);
    }
  }

  /** The ASCII code of the digit `0`. */
  const Zero: byte := 48

  predicate IsDigit(b: byte)
  {
    Zero <= b <= Zero + 9
  }

  predicate AllDigits(s: seq<byte>)
  {
    forall i :: 0 <= i < |s| ==> IsDigit(s[i])
  }

  /** A numeral as `%d` writes a non-negative int: at least one digit, no sign,
      and no leading zero except for the numeral of zero itself. */
  predicate Canonical(s: seq<byte>)
  {
    |s| > 0 && AllDigits(s) && (s[0] == Zero ==> |s| == 1)
  }

  function Digit(d: nat): (b: byte)
    requires d < 10
    ensures IsDigit(b) && (b - Zero) as nat == d
  {
    (Zero as int + d) as byte
  }

  /** The decimal numeral of `n`, most significant digit first. */
  function Decimal(n: nat): (r: seq<byte>)
    ensures Canonical(r)
    ensures r[0] == Zero <==> n == 0
  {
    if n < 10 then [Digit(n)] else Decimal(n / 10) + [Digit(n % 10)]
  }

  /** The number a string of digits denotes, most significant digit first. */
  function Value(s: seq<byte>): nat
    requires AllDigits(s)
  {
    if |s| == 0 then 0 else Value(s[..|s| - 1]) * 10 + (s[|s| - 1] - Zero) as nat
  }

  /** Reads back a numeral `%d` could have written. */
  function ParseDecimal(s: seq<byte>): Option<nat>
  {
    if Canonical(s) then Some(Value(s)) else None
  }

  lemma {:induction false} ValueOfDecimal(n: nat)
    ensures Value(Decimal(n)) == n
  {
    if n >= 10 {
      var d := Decimal(n);
      assert d[..|d| - 1] == Decimal(n / 10);
      ValueOfDecimal(n / 10);
    }
  }

  /** Parsing a formatted number gives the number back. */
  lemma DecimalRoundTrip(n: nat)
    ensures ParseDecimal(Decimal(n)) == Some(n)
  {
    ValueOfDecimal(n);
  }

  lemma {:induction false} LeadingDigitPositive(s: seq<byte>)
    requires |s| > 0 && AllDigits(s) && s[0] != Zero
    ensures Value(s) > 0
  {
    if |s| > 1 {
      LeadingDigitPositive(s[..|s| - 1]);
    }
  }

  lemma {:induction false} DecimalOfValue(s: seq<byte>)
    requires Canonical(s)
    ensures Decimal(Value(s)) == s
  {
    if |s| > 1 {
      var prefix := s[..|s| - 1];
      LeadingDigitPositive(prefix);
      DecimalOfValue(prefix);
      assert s == prefix + [s[|s| - 1]];
    }
  }

  /** Formatting a parsed numeral gives the numeral back: `%d` and ParseDecimal
      are mutually inverse between naturals and canonical numerals. */
  lemma ParseDecimalRoundTrip(s: seq<byte>, n: nat)
    ensures ParseDecimal(s) == Some(n) <==> s == Decimal(n)
  {
    if ParseDecimal(s) == Some(n) {
      DecimalOfValue(s);
    }
    if s == Decimal(n) {
      DecimalRoundTrip(n);
    }
  }
}
