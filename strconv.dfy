/** Decimal formatting of identifiers, as `strconv.Itoa` does it for the
    non-negative numbers the registry hands it, together with the parser that
    inverts it. The registry only ever formats `len(database) + 1`, so the
    argument is a `nat`. */
module Strconv {

  predicate IsDigit(c: char) {
    '0' <= c <= '9'
  }

  predicate AllDigits(s: string) {
    forall i :: 0 <= i < |s| ==> IsDigit(s[i])
  }

  /** The shape of every string Itoa produces: at least one digit, and no
      leading zero unless the number is zero itself. */
  predicate IsCanonical(s: string) {
    |s| >= 1 && AllDigits(s) && (s[0] == '0' ==> |s| == 1)
  }

  function DigitValue(c: char): (d: nat)
    requires IsDigit(c)
    ensures d < 10
  {
    c as int - '0' as int
  }

  function DigitChar(d: nat): (c: char)
    requires d < 10
    ensures IsDigit(c) && DigitValue(c) == d
  {
    ('0' as int + d) as char
  }

  /** The decimal representation of `n`, most significant digit first. */
  function Itoa(n: nat): (s: string)
    ensures IsCanonical(s)
    ensures n < 10 <==> |s| == 1
  {
    if n < 10 then [DigitChar(n)] else Itoa(n / 10) + [DigitChar(n % 10)]
  }

  /** The value of a string of decimal digits, the empty string counting as
      zero. A specification device only: unlike Go's `strconv.Atoi` it takes
      no sign and rejects nothing. */
  function DecimalValue(s: string): nat
    requires AllDigits(s)
  {
    if s == [] then 0 else 10 * DecimalValue(s[..|s| - 1]) + DigitValue(s[|s| - 1])
  }

  /** Parsing undoes formatting. */
  lemma {:induction false} ValueOfItoa(n: nat)
    ensures DecimalValue(Itoa(n)) == n
  {
    if n >= 10 {
      var s := Itoa(n);
      assert s[..|s| - 1] == Itoa(n / 10);
      ValueOfItoa(n / 10);
    }
  }

  /** A canonical string with a non-zero leading digit denotes a positive number. */
  lemma {:induction false} ValuePositive(s: string)
    requires IsCanonical(s) && s[0] != '0'
    ensures DecimalValue(s) >= 1
  {
    if |s| > 1 {
      ValuePositive(s[..|s| - 1]);
    }
  }

  /** Formatting undoes parsing on canonical strings, so Itoa is a bijection
      between the naturals and the canonical decimal strings. */
  lemma {:induction false} ItoaOfValue(s: string)
    requires IsCanonical(s)
    ensures Itoa(DecimalValue(s)) == s
  {
    var last := s[|s| - 1];
    assert DigitChar(DigitValue(last)) == last;
    if |s| > 1 {
      var p := s[..|s| - 1];
      ValuePositive(p);
      ItoaOfValue(p);
      assert s == p + [last];
    }
  }

  /** Different numbers get different identifiers. */
  lemma ItoaInjective(m: nat, n: nat)
    ensures Itoa(m) == Itoa(n) ==> m == n
  {
    ValueOfItoa(m);
    ValueOfItoa(n);
  }

  /** The identifiers of the `count` consecutive numbers starting at `lo`. */
  function DecimalRange(lo: nat, count: nat): set<string>
  {
    set m | lo <= m < lo + count :: Itoa(m)
  }

  lemma DecimalRangeStep(lo: nat, count: nat)
    ensures DecimalRange(lo, count + 1) == DecimalRange(lo, count) + {Itoa(lo + count)}
  {
  }

  lemma DecimalRangeExcludes(lo: nat, count: nat, n: nat)
    requires n < lo || lo + count <= n
    ensures Itoa(n) !in DecimalRange(lo, count)
  {
    if Itoa(n) in DecimalRange(lo, count) {
      var m :| lo <= m < lo + count && Itoa(n) == Itoa(m);
      ItoaInjective(m, n);
    }
  }

  /** There are exactly `count` of them, because Itoa is injective. */
  lemma {:induction false} DecimalRangeSize(lo: nat, count: nat)
    ensures |DecimalRange(lo, count)| == count
  {
    if count > 0 {
      DecimalRangeStep(lo, count - 1);
      DecimalRangeExcludes(lo, count - 1, lo + count - 1);
      DecimalRangeSize(lo, count - 1);
    }
  }
}
