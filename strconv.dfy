/**
 * Decimal conversion as Go's `strconv.Itoa` and `strconv.Atoi` perform it on
 * a 64-bit platform, where `int` is a 64-bit two's-complement integer.
 */
module Strconv {
  import opened Strings

  const MaxInt: int := 0x7FFF_FFFF_FFFF_FFFF
  const MinInt: int := -0x8000_0000_0000_0000

  function DigitValue(c: char): (d: nat)
    requires IsDigit(c)
    ensures d < 10
  {
    (c as int) - ('0' as int)
  }

  function DigitChar(d: nat): (c: char)
    requires d < 10
    ensures IsDigit(c) && DigitValue(c) == d
  {
    ('0' as int + d) as char
  }

  /** The number a non-empty run of decimal digits denotes (leading zeros allowed). */
  function DigitsValue(s: string): nat
    requires All(s, IsDigit)
  {
    if s == [] then 0 else DigitsValue(s[..|s| - 1]) * 10 + DigitValue(s[|s| - 1])
  }

  /** The decimal digits of `n`, most significant first, without leading zeros. */
  function Digits(n: nat): (s: string)
    ensures s != [] && All(s, IsDigit) && DigitsValue(s) == n
    ensures s[0] == '0' ==> s == "0"
  {
    if n < 10 then [DigitChar(n)]
    else
      var s := Digits(n / 10) + [DigitChar(n % 10)];
      assert s[..|s| - 1] == Digits(n / 10);
      s
  }

  /** `strconv.Itoa`: optional minus sign, then the digits of the magnitude. */
  function Itoa(n: int): string {
    if n < 0 then "-" + Digits(-n) else Digits(n)
  }

  /** The largest value `strconv.ParseUint` accepts for 64 bits. */
  const MaxUint64: int := 0xFFFF_FFFF_FFFF_FFFF

  /**
   * What `strconv.Atoi` returns: the value together with whether the error
   * is nil. A syntax error gives 0; an out-of-range number gives the nearest
   * 64-bit bound (the clamped value of `strconv.ParseInt`).
   */
  datatype Parsed = Parsed(value: int, ok: bool)

  /**
   * `strconv.Atoi`: an optional `+` or `-`, then one or more ASCII digits,
   * within 64 bits. The unsigned scan stops with a range error at the digit
   * that overflows 64 bits, before it would reach a later non-digit; a
   * non-digit met before any overflow is a syntax error.
   */
  function Atoi(s: string): (p: Parsed)
    ensures MinInt <= p.value <= MaxInt
    ensures !p.ok ==> p.value in {0, MinInt, MaxInt}
    ensures p.ok ==> s != [] && (s[0] == '-' || s[0] == '+' || IsDigit(s[0]))
  {
    if s == [] then Parsed(0, false)
    else
      var negative := s[0] == '-';
      var body := if s[0] == '+' || s[0] == '-' then s[1..] else s;
      var k := CountWhile(body, IsDigit);
      var magnitude: int := DigitsValue(body[..k]);
      if body == [] then Parsed(0, false)
      else if magnitude > MaxUint64 then Parsed(if negative then MinInt else MaxInt, false)
      else if k < |body| then Parsed(0, false)
      else
        var v: int := if negative then -magnitude else magnitude;
        if v > MaxInt then Parsed(MaxInt, false)
        else if v < MinInt then Parsed(MinInt, false)
        else Parsed(v, true)
  }

  /** A string made only of digits is scanned to its end. */
  lemma DigitsScanned(d: string)
    requires All(d, IsDigit)
    ensures CountWhile(d, IsDigit) == |d| && d[..|d|] == d
  {
  }

  /** Atoi reads back exactly what Itoa writes, for every 64-bit integer. */
  lemma AtoiItoa(n: int)
    requires MinInt <= n <= MaxInt
    ensures Atoi(Itoa(n)) == Parsed(n, true)
  {
    if n < 0 {
      assert Itoa(n)[1..] == Digits(-n);
      DigitsScanned(Digits(-n));
    } else {
      DigitsScanned(Digits(n));
    }
  }

  /** On an unsigned run of digits Atoi gives its value, or MaxInt with an error when it overflows. */
  lemma AtoiDigits(d: string)
    requires d != [] && All(d, IsDigit)
    ensures Atoi(d) == if DigitsValue(d) <= MaxInt then Parsed(DigitsValue(d), true) else Parsed(MaxInt, false)
  {
    DigitsScanned(d);
  }

  /** A prefix of a digit run denotes at most what the whole run does. */
  lemma {:induction false} DigitsPrefixBound(s: string, j: nat)
    requires All(s, IsDigit) && j <= |s|
    ensures All(s[..j], IsDigit) && DigitsValue(s[..j]) <= DigitsValue(s)
  {
    if j < |s| {
      var init := s[..|s| - 1];
      assert init[..j] == s[..j];
      DigitsPrefixBound(init, j);
    } else {
      assert s[..j] == s;
    }
  }

  /** The scan for digits covers a leading run of digits, which it leaves as it was. */
  lemma DigitRunScanned(d: string, rest: string)
    requires All(d, IsDigit)
    ensures |d| <= CountWhile(d + rest, IsDigit) && (d + rest)[..|d|] == d
    ensures rest != [] && !IsDigit(rest[0]) ==> CountWhile(d + rest, IsDigit) == |d|
  {
    var s := d + rest;
    assert forall i :: 0 <= i < |d| ==> s[i] == d[i];
    if rest != [] {
      assert s[|d|] == rest[0];
    }
  }

  /** Digits overflowing 64 unsigned bits give the range error whatever follows them. */
  lemma AtoiOverflowFirst(d: string, rest: string)
    requires d != [] && All(d, IsDigit) && DigitsValue(d) > MaxUint64
    ensures Atoi(d + rest) == Parsed(MaxInt, false)
  {
    var s := d + rest;
    assert s[0] == d[0];
    DigitRunScanned(d, rest);
    var k := CountWhile(s, IsDigit);
    assert s[..k][..|d|] == d;
    DigitsPrefixBound(s[..k], |d|);
  }

  /** A non-digit after digits that fit in 64 unsigned bits is a syntax error. */
  lemma AtoiSyntaxError(d: string, c: char, rest: string)
    requires d != [] && All(d, IsDigit) && DigitsValue(d) <= MaxUint64 && !IsDigit(c)
    ensures Atoi(d + [c] + rest) == Parsed(0, false)
  {
    var tail := [c] + rest;
    assert d + [c] + rest == d + tail;
    DigitRunScanned(d, tail);
    assert (d + tail)[0] == d[0];
  }

  /** Distinct 64-bit integers have distinct decimal renderings. */
  lemma ItoaInjective(a: int, b: int)
    requires MinInt <= a <= MaxInt && MinInt <= b <= MaxInt
    requires Itoa(a) == Itoa(b)
    ensures a == b
  {
    AtoiItoa(a);
    AtoiItoa(b);
  }
}
