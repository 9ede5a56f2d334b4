/** The three library string operations the handlers use: decimal rendering
    (`fmt.Sprint` of an unsigned integer), `strconv.ParseUint(s, 10, 32)`
    and the first piece of `strings.Split(s, sep)`. */
module Text {
  import opened GoTypes

  predicate IsDigit(c: char)
  {
    '0' <= c <= '9'
  }

  predicate AllDigits(s: string)
  {
    forall i :: 0 <= i < |s| ==> IsDigit(s[i])
  }

  function DigitChar(d: nat): (c: char)
    requires d < 10
    ensures IsDigit(c)
  {
    ('0' as int + d) as char
  }

  /** The number a string of decimal digits denotes, most significant digit first;
      leading zeros are allowed. */
  function DigitsValue(s: string): nat
    requires AllDigits(s)
  {
    if s == [] then 0 else DigitsValue(s[..|s| - 1]) * 10 + (s[|s| - 1] as int - '0' as int)
  }

  /** Decimal rendering of a natural number, as `fmt.Sprint` prints an unsigned
      integer: no sign, no leading zero, and a string of digits that denotes `n`. */
  function Decimal(n: nat): (s: string)
    ensures s != [] && AllDigits(s) && DigitsValue(s) == n
    ensures s[0] == '0' ==> s == "0"
  {
    if n < 10 then [DigitChar(n)]
    else
      var init := Decimal(n / 10);
      var s := init + [DigitChar(n % 10)];
      assert s[..|s| - 1] == init;
      s
  }

  /** A run of `n` zero digits. */
  function Zeros(n: nat): (z: string)
    ensures |z| == n && AllDigits(z)
  {
    seq(n, _ => '0')
  }

  /** Leading zeros do not change the value of a digit string. */
  lemma {:induction false} DigitsValueAfterZeros(z: nat, b: string)
    requires AllDigits(b)
    ensures AllDigits(Zeros(z) + b) && DigitsValue(Zeros(z) + b) == DigitsValue(b)
    decreases |b|
  {
    var s := Zeros(z) + b;
    if b == [] {
      assert s == Zeros(z);
      ZerosValue(z);
    } else {
      assert s[..|s| - 1] == Zeros(z) + b[..|b| - 1];
      DigitsValueAfterZeros(z, b[..|b| - 1]);
    }
  }

  /** A run of zeros denotes 0. */
  lemma {:induction false} ZerosValue(n: nat)
    ensures DigitsValue(Zeros(n)) == 0
  {
    if n > 0 {
      assert Zeros(n)[..n - 1] == Zeros(n - 1);
      ZerosValue(n - 1);
    }
  }

  /** A digit string that denotes 0 is all zeros. */
  lemma {:induction false} ValueZeroIsZeros(s: string)
    requires AllDigits(s) && DigitsValue(s) == 0
    ensures s == Zeros(|s|)
  {
    if s != [] {
      ValueZeroIsZeros(s[..|s| - 1]);
      assert s == s[..|s| - 1] + [s[|s| - 1]];
    }
  }

  /** Every non-empty digit string is some zeros followed by the decimal
      rendering of its value. */
  lemma {:induction false} CanonicalDigits(s: string)
    requires s != [] && AllDigits(s)
    ensures |Decimal(DigitsValue(s))| <= |s|
    ensures s == Zeros(|s| - |Decimal(DigitsValue(s))|) + Decimal(DigitsValue(s))
  {
    var init := s[..|s| - 1];
    var d := s[|s| - 1] as int - '0' as int;
    var v := DigitsValue(s);
    assert v == DigitsValue(init) * 10 + d;
    assert s == init + [s[|s| - 1]];
    assert DigitChar(d) == s[|s| - 1];
    if v < 10 {
      ValueZeroIsZeros(init);
      assert Decimal(v) == [DigitChar(v)];
    } else {
      assert v / 10 == DigitsValue(init) && v % 10 == d;
      CanonicalDigits(init);
      assert Decimal(v) == Decimal(v / 10) + [DigitChar(v % 10)];
    }
  }

  /** `strconv.ParseUint(s, 10, 32)`: succeeds exactly on a non-empty string of
      decimal digits (no sign, no prefix, no underscores) whose value fits in 32 bits.
      What it accepts is a decimal rendering, possibly after leading zeros. */
  function ParseUint32(s: string): (r: Option<uint32>)
    ensures r.Some? ==>
      (|Decimal(r.value as nat)| <= |s| && s == Zeros(|s| - |Decimal(r.value as nat)|) + Decimal(r.value as nat))
  {
    if s != [] && AllDigits(s) && DigitsValue(s) < Uint32Modulus then
      CanonicalDigits(s);
      Some(DigitsValue(s) as uint32)
    else None
  }

  /** Conversely, any number of leading zeros followed by a 32-bit value in
      decimal parses to that value. */
  lemma ParseZerosDecimal(z: nat, t: uint32)
    ensures ParseUint32(Zeros(z) + Decimal(t as nat)) == Some(t)
  {
    DigitsValueAfterZeros(z, Decimal(t as nat));
  }

  /** Every 32-bit value printed in decimal parses back to itself. */
  lemma ParseDecimal(t: uint32)
    ensures ParseUint32(Decimal(t as nat)) == Some(t)
  {
  }

  /** A decimal number above 2^32 - 1 is a range error for the 32-bit parse. */
  lemma ParseDecimalOutOfRange(v: nat)
    requires v >= Uint32Modulus
    ensures ParseUint32(Decimal(v)) == None
  {
  }

  /** A string holding a character that is not a decimal digit never parses. */
  lemma ParseRejectsNonDigit(s: string, i: nat)
    requires i < |s| && !IsDigit(s[i])
    ensures ParseUint32(s) == None
  {
  }

  /** `strings.Split(s, sep)[0]` for a non-empty separator: the text of `s` before
      the first occurrence of `sep`, or all of `s` when `sep` does not occur. */
  function BeforeFirst(s: string, sep: string): (r: string)
    requires sep != []
    ensures r <= s
    ensures forall i :: 0 <= i < |r| ==> !(sep <= s[i..])
    ensures |r| < |s| ==> sep <= s[|r|..]
  {
    if sep <= s || s == [] then []
    else
      var rest := BeforeFirst(s[1..], sep);
      assert forall i :: 1 <= i <= |rest| ==> s[i..] == s[1..][i - 1..];
      [s[0]] + rest
  }

  /** The prefix before a separator that begins with a non-digit, in a string of
      digits followed by that separator, is exactly the digits. */
  lemma {:induction false} BeforeFirstAfterDigits(d: string, sep: string, tail: string)
    requires AllDigits(d) && sep != [] && !IsDigit(sep[0])
    ensures BeforeFirst(d + sep + tail, sep) == d
  {
    var s := d + sep + tail;
    var r := BeforeFirst(s, sep);
    assert s[|d|..] == sep + tail;
    assert |r| == |d|;
    assert r == s[..|d|];
  }

  /** A string of digits contains no separator that begins with a non-digit, so the
      split leaves it whole. */
  lemma BeforeFirstDigitsOnly(d: string, sep: string)
    requires AllDigits(d) && sep != [] && !IsDigit(sep[0])
    ensures BeforeFirst(d, sep) == d
  {
  }
}
