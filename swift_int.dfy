/**
 * Swift's decimal `Int(String)` initializer and `String(Int)` for the
 * non-negative values the learner is shown, on a 64-bit platform.
 */
module SwiftInt {
  import opened Wrappers

  /** Bounds of Swift's 64-bit `Int`. */
  const IntMin: int := -0x8000_0000_0000_0000
  const IntMax: int := 0x7FFF_FFFF_FFFF_FFFF

  predicate IsDigit(c: char) {
    '0' <= c <= '9'
  }

  predicate AllDigits(s: string) {
    forall i :: 0 <= i < |s| ==> IsDigit(s[i])
  }

  function DigitValue(c: char): (d: nat)
    requires IsDigit(c)
    ensures d < 10
  {
    c as int - '0' as int
  }

  function DigitChar(d: nat): (c: char)
    requires d < 10
    ensures IsDigit(c) && DigitValue(c) == d
  {
    ('0' as int + d) as char
  }

  /** The value of a run of decimal digits, most significant digit first. */
  function DigitsValue(s: string): nat
    requires AllDigits(s)
  {
    if s == [] then 0 else DigitsValue(s[..|s| - 1]) * 10 + DigitValue(s[|s| - 1])
  }

  /** What is left of `s` after one optional leading sign. */
  function Magnitude(s: string): string {
    if |s| > 0 && (s[0] == '+' || s[0] == '-') then s[1..] else s
  }

  /**
   * `Int(s)`: an optional `+` or `-`, then one or more ASCII digits and
   * nothing else; a value outside the 64-bit range gives `nil`.
   */
  function ParseInt(s: string): (r: Option<int>)
    ensures r.Some? ==> |Magnitude(s)| > 0 && AllDigits(Magnitude(s))
    ensures r.Some? ==> IntMin <= r.value <= IntMax
    ensures r.Some? && s[0] != '-' ==> r.value >= 0
  {
    var m := Magnitude(s);
    if m == [] || !AllDigits(m) then None
    else
      var v: int := if s[0] == '-' then -(DigitsValue(m) as int) else DigitsValue(m);
      if IntMin <= v <= IntMax then Some(v) else None
  }

  /** `String(n)` for a non-negative `n`: its decimal digits, without leading zeros. */
  function DecimalString(n: nat): (r: string)
    ensures |r| > 0 && AllDigits(r) && DigitsValue(r) == n
    ensures r[0] == '0' ==> r == "0"
  {
    if n < 10 then [DigitChar(n)]
    else
      var p := DecimalString(n / 10);
      var r := p + [DigitChar(n % 10)];
      assert r[..|r| - 1] == p;
      r
  }

  /** Parsing what `String(n)` prints gives `n` back. */
  lemma ParseDecimalString(n: nat)
    requires n <= IntMax
    ensures ParseInt(DecimalString(n)) == Some(n)
    ensures ParseInt("+" + DecimalString(n)) == Some(n)
    ensures ParseInt("-" + DecimalString(n)) == Some(-(n as int))
  {
    var d := DecimalString(n);
    assert Magnitude(d) == d;
    assert Magnitude("+" + d) == d;
    assert Magnitude("-" + d) == d;
  }

  /** A character that is neither a digit nor a leading sign makes the whole parse fail. */
  lemma ParseRejectsStrayCharacter(s: string, k: nat)
    requires k < |s| && !IsDigit(s[k])
    requires k > 0 || (s[k] != '+' && s[k] != '-')
    ensures ParseInt(s) == None
  {
    var m := Magnitude(s);
    if |s| > 0 && (s[0] == '+' || s[0] == '-') {
      assert m[k - 1] == s[k];
    } else {
      assert m[k] == s[k];
    }
  }

  /** A run of `k` zero digits. */
  function Zeros(k: nat): (r: string)
    ensures |r| == k && AllDigits(r) && DigitsValue(r) == 0
  {
    if k == 0 then []
    else
      var r := Zeros(k - 1) + ['0'];
      assert r[..|r| - 1] == Zeros(k - 1);
      r
  }

  /** Zeros in front of a run of digits do not change its value. */
  lemma {:induction false} DigitsValueZeroPrefix(k: nat, d: string)
    requires AllDigits(d)
    ensures AllDigits(Zeros(k) + d) && DigitsValue(Zeros(k) + d) == DigitsValue(d)
    decreases |d|
  {
    var z := Zeros(k);
    if d == [] {
      assert z + d == z;
    } else {
      var p := d[..|d| - 1];
      DigitsValueZeroPrefix(k, p);
      assert (z + d)[..|z + d| - 1] == z + p;
    }
  }

  /**
   * Any run of digits, leading zeros included, parses as its value when that
   * fits in 64 bits and gives `nil` otherwise; a `+` changes nothing, and
   * after a `-` the range reaches one further, to `IntMin`.
   */
  lemma ParseDigits(s: string)
    requires |s| > 0 && AllDigits(s)
    ensures ParseInt(s) == ParseInt("+" + s)
    ensures ParseInt(s) == if DigitsValue(s) <= IntMax then Some(DigitsValue(s) as int) else None
    ensures ParseInt("-" + s) == if DigitsValue(s) <= IntMax + 1 then Some(-(DigitsValue(s) as int)) else None
  {
    assert IsDigit(s[0]);
    assert Magnitude(s) == s;
    assert Magnitude("+" + s) == s;
    assert Magnitude("-" + s) == s;
  }

  /** Leading zeros still parse, to the same value: `Int("007")` and `Int("+007")` are 7. */
  lemma ParseLeadingZeros(k: nat, n: nat)
    requires n <= IntMax
    ensures ParseInt(Zeros(k) + DecimalString(n)) == Some(n)
    ensures ParseInt("+" + (Zeros(k) + DecimalString(n))) == Some(n)
    ensures ParseInt("-" + (Zeros(k) + DecimalString(n))) == Some(-(n as int))
  {
    DigitsValueZeroPrefix(k, DecimalString(n));
    ParseDigits(Zeros(k) + DecimalString(n));
  }

  /**
   * Digits whose value does not fit in 64 bits give `nil`, with or without a
   * sign and with or without leading zeros; a minus sign reaches one
   * further, to `IntMin`.
   */
  lemma ParseOutOfRange(k: nat, n: nat)
    requires n > IntMax
    ensures ParseInt(Zeros(k) + DecimalString(n)) == None
    ensures ParseInt("+" + (Zeros(k) + DecimalString(n))) == None
    ensures n == IntMax + 1 ==> ParseInt("-" + (Zeros(k) + DecimalString(n))) == Some(IntMin)
    ensures n > IntMax + 1 ==> ParseInt("-" + (Zeros(k) + DecimalString(n))) == None
  {
    DigitsValueZeroPrefix(k, DecimalString(n));
    ParseDigits(Zeros(k) + DecimalString(n));
  }
}
