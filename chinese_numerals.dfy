/** The Chinese label shown for each target value (`convertToChineseNumeral`). */
module ChineseNumerals {
  import opened Wrappers

  /** The numeral table: 零 (0) to 十 (10). */
  const Numerals: seq<char> := ['零', '一', '二', '三', '四', '五', '六', '七', '八', '九', '十']

  const Ten: char := '十'

  /**
   * `convertToChineseNumeral`: 0 to 10 are one numeral, 11 to 19 are 十 and
   * the ones numeral, larger values are the tens numeral, 十 and the ones
   * numeral unless it is zero. The table lookup for the tens digit is in
   * range only below 110, so 100 comes out as 十十.
   */
  function ChineseNumeral(num: int): (r: string)
    requires 0 <= num < 110
    ensures 1 <= |r| <= 3
    ensures forall i :: 0 <= i < |r| ==> r[i] in Numerals
  {
    if num == 0 then [Numerals[0]]
    else if num <= 10 then [Numerals[num]]
    else if num < 20 then [Numerals[10], Numerals[num - 10]]
    else
      var tens := num / 10;
      var ones := num % 10;
      if ones == 0 then [Numerals[tens], Numerals[10]]
      else [Numerals[tens], Numerals[10], Numerals[ones]]
  }

  /** The value of one numeral of the table. */
  function NumeralValue(c: char): (v: Option<nat>)
    ensures v.Some? ==> v.value <= 10 && Numerals[v.value] == c
  {
    if c == '零' then Some(0)
    else if c == '一' then Some(1)
    else if c == '二' then Some(2)
    else if c == '三' then Some(3)
    else if c == '四' then Some(4)
    else if c == '五' then Some(5)
    else if c == '六' then Some(6)
    else if c == '七' then Some(7)
    else if c == '八' then Some(8)
    else if c == '九' then Some(9)
    else if c == '十' then Some(10)
    else None
  }

  /** Is `c` the numeral of a digit in `lo..hi`? */
  predicate DigitIn(c: char, lo: nat, hi: nat) {
    NumeralValue(c).Some? && lo <= NumeralValue(c).value <= hi
  }

  /**
   * Reads a label back by the composition rule the labels follow: one
   * numeral; 十 and a ones digit; a tens numeral and 十; or a tens numeral,
   * 十 and a ones digit.
   */
  function ReadChineseNumeral(s: string): (r: Option<int>)
    ensures r.Some? ==> 0 <= r.value < 110
  {
    if |s| == 1 then
      match NumeralValue(s[0])
      case Some(v) => Some(v)
      case None => None
    else if |s| == 2 && s[0] == Ten && DigitIn(s[1], 1, 9) then
      Some(10 + NumeralValue(s[1]).value)
    else if |s| == 2 && s[1] == Ten && DigitIn(s[0], 2, 10) then
      Some(10 * NumeralValue(s[0]).value)
    else if |s| == 3 && s[1] == Ten && DigitIn(s[0], 2, 10) && DigitIn(s[2], 1, 9) then
      Some(10 * NumeralValue(s[0]).value + NumeralValue(s[2]).value)
    else None
  }

  lemma NumeralValueOfTable(k: nat)
    requires k <= 10
    ensures NumeralValue(Numerals[k]) == Some(k)
  {
    if k == 0 {} else if k == 1 {} else if k == 2 {} else if k == 3 {}
    else if k == 4 {} else if k == 5 {} else if k == 6 {} else if k == 7 {}
    else if k == 8 {} else if k == 9 {} else {}
  }

  /** Every label reads back as the value it was made from. */
  lemma ReadChineseNumeralInverse(num: int)
    requires 0 <= num < 110
    ensures ReadChineseNumeral(ChineseNumeral(num)) == Some(num)
  {
    NumeralValueOfTable(10);
    if num <= 10 {
      NumeralValueOfTable(num);
      assert ChineseNumeral(num) == [Numerals[num]];
    } else if num < 20 {
      NumeralValueOfTable(num - 10);
      assert ChineseNumeral(num) == [Ten, Numerals[num - 10]];
    } else {
      var tens, ones := num / 10, num % 10;
      assert 2 <= tens <= 10 && ones <= 9 && num == 10 * tens + ones;
      NumeralValueOfTable(tens);
      NumeralValueOfTable(ones);
      if ones == 0 {
        assert ChineseNumeral(num) == [Numerals[tens], Ten];
      } else {
        assert ChineseNumeral(num) == [Numerals[tens], Ten, Numerals[ones]];
      }
    }
  }

  /** No two values in range share a label. */
  lemma ChineseNumeralInjective(m: int, n: int)
    requires 0 <= m < 110 && 0 <= n < 110
    requires ChineseNumeral(m) == ChineseNumeral(n)
    ensures m == n
  {
    ReadChineseNumeralInverse(m);
    ReadChineseNumeralInverse(n);
  }

  /**
   * From 20 on, the label of `10 * tens + ones` is the tens numeral, 十, and
   * the ones numeral when the ones digit is not zero.
   */
  lemma ChineseTensAndOnes(tens: nat, ones: nat)
    requires 2 <= tens <= 10 && ones <= 9
    ensures ChineseNumeral(10 * tens + ones)
         == [Numerals[tens], Ten] + (if ones == 0 then [] else [Numerals[ones]])
  {
    assert (10 * tens + ones) / 10 == tens && (10 * tens + ones) % 10 == ones;
  }

  /** The labels the learner sees first, and the one for 100. */
  lemma ChineseSamples()
    ensures ChineseNumeral(0) == "零" && ChineseNumeral(10) == "十"
    ensures ChineseNumeral(11) == "十一" && ChineseNumeral(20) == "二十"
    ensures ChineseNumeral(23) == "二十三" && ChineseNumeral(100) == "十十"
  {
  }
}
