/**
 * The text side of `checkNumber`: the transcript is trimmed of white space
 * and new lines, lower-cased, and accepted when it reads as the target
 * either as a whole decimal integer or through the spelled-out parser.
 */
module Transcript {
  import opened Wrappers
  import opened SwiftInt

  /**
   * Membership in Foundation's `CharacterSet.whitespacesAndNewlines`: the
   * Unicode space, line and paragraph separators, tab, U+000A to U+000D and
   * U+0085.
   */
  predicate IsWhitespaceOrNewline(c: char) {
    || c == '\t' || ('\n' <= c <= '\r') || c == ' '
    || c == '\U{85}' || c == '\U{A0}' || c == '\U{1680}'
    || ('\U{2000}' <= c <= '\U{200A}')
    || c == '\U{2028}' || c == '\U{2029}' || c == '\U{202F}' || c == '\U{205F}'
    || c == '\U{3000}'
  }

  predicate AllWhitespace(s: string) {
    forall i :: 0 <= i < |s| ==> IsWhitespaceOrNewline(s[i])
  }

  /** The number of white-space characters that open `s`. */
  function LeadingSpace(s: string): (k: nat)
    ensures k <= |s|
    ensures forall i :: 0 <= i < k ==> IsWhitespaceOrNewline(s[i])
    ensures k < |s| ==> !IsWhitespaceOrNewline(s[k])
  {
    if s == [] || !IsWhitespaceOrNewline(s[0]) then 0 else 1 + LeadingSpace(s[1..])
  }

  /** The number of white-space characters that close `s`. */
  function TrailingSpace(s: string): (k: nat)
    ensures k <= |s|
    ensures forall i :: |s| - k <= i < |s| ==> IsWhitespaceOrNewline(s[i])
    ensures k < |s| ==> !IsWhitespaceOrNewline(s[|s| - 1 - k])
  {
    if s == [] || !IsWhitespaceOrNewline(s[|s| - 1]) then 0 else 1 + TrailingSpace(s[..|s| - 1])
  }

  /** `trimmingCharacters(in: .whitespacesAndNewlines)`. */
  function Trim(s: string): (r: string)
    ensures |r| <= |s|
    ensures r == [] <==> AllWhitespace(s)
    ensures r != [] ==> !IsWhitespaceOrNewline(r[0]) && !IsWhitespaceOrNewline(r[|r| - 1])
  {
    var t := s[LeadingSpace(s)..];
    var r := t[..|t| - TrailingSpace(t)];
    assert r == [] ==> LeadingSpace(s) == |s|;
    r
  }

  predicate IsCapital(c: char) {
    'A' <= c <= 'Z'
  }

  predicate NoCapital(s: string) {
    forall i :: 0 <= i < |s| ==> !IsCapital(s[i])
  }

  /** `a` and `b` are the same character up to ASCII case. */
  predicate SameUpToCase(a: char, b: char) {
    || a == b
    || (IsCapital(a) && b as int == a as int + 32)
    || (IsCapital(b) && a as int == b as int + 32)
  }

  predicate EqualUpToCase(s: string, t: string) {
    |s| == |t| && forall i :: 0 <= i < |s| ==> SameUpToCase(s[i], t[i])
  }

  /** `lowercased()` on the ASCII letters: a capital becomes its small letter, any other character is kept. */
  function LowerChar(c: char): (d: char)
    ensures IsCapital(c) ==> d == (c as int + 32) as char
    ensures !IsCapital(c) ==> d == c
    ensures !IsCapital(d) && SameUpToCase(d, c)
  {
    if 'A' <= c <= 'Z' then (c as int - 'A' as int + 'a' as int) as char else c
  }

  /**
   * `lowercased()` on a text: the result has no capital, equals the text up
   * to case, and a text without capitals comes back unchanged.
   */
  function Lowercased(s: string): (r: string)
    ensures NoCapital(r) && EqualUpToCase(r, s)
    ensures NoCapital(s) ==> r == s
  {
    seq(|s|, i requires 0 <= i < |s| => LowerChar(s[i]))
  }

  /** The text `checkNumber` actually compares: trimmed, then lower-cased. */
  function Cleaned(spokenText: string): (r: string)
    ensures |r| <= |spokenText| && NoCapital(r)
    ensures r == [] <==> AllWhitespace(spokenText)
    ensures r != [] ==> !IsWhitespaceOrNewline(r[0]) && !IsWhitespaceOrNewline(r[|r| - 1])
  {
    var t := Trim(spokenText);
    var r := Lowercased(t);
    assert r != [] ==> SameUpToCase(r[0], t[0]) && SameUpToCase(r[|r| - 1], t[|t| - 1]);
    r
  }

  /**
   * Whether `checkNumber` calls `handleMatch` for `spokenText` while `target`
   * is current. `spelledOut` stands for `NumberFormatter`'s spell-out parse
   * (en-US) followed by `intValue`.
   */
  predicate Matches(spokenText: string, target: int, spelledOut: string -> Option<int>)
    ensures Matches(spokenText, target, spelledOut) && spelledOut(Cleaned(spokenText)) != Some(target) ==>
      && !AllWhitespace(spokenText) && IntMin <= target <= IntMax
      && AllDigits(Magnitude(Cleaned(spokenText)))
  {
    var cleaned := Cleaned(spokenText);
    ParseInt(cleaned) == Some(target) || spelledOut(cleaned) == Some(target)
  }

  /** Trimming removes exactly the white space around a word. */
  lemma TrimPadded(pre: string, word: string, post: string)
    requires AllWhitespace(pre) && AllWhitespace(post)
    requires word != [] ==> !IsWhitespaceOrNewline(word[0]) && !IsWhitespaceOrNewline(word[|word| - 1])
    ensures Trim(pre + word + post) == word
  {
    var s := pre + word + post;
    if word == [] {
      assert s == pre + post;
      assert AllWhitespace(s) by {
        forall i | 0 <= i < |s| ensures IsWhitespaceOrNewline(s[i]) {
          if i >= |pre| { assert s[i] == post[i - |pre|]; }
        }
      }
    } else {
      var a := LeadingSpace(s);
      assert s[|pre|] == word[0];
      assert a == |pre|;
      var t := s[a..];
      assert t == word + post;
      var b := TrailingSpace(t);
      assert t[|word| - 1] == word[|word| - 1];
      assert b == |post|;
      assert t[..|t| - b] == word;
    }
  }

  /** A word of lower-case ASCII letters is already clean. */
  lemma CleanedLowercaseWord(w: string)
    requires forall i :: 0 <= i < |w| ==> 'a' <= w[i] <= 'z'
    ensures Cleaned(w) == w
  {
    if w != [] {
      assert !IsWhitespaceOrNewline(w[0]) && !IsWhitespaceOrNewline(w[|w| - 1]);
    }
    CleanedUnchanged(w);
  }

  /** A text with no capital and no white space at either end is already clean. */
  lemma CleanedUnchanged(w: string)
    requires NoCapital(w)
    requires w != [] ==> !IsWhitespaceOrNewline(w[0]) && !IsWhitespaceOrNewline(w[|w| - 1])
    ensures Cleaned(w) == w
  {
    TrimPadded("", w, "");
    assert "" + w + "" == w;
  }

  lemma CleanedZeroAndOne()
    ensures Cleaned("zero") == "zero" && Cleaned("one") == "one"
  {
    assert Cleaned("zero") == "zero" by { CleanedLowercaseWord("zero"); }
    assert Cleaned("one") == "one" by { CleanedLowercaseWord("one"); }
  }

  lemma LowercasedDigits(s: string)
    requires AllDigits(s)
    ensures Lowercased(s) == s
  {
  }

  /**
   * The digits of the target, with any white space around them, always match
   * (whatever the spelled-out parser says): the integer path accepts them.
   */
  lemma DigitsMatch(n: nat, pre: string, post: string, spelledOut: string -> Option<int>)
    requires n <= IntMax
    requires AllWhitespace(pre) && AllWhitespace(post)
    ensures Cleaned(pre + DecimalString(n) + post) == DecimalString(n)
    ensures Matches(pre + DecimalString(n) + post, n, spelledOut)
  {
    var d := DecimalString(n);
    TrimPadded(pre, d, post);
    LowercasedDigits(d);
    ParseDecimalString(n);
  }

  /**
   * The digits of one number match another target only if the spelled-out
   * parser itself reads them as that target.
   */
  lemma DigitsMatchOnlyTheirValue(n: nat, target: int, spelledOut: string -> Option<int>)
    requires n <= IntMax
    requires Matches(DecimalString(n), target, spelledOut)
    ensures target == n || spelledOut(DecimalString(n)) == Some(target)
  {
    CleanedDigits(n);
    ParseDecimalString(n);
  }

  /** The decimal digits of a number are already clean, and match it. */
  lemma CleanedDigits(n: nat)
    requires n <= IntMax
    ensures Cleaned(DecimalString(n)) == DecimalString(n)
    ensures ParseInt(Cleaned(DecimalString(n))) == Some(n)
  {
    ParseDecimalString(n);
    var d := DecimalString(n);
    assert NoCapital(d);
    CleanedUnchanged(d);
  }

  /**
   * A number followed by a further word ("42 dollars") fails the integer
   * parse, so it can match only through the spelled-out parser.
   */
  lemma TrailingWordDefeatsDigits(n: nat, word: string, target: int, spelledOut: string -> Option<int>)
    requires word != [] && !IsWhitespaceOrNewline(word[|word| - 1])
    ensures ParseInt(Cleaned(DecimalString(n) + " " + word)) == None
    ensures Matches(DecimalString(n) + " " + word, target, spelledOut)
        <==> spelledOut(Cleaned(DecimalString(n) + " " + word)) == Some(target)
  {
    var d := DecimalString(n);
    var s := d + " " + word;
    assert s[0] == d[0] && s[|s| - 1] == word[|word| - 1];
    assert Trim(s) == s by {
      TrimPadded("", s, "");
      assert "" + s + "" == s;
    }
    var c := Lowercased(s);
    assert SameUpToCase(c[|d|], s[|d|]);
    ParseRejectsStrayCharacter(c, |d|);
  }

  /**
   * A transcript of white space only cleans to the empty text, which the
   * integer parse rejects; it matches only if the spelled-out parser reads
   * the empty text as the target (`NumberFormatter` returns nil for it).
   */
  lemma BlankNeverMatchesDigits(spokenText: string, target: int, spelledOut: string -> Option<int>)
    requires AllWhitespace(spokenText)
    ensures Cleaned(spokenText) == ""
    ensures Matches(spokenText, target, spelledOut) <==> spelledOut("") == Some(target)
  {
  }

  /** White space is white space in either case: case changes only letters. */
  lemma SpaceUpToCase(s: string, t: string)
    requires EqualUpToCase(s, t)
    ensures LeadingSpace(s) == LeadingSpace(t)
    ensures TrailingSpace(s) == TrailingSpace(t)
  {
    forall i | 0 <= i < |s| ensures IsWhitespaceOrNewline(s[i]) <==> IsWhitespaceOrNewline(t[i]) {
      assert SameUpToCase(s[i], t[i]);
    }
  }

  /** Trimming cuts texts that agree up to case at the same places. */
  lemma TrimUpToCase(s: string, t: string)
    requires EqualUpToCase(s, t)
    ensures EqualUpToCase(Trim(s), Trim(t))
  {
    SpaceUpToCase(s, t);
    var a := LeadingSpace(s);
    var s1, t1 := s[a..], t[a..];
    assert EqualUpToCase(s1, t1) by {
      forall i | 0 <= i < |s1| ensures SameUpToCase(s1[i], t1[i]) {
        assert s1[i] == s[a + i] && t1[i] == t[a + i];
      }
    }
    SpaceUpToCase(s1, t1);
  }

  /** Lower-casing maps texts that agree up to case to the same text. */
  lemma LowercasedUpToCase(s: string, t: string)
    requires EqualUpToCase(s, t)
    ensures Lowercased(s) == Lowercased(t)
  {
    var x, y := Lowercased(s), Lowercased(t);
    forall i | 0 <= i < |x| ensures x[i] == y[i] {
      assert SameUpToCase(s[i], t[i]);
      assert x[i] == LowerChar(s[i]) && y[i] == LowerChar(t[i]);
    }
  }

  /**
   * Transcripts that differ only in ASCII case ("Forty two", "forty two")
   * clean to the same text, so they match the same targets.
   */
  lemma CleanedIgnoresCase(s: string, t: string, target: int, spelledOut: string -> Option<int>)
    requires EqualUpToCase(s, t)
    ensures Cleaned(s) == Cleaned(t)
    ensures Matches(s, target, spelledOut) <==> Matches(t, target, spelledOut)
  {
    TrimUpToCase(s, t);
    LowercasedUpToCase(Trim(s), Trim(t));
  }
}
