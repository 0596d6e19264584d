/**
 * The ordered targets 0 to 100 and the cursor over them, as values: the
 * specification that the view model's `numbers` array and `currentIndex`
 * follow.
 */
module TargetSequence {
  import opened Wrappers
  import SwiftInt
  import ChineseNumerals
  import Transcript

  /** One target: its value, its two labels and its two display flags. */
  datatype NumberData = NumberData(number: int, english: string, chinese: string, isCompleted: bool, isActive: bool)

  /** `(0...100)` has 101 values. */
  const Count: nat := 101

  /** The item `setupNumbers` builds for `num`, before item 0 is activated. */
  function MakeItem(num: int): (r: NumberData)
    requires 0 <= num < Count
    ensures r.number == num && !r.isCompleted && !r.isActive
    ensures SwiftInt.ParseInt(r.english) == Some(num)
    ensures ChineseNumerals.ReadChineseNumeral(r.chinese) == Some(num)
  {
    SwiftInt.ParseDecimalString(num);
    ChineseNumerals.ReadChineseNumeralInverse(num);
    NumberData(num, SwiftInt.DecimalString(num), ChineseNumerals.ChineseNumeral(num), false, false)
  }

  /** The 101 items `setupNumbers` leaves in `numbers`. */
  function InitialNumbers(): (r: seq<NumberData>)
    ensures |r| == Count
    ensures forall i :: 0 <= i < |r| ==>
      r[i].number == i && !r[i].isCompleted && (r[i].isActive <==> i == 0)
  {
    var items := seq(Count, i requires 0 <= i < Count => MakeItem(i));
    items[0 := items[0].(isActive := true)]
  }

  /** The items together with the cursor `currentIndex`. */
  datatype Sequence = Sequence(numbers: seq<NumberData>, currentIndex: int)

  function Initial(): Sequence {
    Sequence(InitialNumbers(), 0)
  }

  /** Item i holds the value i and the labels for it. */
  predicate Labelled(numbers: seq<NumberData>) {
    && |numbers| == Count
    && forall i :: 0 <= i < |numbers| ==>
         && numbers[i].number == i
         && numbers[i].english == SwiftInt.DecimalString(i)
         && numbers[i].chinese == ChineseNumerals.ChineseNumeral(i)
  }

  /**
   * The invariant: the cursor is in range, everything before it is done,
   * everything after it is untouched, and the item at the cursor is active
   * exactly while it is not yet completed, which it can only be at the end.
   */
  predicate Valid(s: Sequence) {
    && Labelled(s.numbers)
    && 0 <= s.currentIndex < |s.numbers|
    && (forall i :: 0 <= i < s.currentIndex ==> s.numbers[i].isCompleted && !s.numbers[i].isActive)
    && (forall i :: s.currentIndex < i < |s.numbers| ==> !s.numbers[i].isCompleted && !s.numbers[i].isActive)
    && (s.numbers[s.currentIndex].isActive <==> !s.numbers[s.currentIndex].isCompleted)
    && (s.numbers[s.currentIndex].isCompleted ==> s.currentIndex == |s.numbers| - 1)
  }

  /** The value the learner has to say next. */
  function Target(s: Sequence): int
    requires 0 <= s.currentIndex < |s.numbers|
  {
    s.numbers[s.currentIndex].number
  }

  /** The cursor is on the last item and that item is completed. */
  predicate Exhausted(s: Sequence)
    requires 0 <= s.currentIndex < |s.numbers|
  {
    s.currentIndex == |s.numbers| - 1 && s.numbers[s.currentIndex].isCompleted
  }

  /**
   * `handleMatch`: the current item becomes completed and inactive; unless it
   * is the last one, the cursor moves to the next item and activates it.
   */
  function Advance(s: Sequence): (t: Sequence)
    requires 0 <= s.currentIndex < |s.numbers|
    ensures |t.numbers| == |s.numbers|
    ensures t.numbers[s.currentIndex] == s.numbers[s.currentIndex].(isCompleted := true, isActive := false)
    ensures s.currentIndex < |s.numbers| - 1 ==>
      t.currentIndex == s.currentIndex + 1 && t.numbers[t.currentIndex] == s.numbers[t.currentIndex].(isActive := true)
    ensures s.currentIndex == |s.numbers| - 1 ==> t.currentIndex == s.currentIndex
    ensures forall i :: 0 <= i < |s.numbers| && i != s.currentIndex && i != t.currentIndex ==>
      t.numbers[i] == s.numbers[i]
  {
    var c := s.currentIndex;
    var done := s.numbers[c := s.numbers[c].(isCompleted := true, isActive := false)];
    if c < |s.numbers| - 1 then Sequence(done[c + 1 := done[c + 1].(isActive := true)], c + 1)
    else Sequence(done, c)
  }

  /** `checkNumber`: advance exactly when the transcript matches the current target. */
  function CheckNumber(s: Sequence, spokenText: string, spelledOut: string -> Option<int>): (t: Sequence)
    requires 0 <= s.currentIndex < |s.numbers|
    ensures |t.numbers| == |s.numbers|
    ensures Valid(s) ==> Valid(t) && s.currentIndex <= t.currentIndex <= s.currentIndex + 1
    ensures t != s ==> Transcript.Matches(spokenText, Target(s), spelledOut)
    ensures Transcript.Matches(spokenText, Target(s), spelledOut) ==> t.numbers[s.currentIndex].isCompleted
  {
    if Transcript.Matches(spokenText, Target(s), spelledOut) then
      var t := Advance(s);
      assert Valid(s) ==> Valid(t) by {
        if Valid(s) { AdvancePreservesValid(s); }
      }
      t
    else s
  }

  /** A transcript delivery: an empty transcript is not checked. */
  function OnTranscript(s: Sequence, transcription: string, spelledOut: string -> Option<int>): (t: Sequence)
    requires 0 <= s.currentIndex < |s.numbers|
    ensures transcription == [] ==> t == s
    ensures Valid(s) ==> Valid(t) && s.currentIndex <= t.currentIndex <= s.currentIndex + 1
    ensures t != s ==> Transcript.Matches(transcription, Target(s), spelledOut)
  {
    if transcription == [] then s else CheckNumber(s, transcription, spelledOut)
  }

  /** The effect of a run of transcript deliveries, in arrival order. */
  function Transcribe(s: Sequence, transcriptions: seq<string>, spelledOut: string -> Option<int>): Sequence
    requires Valid(s)
    decreases |transcriptions|
  {
    if transcriptions == [] then s
    else
      var t := OnTranscript(s, transcriptions[0], spelledOut);
      Transcribe(t, transcriptions[1..], spelledOut)
  }

  // ---------------------------------------------------------------------
  // Properties

  /**
   * `setupNumbers` establishes the invariant: 101 labelled items, none
   * completed, only item 0 active, the cursor at 0.
   */
  lemma InitialIsValid()
    ensures Valid(Initial())
    ensures Target(Initial()) == 0
    ensures forall i :: 0 <= i < Count ==> (Initial().numbers[i].isActive <==> i == 0)
  {
    var s := Initial();
    forall i | 0 <= i < Count
      ensures s.numbers[i].english == SwiftInt.DecimalString(i)
      ensures s.numbers[i].chinese == ChineseNumerals.ChineseNumeral(i)
    {
    }
  }

  /** At most one item is active, and an active item sits at the cursor. */
  lemma ActiveOnlyAtCursor(s: Sequence, i: int)
    requires Valid(s) && 0 <= i < |s.numbers|
    ensures s.numbers[i].isActive <==> i == s.currentIndex && !Exhausted(s)
  {
  }

  /**
   * `handleMatch` keeps the invariant, never moves the cursor back or by more
   * than one, never resets a completed item and never changes a label.
   */
  lemma AdvancePreservesValid(s: Sequence)
    requires Valid(s)
    ensures Valid(Advance(s))
    ensures s.currentIndex <= Advance(s).currentIndex <= s.currentIndex + 1
    ensures forall i :: 0 <= i < |s.numbers| && s.numbers[i].isCompleted ==> Advance(s).numbers[i].isCompleted
    ensures Advance(s).numbers[s.currentIndex].isCompleted
  {
    var t := Advance(s);
    var c := s.currentIndex;
    forall i | 0 <= i < |t.numbers|
      ensures t.numbers[i].number == s.numbers[i].number
      ensures t.numbers[i].english == s.numbers[i].english
      ensures t.numbers[i].chinese == s.numbers[i].chinese
      ensures i < t.currentIndex ==> t.numbers[i].isCompleted && !t.numbers[i].isActive
      ensures i > t.currentIndex ==> t.numbers[i] == s.numbers[i]
    {
      if i != c && i != t.currentIndex {
        assert t.numbers[i] == s.numbers[i];
      }
    }
    assert Labelled(t.numbers);
  }

  /** Once the last item is completed, further matches change nothing. */
  lemma AdvanceExhaustedIsIdentity(s: Sequence)
    requires Valid(s) && Exhausted(s)
    ensures Advance(s) == s
  {
    var t := Advance(s);
    forall i | 0 <= i < |s.numbers| ensures t.numbers[i] == s.numbers[i] {
      if i == s.currentIndex {
        ActiveOnlyAtCursor(s, i);
      }
    }
  }

  /** Saying the current target in digits, padded by white space, advances the cursor. */
  lemma SayingTargetDigitsAdvances(s: Sequence, pre: string, post: string, spelledOut: string -> Option<int>)
    requires Valid(s)
    requires Transcript.AllWhitespace(pre) && Transcript.AllWhitespace(post)
    ensures CheckNumber(s, pre + SwiftInt.DecimalString(s.currentIndex) + post, spelledOut) == Advance(s)
  {
    Transcript.DigitsMatch(s.currentIndex, pre, post, spelledOut);
  }

  /** The current item's own English label is accepted for it. */
  lemma EnglishLabelAdvances(s: Sequence, spelledOut: string -> Option<int>)
    requires Valid(s)
    ensures OnTranscript(s, s.numbers[s.currentIndex].english, spelledOut) == Advance(s)
  {
    Transcript.CleanedDigits(s.currentIndex);
  }

  /**
   * The digits of any other number leave the sequence as it is, unless the
   * spelled-out parser reads those digits as the target.
   */
  lemma OtherDigitsIgnored(s: Sequence, n: nat, spelledOut: string -> Option<int>)
    requires Valid(s) && n != s.currentIndex && n <= SwiftInt.IntMax
    requires spelledOut(SwiftInt.DecimalString(n)) != Some(s.currentIndex)
    ensures CheckNumber(s, SwiftInt.DecimalString(n), spelledOut) == s
  {
    if Transcript.Matches(SwiftInt.DecimalString(n), Target(s), spelledOut) {
      Transcript.DigitsMatchOnlyTheirValue(n, Target(s), spelledOut);
    }
  }

  /**
   * A partial transcript that repeats the number just matched does not
   * advance a second time: the comparison is with the new target (or, at the
   * end, advancing again changes nothing).
   */
  lemma RepeatedTranscriptAbsorbed(s: Sequence, spelledOut: string -> Option<int>)
    requires Valid(s)
    requires spelledOut(SwiftInt.DecimalString(s.currentIndex)) != Some(s.currentIndex + 1)
    ensures
      var t := CheckNumber(s, SwiftInt.DecimalString(s.currentIndex), spelledOut);
      CheckNumber(t, SwiftInt.DecimalString(s.currentIndex), spelledOut) == t
  {
    Transcript.CleanedDigits(s.currentIndex);
    var t := Advance(s);
    AdvancePreservesValid(s);
    if s.currentIndex < |s.numbers| - 1 {
      OtherDigitsIgnored(t, s.currentIndex, spelledOut);
    } else {
      AdvanceExhaustedIsIdentity(t);
    }
  }

  /**
   * Over any run of transcripts the invariant holds, the cursor moves forward
   * by at most one per transcript and no completed item is reset.
   */
  lemma {:induction false} TranscribePreservesValid(s: Sequence, transcriptions: seq<string>, spelledOut: string -> Option<int>)
    requires Valid(s)
    ensures var t := Transcribe(s, transcriptions, spelledOut);
      && Valid(t)
      && s.currentIndex <= t.currentIndex <= s.currentIndex + |transcriptions|
      && forall i :: 0 <= i < |s.numbers| && s.numbers[i].isCompleted ==> t.numbers[i].isCompleted
    decreases |transcriptions|
  {
    if transcriptions != [] {
      var u := OnTranscript(s, transcriptions[0], spelledOut);
      AdvancePreservesValid(s);
      TranscribePreservesValid(u, transcriptions[1..], spelledOut);
    }
  }

  /**
   * From a sequence at its start, "zero" then "one" (read by the spelled-out
   * parser) complete items 0 and 1 and leave the cursor at 2.
   */
  lemma ZeroThenOne(s: Sequence, spelledOut: string -> Option<int>)
    requires Valid(s) && s.currentIndex == 0
    requires spelledOut("zero") == Some(0) && spelledOut("one") == Some(1)
    ensures var t := OnTranscript(OnTranscript(s, "zero", spelledOut), "one", spelledOut);
      Valid(t) && t.currentIndex == 2 && t.numbers[0].isCompleted && t.numbers[1].isCompleted
  {
    Transcript.CleanedZeroAndOne();
    SpelledTargetAdvances(s, "zero", spelledOut);
    var s1 := Advance(s);
    AdvancePreservesValid(s);
    SpelledTargetAdvances(s1, "one", spelledOut);
    AdvancePreservesValid(s1);
  }

  /** A clean word that the spelled-out parser reads as the target advances the cursor. */
  lemma SpelledTargetAdvances(s: Sequence, word: string, spelledOut: string -> Option<int>)
    requires Valid(s) && word != [] && Transcript.Cleaned(word) == word
    requires spelledOut(word) == Some(s.currentIndex)
    ensures OnTranscript(s, word, spelledOut) == Advance(s)
  {
    assert Transcript.Matches(word, Target(s), spelledOut);
  }

  /**
   * `handleMatch` defers its update to a later main-queue block, so two
   * transcript blocks queued before it both compare with the same cursor.
   * When both match, both deferred updates run: the item after the target is
   * completed without being said.
   */
  lemma QueuedRepeatAdvancesTwice(s: Sequence, text: string, spelledOut: string -> Option<int>)
    requires Valid(s) && s.currentIndex + 1 < |s.numbers|
    requires Transcript.Matches(text, Target(s), spelledOut)
    ensures CheckNumber(s, text, spelledOut) == Advance(s)
    ensures var t := Advance(Advance(s));
      && Valid(t)
      && t.numbers[s.currentIndex].isCompleted && t.numbers[s.currentIndex + 1].isCompleted
      && t.currentIndex == if s.currentIndex + 2 < |s.numbers| then s.currentIndex + 2 else s.currentIndex + 1
  {
    AdvancePreservesValid(s);
    AdvancePreservesValid(Advance(s));
  }
}
