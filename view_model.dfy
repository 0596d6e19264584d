/**
 * `NumberLearningViewModel`: the `numbers` array and `currentIndex` it
 * advances, and the listening flags it keeps. The public methods, the
 * private methods `HandleRecognitionError`, `HandleMatch` and `CheckNumber`, and
 * the two closures (`RestartFired` for the `asyncAfter` restart,
 * `ReceiveTranscription` for the transcript block) are proved to follow the
 * value-level specification in `TargetSequence` and `ListeningSession` and
 * to keep both of their invariants. The private helpers `SetupNumbers`,
 * `Cleanup` and `StartRecording` carry frame contracts only.
 */
module NumberLearning {
  import opened Wrappers
  import TS = TargetSequence
  import LS = ListeningSession
  import Transcript

  class NumberLearningViewModel {
    var numbers: array<TS.NumberData>
    var currentIndex: int
    var isListening: bool
    var currentSpeechBuffer: string
    var errorCount: nat
    var isRecognitionActive: bool
    /** Restarts scheduled by `handleRecognitionError` that have not fired yet. */
    var pendingRestarts: nat

    /** The items and the cursor, as a value. */
    ghost function Targets(): TS.Sequence
      reads this, numbers
    {
      TS.Sequence(numbers[..], currentIndex)
    }

    /** The listening flags, as a value. */
    function Flags(): LS.Listener
      reads this
    {
      LS.Listener(isListening, isRecognitionActive, errorCount, pendingRestarts)
    }

    ghost predicate Valid()
      reads this, numbers
    {
      TS.Valid(Targets()) && LS.Invariant(Flags())
    }

    /** `init`: the flags start cleared, then `setupNumbers` builds the targets. */
    constructor ()
      ensures Valid() && fresh(numbers)
      ensures Targets() == TS.Initial()
      ensures Flags() == LS.Idle && currentSpeechBuffer == ""
    {
      numbers := new TS.NumberData[0];
      currentIndex := 0;
      isListening := false;
      currentSpeechBuffer := "";
      errorCount := 0;
      isRecognitionActive := false;
      pendingRestarts := 0;
      new;
      SetupNumbers();
      TS.InitialIsValid();
    }

    /** `setupNumbers`: item i for each value 0 to 100, then item 0 is activated. */
    method SetupNumbers()
      modifies this
      ensures fresh(numbers) && numbers[..] == TS.InitialNumbers()
      ensures currentIndex == old(currentIndex) && currentSpeechBuffer == old(currentSpeechBuffer)
      ensures Flags() == old(Flags())
    {
      var items := new TS.NumberData[TS.Count](i requires 0 <= i < TS.Count => TS.MakeItem(i));
      items[0] := items[0].(isActive := true);
      numbers := items;
    }

    /** `cleanup`, on the flags; it holds no resource of its own in this model. */
    method Cleanup()
      modifies this
      ensures Flags() == LS.Cleanup(old(Flags()))
      ensures numbers == old(numbers) && currentIndex == old(currentIndex)
      ensures currentSpeechBuffer == old(currentSpeechBuffer)
    {
      isRecognitionActive := false;
    }

    /**
     * `stopListening`: cleans up and leaves the session not listening, which
     * restores the invariant whatever the flags were before.
     */
    method StopListening()
      requires TS.Valid(Targets())
      modifies this
      ensures Valid()
      ensures Flags() == LS.StopListening(old(Flags()))
      ensures numbers == old(numbers) && currentIndex == old(currentIndex)
      ensures currentSpeechBuffer == old(currentSpeechBuffer)
    {
      Cleanup();
      isListening := false;
    }

    /**
     * `startRecording`, reduced to its effect on the flags: when the audio
     * engine starts the recognition is active, otherwise it throws (`ok` is
     * false) and nothing changes.
     */
    method StartRecording(engineStarts: bool) returns (ok: bool)
      modifies this
      ensures ok == engineStarts
      ensures Flags() == if ok then old(Flags()).(isRecognitionActive := true) else old(Flags())
      ensures numbers == old(numbers) && currentIndex == old(currentIndex)
      ensures currentSpeechBuffer == old(currentSpeechBuffer)
    {
      ok := engineStarts;
      if ok {
        isRecognitionActive := true;
      }
    }

    method StartListening(audioSessionOk: bool, engineStarts: bool)
      requires Valid()
      modifies this
      ensures Valid()
      ensures Flags() == LS.StartListening(old(Flags()), audioSessionOk, engineStarts)
      ensures numbers == old(numbers) && Targets() == old(Targets())
      ensures currentSpeechBuffer == old(currentSpeechBuffer)
    {
      if isListening {
        StopListening();
        return;
      }
      errorCount := 0;
      var ok := audioSessionOk;
      if ok {
        ok := StartRecording(engineStarts);
      }
      if ok {
        isListening := true;
      } else {
        isListening := false;
        Cleanup();
      }
    }

    method HandleRecognitionError(e: LS.RecognitionError)
      requires Valid()
      modifies this
      ensures Valid()
      ensures Flags() == LS.HandleRecognitionError(old(Flags()), e)
      ensures numbers == old(numbers) && Targets() == old(Targets())
      ensures currentSpeechBuffer == old(currentSpeechBuffer)
    {
      if LS.IsSilenceTimeout(e) {
        return;
      }
      errorCount := errorCount + 1;
      if errorCount >= LS.MaxErrors {
        StopListening();
        return;
      }
      if isListening && isRecognitionActive {
        pendingRestarts := pendingRestarts + 1;
      }
    }

    /** The restart scheduled 0.5 s after an error fires. */
    method RestartFired(engineStarts: bool)
      requires Valid() && pendingRestarts > 0
      modifies this
      ensures Valid()
      ensures Flags() == LS.RestartFired(old(Flags()), engineStarts)
      ensures numbers == old(numbers) && Targets() == old(Targets())
      ensures currentSpeechBuffer == old(currentSpeechBuffer)
    {
      pendingRestarts := pendingRestarts - 1;
      var ok := StartRecording(engineStarts);
      if !ok {
        StopListening();
      }
    }

    /** `speechRecognizer(_:availabilityDidChange:)`. */
    method AvailabilityDidChange(available: bool)
      requires Valid()
      modifies this
      ensures Valid()
      ensures Flags() == LS.AvailabilityDidChange(old(Flags()), available)
      ensures numbers == old(numbers) && Targets() == old(Targets())
      ensures currentSpeechBuffer == old(currentSpeechBuffer)
    {
      if !available {
        StopListening();
      }
    }

    method HandleMatch()
      requires Valid()
      modifies this, numbers
      ensures Valid()
      ensures numbers == old(numbers) && Targets() == TS.Advance(old(Targets()))
      ensures Flags() == old(Flags()) && currentSpeechBuffer == old(currentSpeechBuffer)
    {
      ghost var before := Targets();
      TS.AdvancePreservesValid(before);
      numbers[currentIndex] := numbers[currentIndex].(isCompleted := true, isActive := false);
      if currentIndex < numbers.Length - 1 {
        currentIndex := currentIndex + 1;
        numbers[currentIndex] := numbers[currentIndex].(isActive := true);
      }
      assert Targets() == TS.Advance(before);
    }

    method CheckNumber(spokenText: string, spelledOut: string -> Option<int>)
      requires Valid()
      modifies this, numbers
      ensures Valid()
      ensures numbers == old(numbers) && Targets() == TS.CheckNumber(old(Targets()), spokenText, spelledOut)
      ensures Flags() == old(Flags()) && currentSpeechBuffer == old(currentSpeechBuffer)
    {
      var targetNumber := numbers[currentIndex].number;
      if Transcript.Matches(spokenText, targetNumber, spelledOut) {
        HandleMatch();
      }
    }

    /** A transcription delivered by the recognition task. */
    method ReceiveTranscription(transcription: string, spelledOut: string -> Option<int>)
      requires Valid()
      modifies this, numbers
      ensures Valid()
      ensures numbers == old(numbers) && Targets() == TS.OnTranscript(old(Targets()), transcription, spelledOut)
      ensures Flags() == old(Flags()) && currentSpeechBuffer == transcription
    {
      currentSpeechBuffer := transcription;
      if transcription != [] {
        CheckNumber(transcription, spelledOut);
      }
    }
  }

  /**
   * A session from start: "zero" and "one" advance the cursor to 2, then
   * three recognition errors, with a successful restart after each of the
   * first two, stop the session without losing the progress.
   */
  method ZeroOneThenThreeErrors(spelledOut: string -> Option<int>, e: LS.RecognitionError)
    returns (cursor: int, listening: bool, completed: bool)
    requires spelledOut("zero") == Some(0) && spelledOut("one") == Some(1)
    requires !LS.IsSilenceTimeout(e)
    ensures cursor == 2 && !listening && completed
  {
    var vm := new NumberLearningViewModel();
    vm.StartListening(true, true);
    TS.ZeroThenOne(vm.Targets(), spelledOut);
    vm.ReceiveTranscription("zero", spelledOut);
    vm.ReceiveTranscription("one", spelledOut);
    vm.HandleRecognitionError(e);
    vm.RestartFired(true);
    vm.HandleRecognitionError(e);
    vm.RestartFired(true);
    vm.HandleRecognitionError(e);
    cursor, listening := vm.currentIndex, vm.isListening;
    completed := vm.numbers[0].isCompleted && vm.numbers[1].isCompleted;
  }
}
