# NumberExplorer: the number-learning view model in Dafny

NumberExplorer walks a learner through the numbers 0 to 100. It listens to
speech, and every time a transcript names the current number it advances a
cursor over the grid of numbers. This project models the core of that app,
`NumberLearningViewModel`:

- **The target sequence and its cursor.** `setupNumbers` builds 101 items.
  `handleMatch` completes the current item and activates the next one. It
  does this in place on the `numbers` array and `currentIndex`.
- **Transcript matching** (`checkNumber`). The transcript is trimmed and
  lower-cased. It is accepted when Swift's `Int(String)` reads it as the
  target, or when the spelled-out parser does.
- **The listening state machine.** It covers `startListening` (a toggle),
  `stopListening`, `cleanup`, `handleRecognitionError` with its error budget
  of 3, the restart it schedules 0.5 s later, and the recognizer's
  availability callback.
- **The Chinese label** (`convertToChineseNumeral`).

Modules, leaf first:

- `Wrappers` (`wrappers.dfy`): `Option`.
- `SwiftInt` (`swift_int.dfy`): `Int(String)` on a 64-bit platform, and
  `String(n)`.
- `Transcript` (`transcript.dfy`): trimming with Foundation's
  white-space-and-newline set, lower-casing, and the match decision.
- `ChineseNumerals` (`chinese_numerals.dfy`): the label, plus a reader that
  inverts it.
- `TargetSequence` (`target_sequence.dfy`): the items and cursor as values.
  This is the specification of `setupNumbers`, `handleMatch` and
  `checkNumber`, with its invariant.
- `ListeningSession` (`listening_session.dfy`): the flags `isListening`,
  `isRecognitionActive` and `errorCount`, and a count of scheduled restarts,
  as values. Each event is a function on them. Runs of events are folded,
  and the session invariant and the error budget are proved over any run.
- `NumberLearning` (`view_model.dfy`): the class `NumberLearningViewModel`.
  Its fields are the source's fields (`numbers` is an `array`).
  - The public methods `StartListening`, `StopListening` and
    `AvailabilityDidChange` are proved to produce exactly the new state
    that the `ListeningSession` function of the same name gives, and to
    keep (for `StopListening`, restore) the object invariant `Valid()`.
  - So are `HandleRecognitionError`, `HandleMatch` and `CheckNumber`, with
    `TargetSequence.Advance` and `TargetSequence.CheckNumber` for the last
    two.
  - Two methods stand for closures rather than source methods:
    `RestartFired` is the `asyncAfter` block of `handleRecognitionError`,
    and `ReceiveTranscription` is the `main.async` block of the recognition
    callback. Both are held to the same standard.
  - The private helpers `SetupNumbers`, `Cleanup` and `StartRecording`
    carry frame contracts only; they neither require nor ensure `Valid()`.
    `Cleanup` could not: from a listening state it leaves a listening
    session without an active recognition. `StartRecording` gives its new
    flags directly rather than through a `ListeningSession` function.

Parameters that stand for the platform:

- `audioSessionOk` and `engineStarts` say whether setting up the audio
  session and starting the audio engine succeed.
- `spelledOut` is `NumberFormatter`'s en-US spell-out parse followed by
  `intValue`.
- `available` is the recognizer's availability.
- Recognition errors are values with a domain and a code.

`pendingRestarts` is the one field that the source does not have. It counts
the restarts that `asyncAfter` has scheduled but that have not fired yet.

Behaviour kept as the code has it, where a reader might expect otherwise (a
stop that cancels the scheduled restart, a successful restart that renews the
error budget, transcripts discarded while not listening):

- `stopListening` does not cancel a scheduled restart. When the restart
  fires, it makes the recognition active again while the session is not
  listening (`ListeningSession.RestartAfterStopReactivates`).
- The error count is cleared only by `startListening`. A successful restart
  does not clear it. Three errors stop the session, even with a successful
  restart after each of the first two (`ListeningSession.ThirdErrorAfterRestartStops`).
- Transcripts are checked whatever the listening flags say. The code only
  skips empty transcripts; it does not discard those that arrive while not
  listening.
- Once the last item is completed, the cursor stays on it. Matching it again
  runs `handleMatch` again, which then changes nothing
  (`TargetSequence.AdvanceExhaustedIsIdentity`).
- 100 is labelled 十十. `convertToChineseNumeral` indexes its table with the
  tens digit, so the model requires `0 <= num < 110`.

## Model

| member | source | states |
|---|---|---|
| SwiftInt.ParseInt | NumberExplorer/ViewModels/NumberLearningViewModel.swift:196 | `Int(cleaned)` succeeds only on an optional sign followed by one or more ASCII digits, with a value in the 64-bit range; without a minus sign the value is non-negative |
| SwiftInt.DecimalString | NumberExplorer/ViewModels/NumberLearningViewModel.swift:33 | `String(num)` is a non-empty run of digits whose decimal value is `num`, with no leading zero: it starts with `0` only when it is exactly `"0"` |
| SwiftInt.ParseDecimalString | NumberExplorer/ViewModels/NumberLearningViewModel.swift:33-33 | parsing `String(n)`, also with a `+` or `-` in front, gives back `n` or `-n` |
| SwiftInt.ParseDigits | NumberExplorer/ViewModels/NumberLearningViewModel.swift:196 | any run of digits, leading zeros included, parses as its value when that is at most `Int.max` and gives nil otherwise; a `+` in front changes nothing; after a `-` it parses as the negation up to `Int.max + 1` and gives nil beyond |
| SwiftInt.ParseLeadingZeros | NumberExplorer/ViewModels/NumberLearningViewModel.swift:196 | leading zeros do not change the parse: `Int("007")` and `Int("+007")` are 7, and `Int("-007")` is -7 |
| SwiftInt.ParseOutOfRange | NumberExplorer/ViewModels/NumberLearningViewModel.swift:196 | digits whose value exceeds `Int.max`, with any number of leading zeros, give nil, with or without `+`; after a minus sign only `Int.max + 1` still parses, to `Int.min` |
| SwiftInt.ParseRejectsStrayCharacter | NumberExplorer/ViewModels/NumberLearningViewModel.swift:196-196 | any character that is not a digit and not a leading sign makes `Int(cleaned)` nil: there is no partial parse |
| Transcript.IsWhitespaceOrNewline | NumberExplorer/ViewModels/NumberLearningViewModel.swift:194 | membership in Foundation's `whitespacesAndNewlines`: U+0009 to U+000D, U+0085 and the Unicode space separators (Zs), line separator and paragraph separator |
| Transcript.Trim | NumberExplorer/ViewModels/NumberLearningViewModel.swift:194 | the trimmed text is empty exactly when the transcript is all white space, and otherwise neither starts nor ends with white space |
| Transcript.TrimPadded | NumberExplorer/ViewModels/NumberLearningViewModel.swift:194-194 | trimming removes exactly the white space around a word and nothing of the word |
| Transcript.LowerChar | NumberExplorer/ViewModels/NumberLearningViewModel.swift:194 | an ASCII capital becomes its small letter (code + 32); every other character is kept; the result is no capital |
| Transcript.Lowercased | NumberExplorer/ViewModels/NumberLearningViewModel.swift:194 | the result has no ASCII capital and equals the text up to case (together these fix it uniquely); a text without capitals comes back unchanged |
| Transcript.Cleaned | NumberExplorer/ViewModels/NumberLearningViewModel.swift:194 | the cleaned text is no longer than the transcript and has no capital; it is empty exactly when the transcript is all white space, and otherwise neither starts nor ends with white space |
| Transcript.Matches | NumberExplorer/ViewModels/NumberLearningViewModel.swift:194-208 | a match that the spelled-out parser did not make comes from a non-blank transcript whose cleaned text is an optionally signed digit run, and the target lies in the 64-bit range |
| Transcript.TrimUpToCase | NumberExplorer/ViewModels/NumberLearningViewModel.swift:194 | trimming texts that agree up to case gives texts that agree up to case |
| Transcript.LowercasedUpToCase | NumberExplorer/ViewModels/NumberLearningViewModel.swift:194 | texts that agree up to case lower-case to the same text |
| Transcript.CleanedIgnoresCase | NumberExplorer/ViewModels/NumberLearningViewModel.swift:194-208 | transcripts that differ only in ASCII case ("Forty two", "forty two") clean to the same text and match exactly the same targets |
| Transcript.CleanedUnchanged | NumberExplorer/ViewModels/NumberLearningViewModel.swift:194 | a text with no ASCII capital and no white space at either end is unchanged by cleaning |
| Transcript.CleanedLowercaseWord | NumberExplorer/ViewModels/NumberLearningViewModel.swift:194 | a word of lower-case letters, such as a spelled-out number, comes through cleaning unchanged |
| Transcript.CleanedDigits | NumberExplorer/ViewModels/NumberLearningViewModel.swift:194-196 | the digits of a number come through cleaning unchanged and parse as that number |
| Transcript.DigitsMatch | NumberExplorer/ViewModels/NumberLearningViewModel.swift:194-198 | the target's digits, with any white space around them, are always accepted, whatever the spelled-out parser says |
| Transcript.DigitsMatchOnlyTheirValue | NumberExplorer/ViewModels/NumberLearningViewModel.swift:196-208 | the digits of `n` are accepted for another target only if the spelled-out parser reads them as that target |
| Transcript.TrailingWordDefeatsDigits | NumberExplorer/ViewModels/NumberLearningViewModel.swift:194-208 | a number followed by a word ("42 dollars") fails the integer parse and is accepted exactly when the spelled-out parser accepts it |
| Transcript.BlankNeverMatchesDigits | NumberExplorer/ViewModels/NumberLearningViewModel.swift:194-208 | a white-space-only transcript cleans to the empty text and is accepted only if the spelled-out parser reads the empty text as the target |
| ChineseNumerals.ChineseNumeral | NumberExplorer/ViewModels/NumberLearningViewModel.swift:225-239 | the label has one to three characters, all from the numeral table |
| ChineseNumerals.NumeralValue | NumberExplorer/ViewModels/NumberLearningViewModel.swift:226 | a numeral's value is its position in the table |
| ChineseNumerals.ReadChineseNumeral | NumberExplorer/ViewModels/NumberLearningViewModel.swift:228-238 | a reader for the label's composition rule (one numeral; 十 and ones; tens and 十; tens, 十 and ones) gives values in 0..109 |
| ChineseNumerals.ReadChineseNumeralInverse | NumberExplorer/ViewModels/NumberLearningViewModel.swift:225-239 | every label reads back as the value it was made from, for all of 0..109 |
| ChineseNumerals.ChineseNumeralInjective | NumberExplorer/ViewModels/NumberLearningViewModel.swift:225-239 | no two values share a label |
| ChineseNumerals.ChineseTensAndOnes | NumberExplorer/ViewModels/NumberLearningViewModel.swift:232-238 | from 20 on, the label is the tens numeral, 十, and the ones numeral unless the ones digit is 0 |
| ChineseNumerals.ChineseSamples | NumberExplorer/ViewModels/NumberLearningViewModel.swift:228-238 | 0 is 零, 10 is 十, 11 is 十一, 20 is 二十, 23 is 二十三, and 100 is 十十 |
| TargetSequence.MakeItem | NumberExplorer/ViewModels/NumberLearningViewModel.swift:31-37 | a new item holds `num`, is neither completed nor active, and both its labels read back as `num`: `Int(english)` and the Chinese reader give `num` |
| TargetSequence.InitialNumbers | NumberExplorer/ViewModels/NumberLearningViewModel.swift:29-40 | `setupNumbers` makes exactly 101 items; item i has number i; none is completed; only item 0 is active |
| TargetSequence.InitialIsValid | NumberExplorer/ViewModels/NumberLearningViewModel.swift:29-40 | the initial items carry their two labels and satisfy the sequence invariant, with target 0 |
| TargetSequence.ActiveOnlyAtCursor | NumberExplorer/ViewModels/NumberLearningViewModel.swift:215-220 | under the invariant, an item is active exactly when it is at `currentIndex` and the sequence is not exhausted, so at most one item is active |
| TargetSequence.Advance | NumberExplorer/ViewModels/NumberLearningViewModel.swift:211-223 | `handleMatch` completes and deactivates the current item; before the last item it moves the cursor up by exactly one and activates that item; at the last item the cursor stays; no other item changes |
| TargetSequence.AdvancePreservesValid | NumberExplorer/ViewModels/NumberLearningViewModel.swift:215-221 | `handleMatch` keeps the invariant; the cursor never decreases and moves by at most one; completion is never reset |
| TargetSequence.AdvanceExhaustedIsIdentity | NumberExplorer/ViewModels/NumberLearningViewModel.swift:215-221 | once the last item is completed, a further match changes nothing |
| TargetSequence.CheckNumber | NumberExplorer/ViewModels/NumberLearningViewModel.swift:190-209 | `checkNumber` only changes the sequence when the transcript matches the target, and a match completes the current item; it keeps the invariant and moves the cursor forward by at most one |
| TargetSequence.OnTranscript | NumberExplorer/ViewModels/NumberLearningViewModel.swift:130-135 | an empty transcript changes nothing; any change comes from a match with the current target; the invariant is kept and the cursor moves forward by at most one |
| TargetSequence.SayingTargetDigitsAdvances | NumberExplorer/ViewModels/NumberLearningViewModel.swift:190-199 | a transcript holding the current target's digits, padded with white space, advances the sequence |
| TargetSequence.EnglishLabelAdvances | NumberExplorer/ViewModels/NumberLearningViewModel.swift:33-33 | a transcript equal to the current item's own English label advances the sequence |
| TargetSequence.OtherDigitsIgnored | NumberExplorer/ViewModels/NumberLearningViewModel.swift:190-209 | the digits of another number leave the sequence unchanged unless the spelled-out parser reads them as the target |
| TargetSequence.SpelledTargetAdvances | NumberExplorer/ViewModels/NumberLearningViewModel.swift:201-208 | a clean word that the spelled-out parser reads as the target advances the sequence |
| TargetSequence.RepeatedTranscriptAbsorbed | NumberExplorer/ViewModels/NumberLearningViewModel.swift:190-223 | a repeat of the number just matched, checked after the earlier match's `handleMatch` block has run, does not advance a second time |
| TargetSequence.QueuedRepeatAdvancesTwice | NumberExplorer/ViewModels/NumberLearningViewModel.swift:130-223 | when two transcript blocks that match are queued before the first match's `handleMatch` block runs, both compare with the same cursor; their two deferred updates complete the next item as well, without it being said |
| TargetSequence.TranscribePreservesValid | NumberExplorer/ViewModels/NumberLearningViewModel.swift:126-135 | over any run of transcripts: the invariant holds, the cursor moves forward by at most one per transcript, and completion is never reset |
| TargetSequence.ZeroThenOne | NumberExplorer/ViewModels/NumberLearningViewModel.swift:190-223 | from the start, "zero" and then "one" complete items 0 and 1 and leave the cursor at 2 |
| ListeningSession.IsSilenceTimeout | NumberExplorer/ViewModels/NumberLearningViewModel.swift:147 | the silence timeout is exactly domain kAFAssistantErrorDomain with code 1110 |
| ListeningSession.Cleanup | NumberExplorer/ViewModels/NumberLearningViewModel.swift:173-188 | `cleanup` clears `isRecognitionActive` and nothing else |
| ListeningSession.StopListening | NumberExplorer/ViewModels/NumberLearningViewModel.swift:85-88 | `stopListening` leaves both flags false and keeps the error count and any scheduled restart |
| ListeningSession.StopIdempotent | NumberExplorer/ViewModels/NumberLearningViewModel.swift:85-88 | stopping or cleaning up twice is the same as doing it once |
| ListeningSession.StartListening | NumberExplorer/ViewModels/NumberLearningViewModel.swift:66-83 | while listening it is `stopListening`, and the error count is unchanged; otherwise the error count becomes 0, the session ends listening exactly when setup succeeds, and a failed setup leaves both flags false |
| ListeningSession.HandleRecognitionError | NumberExplorer/ViewModels/NumberLearningViewModel.swift:144-171 | the silence timeout (kAFAssistantErrorDomain, 1110) changes nothing; any other error adds exactly 1 to the count; at 3 or more both flags become false; below 3 a restart is scheduled exactly when listening with an active recognition |
| ListeningSession.RestartFired | NumberExplorer/ViewModels/NumberLearningViewModel.swift:162-169 | a fired restart that succeeds activates the recognition and keeps the error count; one that fails stops the session |
| ListeningSession.AvailabilityDidChange | NumberExplorer/ViewModels/NumberLearningViewModel.swift:243-247 | losing the recognizer stops the session; regaining it changes nothing |
| ListeningSession.Step | NumberExplorer/ViewModels/NumberLearningViewModel.swift:66-171 | one event schedules at most one restart; any event but `startListening` never lowers the error count and never starts listening |
| ListeningSession.Run | NumberExplorer/ViewModels/NumberLearningViewModel.swift:66-171 | a run of events schedules at most one restart per event; without `startListening` the error count never goes down |
| ListeningSession.StepPreservesInvariant | NumberExplorer/ViewModels/NumberLearningViewModel.swift:66-171 | every event keeps the rule that a listening session has an active recognition and fewer than 3 counted errors |
| ListeningSession.RunPreservesInvariant | NumberExplorer/ViewModels/NumberLearningViewModel.swift:66-171 | that rule holds after any run of events |
| ListeningSession.RunCountsErrors | NumberExplorer/ViewModels/NumberLearningViewModel.swift:151 | without `startListening`, the error count grows by exactly the number of non-silence errors; successful restarts do not reset it |
| ListeningSession.RunStaysStopped | NumberExplorer/ViewModels/NumberLearningViewModel.swift:66-88 | without `startListening`, a session that is not listening never becomes listening |
| ListeningSession.BudgetExhausted | NumberExplorer/ViewModels/NumberLearningViewModel.swift:151-158 | once the errors since the last start reach 3, the session is not listening, whatever restarts happened in between |
| ListeningSession.ThirdErrorAfterRestartStops | NumberExplorer/ViewModels/NumberLearningViewModel.swift:151-169 | a fresh session that gets three errors, with a successful restart after each of the first two, ends stopped with count 3 |
| ListeningSession.RestartAfterStopReactivates | NumberExplorer/ViewModels/NumberLearningViewModel.swift:162-169 | a restart scheduled before `stopListening` still fires after it, and sets the recognition active while not listening |
| NumberLearning.NumberLearningViewModel.constructor | NumberExplorer/ViewModels/NumberLearningViewModel.swift:21-27 | `init` leaves the initial sequence, all flags cleared and the invariant established |
| NumberLearning.NumberLearningViewModel.SetupNumbers | NumberExplorer/ViewModels/NumberLearningViewModel.swift:29-40 | `numbers` becomes a fresh array holding the initial items; no other field changes |
| NumberLearning.NumberLearningViewModel.Cleanup | NumberExplorer/ViewModels/NumberLearningViewModel.swift:173-188 | the flags become `ListeningSession.Cleanup` of the old flags; the targets are unchanged |
| NumberLearning.NumberLearningViewModel.StopListening | NumberExplorer/ViewModels/NumberLearningViewModel.swift:85-88 | the flags become `ListeningSession.StopListening` of the old flags; the targets are unchanged; the object invariant holds afterwards, whatever the flags were before |
| NumberLearning.NumberLearningViewModel.StartRecording | NumberExplorer/ViewModels/NumberLearningViewModel.swift:96-142 | when the engine starts it sets `isRecognitionActive`; otherwise it reports failure and changes nothing |
| NumberLearning.NumberLearningViewModel.StartListening | NumberExplorer/ViewModels/NumberLearningViewModel.swift:66-83 | the new flags are `ListeningSession.StartListening` of the old ones; the invariant is kept and the targets are unchanged |
| NumberLearning.NumberLearningViewModel.HandleRecognitionError | NumberExplorer/ViewModels/NumberLearningViewModel.swift:144-171 | the new flags are `ListeningSession.HandleRecognitionError` of the old ones; the invariant is kept and the targets are unchanged |
| NumberLearning.NumberLearningViewModel.RestartFired | NumberExplorer/ViewModels/NumberLearningViewModel.swift:162-169 | the new flags are `ListeningSession.RestartFired` of the old ones; the invariant is kept |
| NumberLearning.NumberLearningViewModel.AvailabilityDidChange | NumberExplorer/ViewModels/NumberLearningViewModel.swift:243-247 | the new flags are `ListeningSession.AvailabilityDidChange` of the old ones |
| NumberLearning.NumberLearningViewModel.HandleMatch | NumberExplorer/ViewModels/NumberLearningViewModel.swift:211-223 | the array, updated in place, and the cursor become `TargetSequence.Advance` of the old ones; the invariant is kept and the flags are unchanged |
| NumberLearning.NumberLearningViewModel.CheckNumber | NumberExplorer/ViewModels/NumberLearningViewModel.swift:190-209 | the sequence advances exactly when the transcript matches the current item's number, and otherwise is unchanged |
| NumberLearning.NumberLearningViewModel.ReceiveTranscription | NumberExplorer/ViewModels/NumberLearningViewModel.swift:126-135 | the transcript is stored in `currentSpeechBuffer`; an empty one is not checked, any other is passed to `checkNumber` |
| NumberLearning.ZeroOneThenThreeErrors | NumberExplorer/ViewModels/NumberLearningViewModel.swift:66-223 | a session that hears "zero" and "one" and then gets three errors, with successful restarts in between, ends not listening, with cursor 2 and items 0 and 1 completed |

## Left out

- Permission requests (NumberExplorer/ViewModels/NumberLearningViewModel.swift:42-64): these are asynchronous platform callbacks that only log or clear `isListening`.
- Audio and speech objects: the audio session, `AVAudioEngine`, the input-node tap and the recognition request and task are platform I/O. They appear only as the outcome of acquiring them (`audioSessionOk`, `engineStarts`). A missing recognizer or request is one more way for `startRecording` to fail.
- `cleanup`'s release of the engine, tap, request and task is not modelled; only its effect on `isRecognitionActive` is.
- Dispatch: each `DispatchQueue.main.async` block (`handleMatch`, the stop at the error limit, the transcript handler) is applied at once. The 0.5 s `asyncAfter` restart is a pending event that fires later. Applying `handleMatch` at once runs it ahead of transcript blocks that were already queued before it. The source does not do that. Other interleavings are not modelled either.
- TargetSequence.RepeatedTranscriptAbsorbed: holds only for a repeat that is checked after the earlier match's `handleMatch` block has run. Two matching transcript blocks already queued both see the old cursor and both queue `handleMatch`, so the next item is completed without being said. `TargetSequence.QueuedRepeatAdvancesTwice` states that case on the value model. The class methods apply each match at once and do not reproduce it.
- The recognition callback may carry an error and a result together. It is modelled as two separate events: an error, or a transcription.
- `[weak self]` guards are not modelled: object deallocation is not part of the model.
- A second `installTap` while a tap is still installed is a platform exception. It is not modelled. It can come from a restart (line 165 installs again). It can also come from `startListening`: a restart that fires after `stopListening` (`ListeningSession.RestartAfterStopReactivates`) installs a tap (line 113), and the next `startListening` installs another one (line 75).
- ChineseNumerals.ChineseNumeral requires `0 <= num < 110`, because a larger value, or a negative one, makes the source index outside its numeral table.
- `NumberFormatter`'s spell-out grammar is a foreign library, so it is the parameter `spelledOut`. Its reading of fractions through `intValue` belongs to that parameter.
- Transcript.LowerChar: maps only the ASCII letters A to Z. Swift's full Unicode lower-casing of other letters is not modelled. Digits, white space and the integer parse are unaffected.
- `errorCount` is an unbounded `nat`. Its 64-bit overflow cannot be reached in practice and is not modelled.
- `currentMode` and `LearningMode` are not used by any matching logic. `print` logging is not modelled.
- NumberExplorer/ContentView.swift and NumberExplorer/Views/NumberCell.swift are SwiftUI layout and colour styling. NumberExplorer/Item.swift is an unused persistence stub. None of them is part of this model.
