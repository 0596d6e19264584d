/**
 * The listening flags of the view model, `isListening`,
 * `isRecognitionActive` and `errorCount`, and how the session events change
 * them. The audio engine is reduced to whether acquiring it succeeds, and
 * the restart that `handleRecognitionError` schedules 0.5 s later is a
 * pending event, counted in `pendingRestarts` until it fires.
 */
module ListeningSession {

  /** The domain and code of an `NSError` reported by the recognition task. */
  datatype RecognitionError = RecognitionError(domain: string, code: int)

  const MaxErrors: nat := 3

  /** The recognizer's "no speech detected" timeout, which silence produces. */
  predicate IsSilenceTimeout(e: RecognitionError) {
    e.domain == "kAFAssistantErrorDomain" && e.code == 1110
  }

  datatype Listener = Listener(isListening: bool, isRecognitionActive: bool, errorCount: nat, pendingRestarts: nat)

  /** The flags right after `init`. */
  const Idle: Listener := Listener(false, false, 0, 0)

  /** `cleanup`, on the flags: the recognition is no longer active. */
  function Cleanup(l: Listener): (r: Listener)
    ensures !r.isRecognitionActive
    ensures r.(isRecognitionActive := l.isRecognitionActive) == l
  {
    l.(isRecognitionActive := false)
  }

  /**
   * `stopListening`: both flags end false; the error count is kept and a
   * scheduled restart is not cancelled.
   */
  function StopListening(l: Listener): (r: Listener)
    ensures !r.isListening && !r.isRecognitionActive
    ensures r.errorCount == l.errorCount && r.pendingRestarts == l.pendingRestarts
  {
    Cleanup(l).(isListening := false)
  }

  /**
   * `startListening`: a toggle. While listening it just stops. Otherwise it
   * clears the error count and sets up the audio session and the recording;
   * it ends listening exactly when both succeed, and cleans up otherwise.
   */
  function StartListening(l: Listener, audioSessionOk: bool, engineStarts: bool): (r: Listener)
    ensures l.isListening ==> r == StopListening(l)
    ensures !l.isListening ==> r.errorCount == 0 && r.pendingRestarts == l.pendingRestarts
    ensures !l.isListening ==> (r.isListening <==> audioSessionOk && engineStarts)
    ensures !l.isListening ==> (r.isRecognitionActive <==> r.isListening)
  {
    if l.isListening then StopListening(l)
    else
      var cleared := l.(errorCount := 0);
      if audioSessionOk && engineStarts then cleared.(isRecognitionActive := true, isListening := true)
      else Cleanup(cleared.(isListening := false))
  }

  /**
   * `handleRecognitionError`: the silence timeout changes nothing. Any other
   * error is counted; at `MaxErrors` the session stops, and below it a
   * restart is scheduled when the session is listening with an active
   * recognition.
   */
  function HandleRecognitionError(l: Listener, e: RecognitionError): (r: Listener)
    ensures IsSilenceTimeout(e) ==> r == l
    ensures !IsSilenceTimeout(e) ==> r.errorCount == l.errorCount + 1
    ensures !IsSilenceTimeout(e) && r.errorCount >= MaxErrors ==>
      !r.isListening && !r.isRecognitionActive && r.pendingRestarts == l.pendingRestarts
    ensures !IsSilenceTimeout(e) && r.errorCount < MaxErrors ==>
      && r.isListening == l.isListening && r.isRecognitionActive == l.isRecognitionActive
      && r.pendingRestarts == l.pendingRestarts + (if l.isListening && l.isRecognitionActive then 1 else 0)
  {
    if IsSilenceTimeout(e) then l
    else
      var counted := l.(errorCount := l.errorCount + 1);
      if counted.errorCount >= MaxErrors then StopListening(counted)
      else if counted.isListening && counted.isRecognitionActive then
        counted.(pendingRestarts := counted.pendingRestarts + 1)
      else counted
  }

  /**
   * A scheduled restart fires: `startRecording` again. Success makes the
   * recognition active and leaves the error count as it is; failure stops
   * the session. The restart does not look at `isListening`.
   */
  function RestartFired(l: Listener, engineStarts: bool): (r: Listener)
    requires l.pendingRestarts > 0
    ensures r.pendingRestarts == l.pendingRestarts - 1 && r.errorCount == l.errorCount
    ensures engineStarts ==> r.isRecognitionActive && r.isListening == l.isListening
    ensures !engineStarts ==> !r.isListening && !r.isRecognitionActive
  {
    var fired := l.(pendingRestarts := l.pendingRestarts - 1);
    if engineStarts then fired.(isRecognitionActive := true) else StopListening(fired)
  }

  /** The recognizer delegate: losing availability stops the session. */
  function AvailabilityDidChange(l: Listener, available: bool): (r: Listener)
    ensures available ==> r == l
    ensures !available ==> r == StopListening(l)
  {
    if available then l else StopListening(l)
  }

  /** The events that change the flags, delivered one at a time. */
  datatype Event =
    | Toggle(audioSessionOk: bool, engineStarts: bool)
    | Stop
    | Error(error: RecognitionError)
    | RestartTimer(engineStarts: bool)
    | Availability(available: bool)

  /** One event. A restart timer fires only if a restart was scheduled. */
  function Step(l: Listener, ev: Event): (r: Listener)
    ensures r.pendingRestarts <= l.pendingRestarts + 1
    ensures !ev.Toggle? ==> r.errorCount >= l.errorCount
    ensures !ev.Toggle? && !l.isListening ==> !r.isListening
  {
    match ev
    case Toggle(a, b) => StartListening(l, a, b)
    case Stop => StopListening(l)
    case Error(e) => HandleRecognitionError(l, e)
    case RestartTimer(ok) => if l.pendingRestarts > 0 then RestartFired(l, ok) else l
    case Availability(a) => AvailabilityDidChange(l, a)
  }

  /**
   * The events in order. Each schedules at most one restart, and without a
   * `startListening` the error count never goes down.
   */
  function Run(l: Listener, events: seq<Event>): (r: Listener)
    ensures r.pendingRestarts <= l.pendingRestarts + |events|
    ensures NoToggle(events) ==> r.errorCount >= l.errorCount
    decreases |events|
  {
    if events == [] then l else Run(Step(l, events[0]), events[1..])
  }

  /** No `startListening` among the events. */
  predicate NoToggle(events: seq<Event>) {
    forall i :: 0 <= i < |events| ==> !events[i].Toggle?
  }

  /** How many of the events are errors that count against the budget. */
  function CountedErrors(events: seq<Event>): nat
    decreases |events|
  {
    if events == [] then 0
    else (if events[0].Error? && !IsSilenceTimeout(events[0].error) then 1 else 0) + CountedErrors(events[1..])
  }

  // ---------------------------------------------------------------------
  // Properties

  /**
   * The session invariant: a listening session has an active recognition
   * and has not used up its error budget.
   */
  predicate Invariant(l: Listener) {
    l.isListening ==> l.isRecognitionActive && l.errorCount < MaxErrors
  }

  lemma StepPreservesInvariant(l: Listener, ev: Event)
    requires Invariant(l)
    ensures Invariant(Step(l, ev))
  {
  }

  lemma {:induction false} RunPreservesInvariant(l: Listener, events: seq<Event>)
    requires Invariant(l)
    ensures Invariant(Run(l, events))
    decreases |events|
  {
    if events != [] {
      StepPreservesInvariant(l, events[0]);
      RunPreservesInvariant(Step(l, events[0]), events[1..]);
    }
  }

  /** Stopping twice is the same as stopping once. */
  lemma StopIdempotent(l: Listener)
    ensures StopListening(StopListening(l)) == StopListening(l)
    ensures Cleanup(Cleanup(l)) == Cleanup(l)
  {
  }

  /**
   * Between two `startListening` calls the error count only grows, by one
   * for each non-silence error: a successful restart does not reset it.
   */
  lemma {:induction false} RunCountsErrors(l: Listener, events: seq<Event>)
    requires NoToggle(events)
    ensures Run(l, events).errorCount == l.errorCount + CountedErrors(events)
    decreases |events|
  {
    if events != [] {
      assert !events[0].Toggle?;
      assert NoToggle(events[1..]) by {
        forall i | 0 <= i < |events| - 1 ensures !events[1..][i].Toggle? {
          assert events[1..][i] == events[i + 1];
        }
      }
      RunCountsErrors(Step(l, events[0]), events[1..]);
    }
  }

  /** Only `startListening` makes a stopped session listen again. */
  lemma {:induction false} RunStaysStopped(l: Listener, events: seq<Event>)
    requires NoToggle(events) && !l.isListening
    ensures !Run(l, events).isListening
    decreases |events|
  {
    if events != [] {
      assert !events[0].Toggle?;
      assert NoToggle(events[1..]) by {
        forall i | 0 <= i < |events| - 1 ensures !events[1..][i].Toggle? {
          assert events[1..][i] == events[i + 1];
        }
      }
      RunStaysStopped(Step(l, events[0]), events[1..]);
    }
  }

  /**
   * Once the errors since the last `startListening` reach `MaxErrors`, the
   * session is not listening, whatever restarts succeeded in between.
   */
  lemma BudgetExhausted(l: Listener, events: seq<Event>)
    requires Invariant(l) && NoToggle(events)
    requires l.errorCount + CountedErrors(events) >= MaxErrors
    ensures !Run(l, events).isListening
  {
    RunPreservesInvariant(l, events);
    RunCountsErrors(l, events);
  }

  /**
   * Two errors, a successful restart, and one more error stop a session
   * that was started fresh: the restart did not renew the budget.
   */
  lemma ThirdErrorAfterRestartStops(e: RecognitionError)
    requires !IsSilenceTimeout(e)
    ensures
      var started := StartListening(Idle, true, true);
      var r := Run(started, [Error(e), RestartTimer(true), Error(e), RestartTimer(true), Error(e)]);
      !r.isListening && !r.isRecognitionActive && r.errorCount == MaxErrors
  {
    var s0 := StartListening(Idle, true, true);
    var evs := [Error(e), RestartTimer(true), Error(e), RestartTimer(true), Error(e)];
    var s1 := Step(s0, evs[0]);
    assert s1 == Listener(true, true, 1, 1);
    var s2 := Step(s1, evs[1]);
    assert s2 == Listener(true, true, 1, 0);
    var s3 := Step(s2, evs[2]);
    assert s3 == Listener(true, true, 2, 1);
    var s4 := Step(s3, evs[3]);
    assert s4 == Listener(true, true, 2, 0);
    var s5 := Step(s4, evs[4]);
    assert s5 == Listener(false, false, 3, 0);
    assert evs[1..][1..] == evs[2..] && evs[2..][1..] == evs[3..];
    assert evs[3..][1..] == evs[4..] && evs[4..][1..] == [];
    assert Run(s4, evs[4..]) == s5;
    assert Run(s3, evs[3..]) == Run(s4, evs[4..]);
    assert Run(s2, evs[2..]) == Run(s3, evs[3..]);
    assert Run(s1, evs[1..]) == Run(s2, evs[2..]);
    assert Run(s0, evs) == Run(s1, evs[1..]);
  }

  /**
   * `stopListening` leaves a scheduled restart in place; when it fires it
   * makes the recognition active again although the session is stopped.
   */
  lemma RestartAfterStopReactivates(e: RecognitionError)
    requires !IsSilenceTimeout(e)
    ensures Run(StartListening(Idle, true, true), [Error(e), Stop, RestartTimer(true)]) == Listener(false, true, 1, 0)
  {
    var s0 := StartListening(Idle, true, true);
    var evs := [Error(e), Stop, RestartTimer(true)];
    var s1 := Step(s0, evs[0]);
    assert s1 == Listener(true, true, 1, 1);
    var s2 := Step(s1, evs[1]);
    assert s2 == Listener(false, false, 1, 1);
    var s3 := Step(s2, evs[2]);
    assert s3 == Listener(false, true, 1, 0);
    assert evs[1..][1..] == evs[2..] && evs[2..][1..] == [];
    assert Run(s2, evs[2..]) == s3;
    assert Run(s0, evs) == Run(s1, evs[1..]) == Run(s2, evs[2..]);
  }
}
