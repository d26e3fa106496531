/** A read under a time budget: the caller waits for a reader thread and may abandon it. A guard
    and a flag decide which of the two closes a response that nobody will use. */
module BudgetedRead {
  import opened Types

  datatype Thread = ReaderThread | CallerThread

  /** The reader: inside the action, then through the guarded publication of its result. */
  datatype Reader = Reading | WantsGuard | Checking | Publishing | Releasing | ReaderDone

  /** The caller: waiting on the future, abandoning the read under the guard, or holding a result
      that has one budget check to pass. */
  datatype Caller = Waiting | WantsAbandon | Marking | Inspecting | Leaving | HasResult | Raised | Returned

  datatype Future = Pending | HasValue | HasException

  /** What the action gave: nothing yet or an error, a response with a body, or another value. */
  datatype Value = NoValue | Response | Plain

  datatype State = State(reader: Reader, caller: Caller, guard: Option<Thread>, abandoned: bool, future: Future, value: Value, closes: nat)

  const INITIAL: State := State(Reading, Waiting, None, false, Pending, NoValue, 0)

  datatype Step =
    | ActionReturns(response: bool) | ActionRaises
    | ReaderAcquires | ReaderChecks | ReaderPublishes | ReaderReleases
    | WakesWithValue | WakesWithException | GivesUp
    | CallerAcquires | CallerMarks | CallerInspects | CallerReleases
    | FinalCheck(inTime: bool)

  function Closed(s: State): nat {
    if s.value == Response then s.closes + 1 else s.closes
  }

  predicate Enabled(s: State, step: Step) {
    match step
    case ActionReturns(_) => s.reader == Reading
    case ActionRaises => s.reader == Reading
    case ReaderAcquires => s.reader == WantsGuard && s.guard == None
    case ReaderChecks => s.reader == Checking
    case ReaderPublishes => s.reader == Publishing
    case ReaderReleases => s.reader == Releasing
    case WakesWithValue => s.caller == Waiting && s.future == HasValue
    case WakesWithException => s.caller == Waiting && s.future == HasException
    case GivesUp => s.caller == Waiting
    case CallerAcquires => s.caller == WantsAbandon && s.guard == None
    case CallerMarks => s.caller == Marking
    case CallerInspects => s.caller == Inspecting
    case CallerReleases => s.caller == Leaving
    case FinalCheck(_) => s.caller == HasResult
  }

  /** GivesUp stands for the timeout and for any exception in the wait, at any moment. */
  function After(s: State, step: Step): State
    requires Enabled(s, step)
  {
    match step
    case ActionReturns(response) => s.(reader := WantsGuard, value := if response then Response else Plain)
    case ActionRaises => s.(reader := ReaderDone, future := HasException)
    case ReaderAcquires => s.(reader := Checking, guard := Some(ReaderThread))
    case ReaderChecks => s.(reader := Publishing, closes := if s.abandoned then Closed(s) else s.closes)
    case ReaderPublishes => s.(reader := Releasing, future := HasValue)
    case ReaderReleases => s.(reader := ReaderDone, guard := None)
    case WakesWithValue => s.(caller := HasResult)
    case WakesWithException => s.(caller := WantsAbandon)
    case GivesUp => s.(caller := WantsAbandon)
    case CallerAcquires => s.(caller := Marking, guard := Some(CallerThread))
    case CallerMarks => s.(caller := Inspecting, abandoned := true)
    case CallerInspects => s.(caller := Leaving, closes := if s.future == HasValue then Closed(s) else s.closes)
    case CallerReleases => s.(caller := Raised, guard := None)
    case FinalCheck(inTime) => if inTime then s.(caller := Returned) else s.(caller := Raised, closes := Closed(s))
  }

  ghost predicate Behaviour(states: seq<State>, steps: seq<Step>) {
    && |states| == |steps| + 1 && states[0] == INITIAL
    && forall i {:trigger steps[i]} :: 0 <= i < |steps| ==> Enabled(states[i], steps[i]) && states[i + 1] == After(states[i], steps[i])
  }

  predicate ReaderInside(r: Reader) {
    r == Checking || r == Publishing || r == Releasing
  }

  predicate CallerInside(c: Caller) {
    c == Marking || c == Inspecting || c == Leaving
  }

  predicate CallerFinished(c: Caller) {
    c == Raised || c == Returned
  }

  /** Closed by now: the caller is past the point where it closes or hands over to the reader, and
      the reader, if the response was handed over to it, is past its check. */
  predicate ClosedByNow(s: State) {
    && s.value == Response
    && ((s.caller == Leaving && s.future == HasValue) || (s.caller == Raised && s.reader != WantsGuard && s.reader != Checking))
  }

  predicate Inv(s: State) {
    && (s.guard == Some(ReaderThread) <==> ReaderInside(s.reader))
    && (s.guard == Some(CallerThread) <==> CallerInside(s.caller))
    && (s.future == HasValue <==> s.reader == Releasing || (s.reader == ReaderDone && s.value != NoValue))
    && (s.future == HasException <==> s.reader == ReaderDone && s.value == NoValue)
    && (s.reader == Reading ==> s.value == NoValue)
    && (s.value == NoValue ==> s.reader == Reading || s.reader == ReaderDone)
    && (s.caller == HasResult || s.caller == Returned || (s.caller == Raised && !s.abandoned) ==> s.future == HasValue)
    && (s.caller == Inspecting || s.caller == Leaving ==> s.abandoned)
    && (s.abandoned ==> s.caller == Inspecting || s.caller == Leaving || s.caller == Raised)
    && s.closes == if ClosedByNow(s) then 1 else 0
  }

  lemma {:induction false} Reachable(states: seq<State>, steps: seq<Step>, n: nat)
    requires Behaviour(states, steps) && n <= |steps|
    ensures Inv(states[n])
  {
    if n > 0 {
      Reachable(states, steps, n - 1);
      StepKeeps(states[n - 1], steps[n - 1]);
    }
  }

  lemma StepKeeps(s: State, step: Step)
    requires Inv(s) && Enabled(s, step)
    ensures Inv(After(s, step))
  {
  }

  /** At every moment of every interleaving a response has been closed at most once, and never when
      it was returned to the caller. Once both threads have finished it was either returned, open,
      or closed exactly once; nothing else is ever closed. */
  lemma ReturnedOrClosedOnce(states: seq<State>, steps: seq<Step>)
    requires Behaviour(states, steps)
    ensures var s := states[|steps|];
      && s.closes <= 1 && (s.caller == Returned ==> s.closes == 0) && (s.value != Response ==> s.closes == 0)
      && (s.reader == ReaderDone && CallerFinished(s.caller) && s.value == Response ==>
            (s.caller == Returned && s.closes == 0) || (s.caller == Raised && s.closes == 1))
  {
    Reachable(states, steps, |steps|);
  }

  /** A caller that returns has the value, so an exception or a missed deadline always raises. */
  lemma ReturnsOnlyValues(states: seq<State>, steps: seq<Step>)
    requires Behaviour(states, steps) && states[|steps|].caller == Returned
    ensures states[|steps|].value != NoValue && states[|steps|].future == HasValue && !states[|steps|].abandoned
  {
    Reachable(states, steps, |steps|);
  }

  lemma OneMoreStep(steps: seq<Step>, n: nat, step: Step)
    requires n < |steps|
    ensures step in steps[..n + 1] <==> step in steps[..n] || steps[n] == step
  {
    assert steps[..n + 1] == steps[..n] + [steps[n]];
  }

  /** What the action gave. */
  ghost predicate ActionGave(s: State, steps: seq<Step>) {
    && (s.value == Response <==> ActionReturns(true) in steps) && (s.value == Plain <==> ActionReturns(false) in steps)
    && (s.reader == Reading ==> s.value == NoValue)
    && (s.future == HasException <==> ActionRaises in steps) && (WakesWithException in steps ==> ActionRaises in steps)
  }

  /** What has become of the caller: returned exactly after a final check in time, raised after a late
      one, and never to return once it gave up or woke with an exception. */
  ghost predicate CallerDid(s: State, steps: seq<Step>) {
    && (s.caller == Returned <==> FinalCheck(true) in steps)
    && (FinalCheck(false) in steps ==> s.caller == Raised)
    && (GivesUp in steps || WakesWithException in steps ==> s.caller != Waiting && s.caller != HasResult && s.caller != Returned)
    && (s.caller == HasResult || s.caller == Returned ==> WakesWithValue in steps)
  }

  lemma {:induction false} ActionFollows(states: seq<State>, steps: seq<Step>, n: nat)
    requires Behaviour(states, steps) && n <= |steps|
    ensures ActionGave(states[n], steps[..n])
  {
    if n > 0 {
      ActionFollows(states, steps, n - 1);
      Reachable(states, steps, n - 1);
      assert Enabled(states[n - 1], steps[n - 1]) && states[n] == After(states[n - 1], steps[n - 1]);
      OneMoreStep(steps, n - 1, ActionReturns(true));
      OneMoreStep(steps, n - 1, ActionReturns(false));
      OneMoreStep(steps, n - 1, ActionRaises);
      OneMoreStep(steps, n - 1, WakesWithException);
      ActionStep(states[n - 1], steps[n - 1], steps[..n - 1], steps[..n]);
    }
  }

  lemma ActionStep(s: State, step: Step, before: seq<Step>, steps: seq<Step>)
    requires Inv(s) && Enabled(s, step) && ActionGave(s, before)
    requires forall x :: x in {ActionReturns(true), ActionReturns(false), ActionRaises, WakesWithException} ==> (x in steps <==> x in before || step == x)
    ensures ActionGave(After(s, step), steps)
  {
  }

  lemma {:induction false} CallerFollows(states: seq<State>, steps: seq<Step>, n: nat)
    requires Behaviour(states, steps) && n <= |steps|
    ensures CallerDid(states[n], steps[..n])
  {
    if n > 0 {
      CallerFollows(states, steps, n - 1);
      assert Enabled(states[n - 1], steps[n - 1]) && states[n] == After(states[n - 1], steps[n - 1]);
      OneMoreStep(steps, n - 1, FinalCheck(true));
      OneMoreStep(steps, n - 1, FinalCheck(false));
      OneMoreStep(steps, n - 1, GivesUp);
      OneMoreStep(steps, n - 1, WakesWithException);
      OneMoreStep(steps, n - 1, WakesWithValue);
      CallerStep(states[n - 1], steps[n - 1], steps[..n - 1], steps[..n]);
    }
  }

  lemma CallerStep(s: State, step: Step, before: seq<Step>, steps: seq<Step>)
    requires Enabled(s, step) && CallerDid(s, before)
    requires forall x :: x in {FinalCheck(true), FinalCheck(false), GivesUp, WakesWithException, WakesWithValue} ==> (x in steps <==> x in before || step == x)
    ensures CallerDid(After(s, step), steps)
  {
  }

  /** A response is what the action returned as one. The final check decides: a caller returns, its
      response open, exactly when that check is made in time; after a late one it has raised and its response is closed, and so it is when the wait
      ended without a value once both threads are done. */
  lemma FinalCheckDecides(states: seq<State>, steps: seq<Step>)
    requires Behaviour(states, steps)
    ensures var s := states[|steps|];
      && (s.value == Response <==> ActionReturns(true) in steps) && (s.value == Plain <==> ActionReturns(false) in steps)
      && (WakesWithException in steps ==> ActionRaises in steps)
      && (s.caller == Returned <==> FinalCheck(true) in steps)
      && (FinalCheck(true) in steps ==> s.closes == 0 && WakesWithValue in steps)
      && (FinalCheck(false) in steps ==> s.caller == Raised && (s.value == Response ==> s.closes == 1))
      && (CallerFinished(s.caller) && (GivesUp in steps || WakesWithException in steps) ==>
            s.caller == Raised && (s.reader == ReaderDone && s.value == Response ==> s.closes == 1))
  {
    assert steps[..|steps|] == steps;
    ActionFollows(states, steps, |steps|);
    CallerFollows(states, steps, |steps|);
    Reachable(states, steps, |steps|);
    if FinalCheck(false) in steps {
      CheckedLate(states, steps, |steps|);
    }
  }

  /** A caller that had a result did not abandon the read, and the reader has published it. */
  lemma {:induction false} CheckedLate(states: seq<State>, steps: seq<Step>, n: nat)
    requires Behaviour(states, steps) && n <= |steps| && FinalCheck(false) in steps[..n]
    ensures states[n].caller == Raised && states[n].future == HasValue
  {
    OneMoreStep(steps, n - 1, FinalCheck(false));
    Reachable(states, steps, n - 1);
    assert Enabled(states[n - 1], steps[n - 1]) && states[n] == After(states[n - 1], steps[n - 1]);
    if FinalCheck(false) in steps[..n - 1] {
      CheckedLate(states, steps, n - 1);
    }
  }

  function ReaderLeft(r: Reader): nat {
    match r
    case Reading => 5
    case WantsGuard => 4
    case Checking => 3
    case Publishing => 2
    case Releasing => 1
    case ReaderDone => 0
  }

  function CallerLeft(c: Caller): nat {
    match c
    case Waiting => 5
    case WantsAbandon => 4
    case Marking => 3
    case Inspecting => 2
    case Leaving => 1
    case HasResult => 1
    case Raised => 0
    case Returned => 0
  }

  /** No interleaving is longer than ten steps. */
  lemma {:induction false} EveryRunEnds(states: seq<State>, steps: seq<Step>, n: nat)
    requires Behaviour(states, steps) && n <= |steps|
    ensures n + ReaderLeft(states[n].reader) + CallerLeft(states[n].caller) <= 10
  {
    if n > 0 {
      EveryRunEnds(states, steps, n - 1);
      assert Enabled(states[n - 1], steps[n - 1]);
    }
  }

  lemma GuardHolder(s: State)
    ensures s.guard == None || s.guard == Some(ReaderThread) || s.guard == Some(CallerThread)
  {
    if s.guard != None {
      match s.guard.value
      case ReaderThread =>
      case CallerThread =>
    }
  }

  /** The caller is never stuck behind a blocked read: until it has finished it can take a step, or
      the reader is inside the guard and can take the step that brings it closer to leaving. */
  lemma CallerNeverStuck(states: seq<State>, steps: seq<Step>) returns (step: Step)
    requires Behaviour(states, steps) && !CallerFinished(states[|steps|].caller)
    ensures Enabled(states[|steps|], step) && !step.ActionReturns? && !step.ActionRaises?
    ensures var s := states[|steps|]; var t := After(s, step);
      CallerLeft(t.caller) < CallerLeft(s.caller) || (ReaderInside(s.reader) && ReaderLeft(t.reader) < ReaderLeft(s.reader))
  {
    Reachable(states, steps, |steps|);
    var s := states[|steps|];
    GuardHolder(s);
    match s.caller
    case Waiting => step := GivesUp;
    case WantsAbandon =>
      step := match s.reader
        case Checking => ReaderChecks
        case Publishing => ReaderPublishes
        case Releasing => ReaderReleases
        case _ => CallerAcquires;
    case Marking => step := CallerMarks;
    case Inspecting => step := CallerInspects;
    case Leaving => step := CallerReleases;
    case HasResult => step := FinalCheck(true);
    case _ => assert false;
  }

  /** Nor is the reader, once its action has come back. */
  lemma ReaderNeverStuck(states: seq<State>, steps: seq<Step>) returns (step: Step)
    requires Behaviour(states, steps) && states[|steps|].reader != ReaderDone && states[|steps|].reader != Reading
    ensures Enabled(states[|steps|], step)
    ensures var s := states[|steps|]; var t := After(s, step);
      ReaderLeft(t.reader) < ReaderLeft(s.reader) || (CallerInside(s.caller) && CallerLeft(t.caller) < CallerLeft(s.caller))
  {
    Reachable(states, steps, |steps|);
    var s := states[|steps|];
    GuardHolder(s);
    match s.reader
    case WantsGuard =>
      step := match s.caller
        case Marking => CallerMarks
        case Inspecting => CallerInspects
        case Leaving => CallerReleases
        case _ => ReaderAcquires;
    case Checking => step := ReaderChecks;
    case Publishing => step := ReaderPublishes;
    case Releasing => step := ReaderReleases;
    case _ => assert false;
  }
}
