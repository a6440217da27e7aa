/** What a `me()` call answers, told by what its own requests came back with and what its own reads found. */
module ClientOutcome {
  import opened Prelude
  import opened ClientRefresh

  /** The step is a profile read of the call that came back. */
  predicate Reads(step: Step, c: nat) {
    step.call == c && (step.FirstAnswer? || step.SecondAnswer?)
  }

  /** What the last profile read of the call came back with. */
  function LastRead(steps: seq<Step>, c: nat): Option<Answer> {
    if steps == [] then None
    else
      var rest := LastRead(steps[1..], c);
      if rest.None? && Reads(steps[0], c) then Some(steps[0].answer) else rest
  }

  /** The step looks into the slot for the call. */
  predicate Looks(step: Step, c: nat) {
    step.call == c && (step.ReadAccess? || step.ReadRefresh? || step.ReadAgain?)
  }

  /** The call finds the slot empty somewhere along the run. */
  ghost predicate FindsNothing(y: Client, steps: seq<Step>, c: nat)
    requires Runs(y, steps)
    decreases |steps|
  {
    steps != [] && ((Looks(steps[0], c) && y.slot.None?) || FindsNothing(Apply(y, steps[0]), steps[1..], c))
  }

  /** The backend lets the call down: its first read fails other than by a 401, its second read does not
      succeed, or its refresh is not answered with a pair. */
  predicate LetsDown(step: Step, c: nat) {
    && step.call == c
    && match step
       case FirstAnswer(_, answer) => answer.Failed?
       case SecondAnswer(_, answer) => !answer.Success?
       case RefreshAnswer(_, rotation) => !rotation.Rotated?
       case _ => false
  }

  predicate IsLetDown(steps: seq<Step>, c: nat) {
    exists i | 0 <= i < |steps| :: LetsDown(steps[i], c)
  }

  lemma LetDownFirst(steps: seq<Step>, c: nat)
    requires steps != []
    ensures IsLetDown(steps, c) <==> LetsDown(steps[0], c) || IsLetDown(steps[1..], c)
  {
    if IsLetDown(steps, c) {
      var i :| 0 <= i < |steps| && LetsDown(steps[i], c);
      assert i > 0 ==> steps[1..][i - 1] == steps[i];
    }
    if IsLetDown(steps[1..], c) {
      var i :| 0 <= i < |steps[1..]| && LetsDown(steps[1..][i], c);
      assert steps[i + 1] == steps[1..][i];
    }
  }

  /** One step of the call ends it exactly when it is told so. */
  lemma StepTells(y: Client, step: Step)
    requires Enabled(y, step)
    ensures var p := Apply(y, step).calls[step.call];
            && !y.calls[step.call].Done?
            && (p == Done(User) <==> Reads(step, step.call) && step.answer.Success?)
            && (p == Done(NoSession) <==> Looks(step, step.call) && y.slot.None?)
            && (p == Done(Error) <==> LetsDown(step, step.call))
  {
  }

  /** A finished call does nothing more. */
  lemma {:induction false} DoneIsSilent(y: Client, steps: seq<Step>, c: nat)
    requires Runs(y, steps) && c < |y.calls| && y.calls[c].Done?
    ensures c < |End(y, steps).calls| && End(y, steps).calls[c] == y.calls[c]
    ensures LastRead(steps, c).None? && !FindsNothing(y, steps, c) && !IsLetDown(steps, c)
    decreases |steps|
  {
    if steps != [] {
      StepTells(y, steps[0]);
      OthersStay(y, steps[0], c);
      DoneIsSilent(Apply(y, steps[0]), steps[1..], c);
      LetDownFirst(steps, c);
    }
  }

  lemma {:induction false} OutcomeFrom(y: Client, steps: seq<Step>, c: nat)
    requires Runs(y, steps) && c < |y.calls| && !y.calls[c].Done?
    ensures c < |End(y, steps).calls|
    ensures End(y, steps).calls[c] == Done(User) <==> LastRead(steps, c) == Some(Success)
    ensures End(y, steps).calls[c] == Done(NoSession) <==> FindsNothing(y, steps, c)
    ensures End(y, steps).calls[c] == Done(Error) <==> IsLetDown(steps, c)
    decreases |steps|
  {
    if steps != [] {
      var z := Apply(y, steps[0]);
      LetDownFirst(steps, c);
      if steps[0].call == c {
        StepTells(y, steps[0]);
      } else {
        OthersStay(y, steps[0], c);
      }
      if z.calls[c].Done? {
        DoneIsSilent(z, steps[1..], c);
      } else {
        OutcomeFrom(z, steps[1..], c);
      }
    }
  }

  /** In every run, a call over to come has answered the user exactly when its last profile read succeeded, the
      missing session exactly when it found the slot empty, and an error exactly when the backend let it down. */
  lemma OutcomeIff(y: Client, steps: seq<Step>, c: nat)
    requires Runs(y, steps) && c < |y.calls| && y.calls[c].Idle?
    ensures c < |End(y, steps).calls|
    ensures End(y, steps).calls[c] == Done(User) <==> LastRead(steps, c) == Some(Success)
    ensures End(y, steps).calls[c] == Done(NoSession) <==> FindsNothing(y, steps, c)
    ensures End(y, steps).calls[c] == Done(Error) <==> IsLetDown(steps, c)
  {
    OutcomeFrom(y, steps, c);
  }

  /** Over a stored session no call finds the slot empty: a refresh only replaces it. */
  lemma {:induction false} NeverEmpty(y: Client, steps: seq<Step>, c: nat)
    requires Runs(y, steps) && y.slot.Some?
    ensures End(y, steps).slot.Some? && !FindsNothing(y, steps, c)
    decreases |steps|
  {
    if steps != [] {
      NeverEmpty(Apply(y, steps[0]), steps[1..], c);
    }
  }

  // What makes a call refresh.

  /** The phases a call only gets to by a 401. */
  predicate Stale(p: Phase) {
    p.Queued? || Inside(p) || p.Retrying? || p.Refetching? || p.Done?
  }

  lemma StepToStale(y: Client, step: Step)
    requires Enabled(y, step) && !Stale(y.calls[step.call])
    ensures Sends(y, step) == false
    ensures Stale(Apply(y, step).calls[step.call]) ==>
              step == FirstAnswer(step.call, Unauthorized) || Apply(y, step).calls[step.call].Done?
  {
  }

  lemma {:induction false} SendsAfter401(y: Client, steps: seq<Step>, c: nat, n: nat)
    requires Runs(y, steps) && c < |y.calls| && !Stale(y.calls[c]) && n < |steps| && steps[n] == ReadRefresh(c)
    ensures FirstAnswer(c, Unauthorized) in steps[..n]
    decreases |steps|
  {
    var step, z := steps[0], Apply(y, steps[0]);
    if step.call == c {
      StepToStale(y, step);
    } else {
      OthersStay(y, step, c);
    }
    if n > 0 && step != FirstAnswer(c, Unauthorized) {
      assert steps[1..][n - 1] == steps[n];
      if z.calls[c].Done? {
        DoneStays(z, steps[1..], c, n - 1);
      } else {
        SendsAfter401(z, steps[1..], c, n - 1);
        assert steps[1..][..n - 1] == steps[..n][1..];
      }
    }
  }

  lemma {:induction false} DoneStays(y: Client, steps: seq<Step>, c: nat, n: nat)
    requires Runs(y, steps) && c < |y.calls| && y.calls[c].Done? && n < |steps|
    ensures steps[n].call != c
    decreases |steps|
  {
    OthersStay(y, steps[0], c);
    if n > 0 {
      DoneStays(Apply(y, steps[0]), steps[1..], c, n - 1);
    }
  }

  /** A call sends a refresh only after its first profile read came back with a 401. */
  lemma RefreshNeeds401(y: Client, steps: seq<Step>, c: nat, n: nat)
    requires Runs(y, steps) && c < |y.calls| && y.calls[c].Idle? && n < |steps| && steps[n] == ReadRefresh(c)
    ensures FirstAnswer(c, Unauthorized) in steps[..n]
  {
    SendsAfter401(y, steps, c, n);
  }
}
