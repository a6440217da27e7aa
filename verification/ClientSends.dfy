/**
 How many refreshes are sent for one access token that failed, over every interleaving: a balance between
 requests and replies, and exactly when a second request is sent.
 */
module ClientSends {
  import opened Prelude
  import opened ClientRefresh

  /** The step sends a refresh for a call that failed with `a`. */
  ghost predicate SendsFor(y: Client, step: Step, a: Token)
    requires Enabled(y, step)
  {
    Sends(y, step) && y.calls[step.call].stale == a
  }

  /** The reply is an error, whether or not the backend rotated. */
  ghost predicate FailsFor(y: Client, step: Step, a: Token)
    requires Enabled(y, step)
  {
    step.RefreshAnswer? && !step.rotation.Rotated? && y.calls[step.call].stale == a
  }

  ghost predicate StoresFor(y: Client, step: Step, a: Token)
    requires Enabled(y, step)
  {
    step.StoreTokens? && y.calls[step.call].stale == a
  }

  function One(b: bool): nat {
    if b then 1 else 0
  }

  /** How many refreshes a run sends for `a`. */
  ghost function Sent(y: Client, steps: seq<Step>, a: Token): nat
    requires Runs(y, steps)
    decreases |steps|
  {
    if steps == [] then 0 else One(SendsFor(y, steps[0], a)) + Sent(Apply(y, steps[0]), steps[1..], a)
  }

  /** How many of its refreshes for `a` fail. */
  ghost function Failed(y: Client, steps: seq<Step>, a: Token): nat
    requires Runs(y, steps)
    decreases |steps|
  {
    if steps == [] then 0 else One(FailsFor(y, steps[0], a)) + Failed(Apply(y, steps[0]), steps[1..], a)
  }

  /** A refresh for `a` that was sent and is neither stored nor failed. */
  predicate InFlight(p: Phase, a: Token) {
    (p.Refreshing? || p.Storing?) && p.stale == a
  }

  function Flying(calls: seq<Phase>, a: Token): nat {
    if calls == [] then 0 else One(InFlight(calls[0], a)) + Flying(calls[1..], a)
  }

  lemma {:induction false} FlyingUpdate(calls: seq<Phase>, c: nat, p: Phase, a: Token)
    requires c < |calls|
    ensures Flying(calls[c := p], a) + One(InFlight(calls[c], a)) == Flying(calls, a) + One(InFlight(p, a))
  {
    if c == 0 {
      assert calls[0 := p][1..] == calls[1..];
    } else {
      assert calls[c := p][1..] == calls[1..][c - 1 := p];
      FlyingUpdate(calls[1..], c - 1, p, a);
    }
  }

  /** A step only moves its own call. */
  lemma StepUpdates(y: Client, step: Step)
    requires Enabled(y, step)
    ensures |Apply(y, step).calls| == |y.calls|
    ensures Apply(y, step).calls == y.calls[step.call := Apply(y, step).calls[step.call]]
  {
  }

  lemma MoverBalances(y: Client, step: Step, a: Token)
    requires Enabled(y, step)
    ensures One(SendsFor(y, step, a)) + One(InFlight(y.calls[step.call], a)) ==
            One(StoresFor(y, step, a)) + One(FailsFor(y, step, a)) + One(InFlight(Apply(y, step).calls[step.call], a))
  {
  }

  lemma StepBalances(y: Client, step: Step, a: Token)
    requires Enabled(y, step)
    ensures One(SendsFor(y, step, a)) + Flying(y.calls, a) ==
            One(StoresFor(y, step, a)) + One(FailsFor(y, step, a)) + Flying(Apply(y, step).calls, a)
  {
    StepUpdates(y, step);
    MoverBalances(y, step, a);
    FlyingUpdate(y.calls, step.call, Apply(y, step).calls[step.call], a);
  }

  /** Every refresh that was sent is stored, has failed, or is still in flight. */
  lemma {:induction false} RunBalances(y: Client, steps: seq<Step>, a: Token)
    requires Runs(y, steps)
    ensures Sent(y, steps, a) + Flying(y.calls, a) ==
            Stores(y, steps, a) + Failed(y, steps, a) + Flying(End(y, steps).calls, a)
    decreases |steps|
  {
    if steps != [] {
      StepBalances(y, steps[0], a);
      RunBalances(Apply(y, steps[0]), steps[1..], a);
    }
  }

  // At most one is in flight, and only for the token that is held.

  lemma {:induction false} NoneFlying(calls: seq<Phase>, a: Token)
    requires forall c | 0 <= c < |calls| :: !InFlight(calls[c], a)
    ensures Flying(calls, a) == 0
  {
    if calls != [] {
      NoneFlying(calls[1..], a);
    }
  }

  lemma {:induction false} OneFlying(calls: seq<Phase>, a: Token, holder: int)
    requires forall c | 0 <= c < |calls| && InFlight(calls[c], a) :: c == holder
    ensures Flying(calls, a) <= 1
    ensures Flying(calls, a) == 1 ==> 0 <= holder < |calls| && InFlight(calls[holder], a)
  {
    if calls != [] {
      if InFlight(calls[0], a) {
        NoneFlying(calls[1..], a);
      } else {
        OneFlying(calls[1..], a, holder - 1);
      }
    }
  }

  lemma FlyingIsHeld(y: Client, a: Token)
    requires Exclusive(y) && PhasesOk(y)
    ensures Flying(y.calls, a) <= 1
    ensures Flying(y.calls, a) == 1 ==> Held(y, a)
  {
    var holder: int := if y.lock.Some? then y.lock.value else -1;
    OneFlying(y.calls, a, holder);
    if Flying(y.calls, a) == 1 {
      assert PhaseOk(y, y.calls[holder]);
    }
  }

  lemma HeldIsCurrent(y: Client, a: Token)
    requires Held(y, a)
    ensures StoresLeft(y, a) == 1
  {
  }

  /** So, from calls about to be made over one stored session, what was sent for a token is what failed, and
      at most one more: the one that was stored, or the one in flight. */
  lemma SentIsFailedAndOneMore(y: Client, steps: seq<Step>, a: Token)
    requires Initial(y) && y.slot.Some? && Runs(y, steps)
    ensures Sent(y, steps, a) == Failed(y, steps, a) + Stores(y, steps, a) + Flying(End(y, steps).calls, a)
    ensures Stores(y, steps, a) + Flying(End(y, steps).calls, a) <= 1
  {
    NoneFlying(y.calls, a);
    RunBalances(y, steps, a);
    RunKeeps(y, steps);
    OneRotationPerToken(y, steps, a);
    FlyingIsHeld(End(y, steps), a);
    if Flying(End(y, steps).calls, a) == 1 {
      HeldIsCurrent(End(y, steps), a);
    }
  }

  /** Without a failed reply, concurrent failures of one access token send one refresh between them. */
  lemma OneSentWithoutFailure(y: Client, steps: seq<Step>, a: Token)
    requires Initial(y) && y.slot.Some? && Runs(y, steps) && Failed(y, steps, a) == 0
    ensures Sent(y, steps, a) <= 1
  {
    SentIsFailedAndOneMore(y, steps, a);
  }

  // Exactly when a second one is sent.

  /** Some refresh for `a` is sent after one for `a` failed. */
  ghost predicate SendsAgain(y: Client, steps: seq<Step>, a: Token, failed: bool)
    requires Runs(y, steps)
    decreases |steps|
  {
    steps != [] &&
    ((failed && SendsFor(y, steps[0], a))
     || SendsAgain(Apply(y, steps[0]), steps[1..], a, failed || FailsFor(y, steps[0], a)))
  }

  /** Who sends is alone inside, and sends for the token that is held. */
  lemma SenderIsAlone(y: Client, step: Step, a: Token)
    requires Exclusive(y) && PhasesOk(y) && Enabled(y, step) && SendsFor(y, step, a)
    ensures Flying(y.calls, a) == 0 && Held(y, a)
  {
    assert PhaseOk(y, y.calls[step.call]);
    forall c | 0 <= c < |y.calls|
      ensures !InFlight(y.calls[c], a)
    {
      assert Inside(y.calls[c]) ==> y.lock == Some(c);
      assert y.lock == Some(step.call);
    }
    NoneFlying(y.calls, a);
  }

  /** What a step makes of the account: `sent`, `failed` and `stored` so far. */
  ghost predicate Account(y: Client, a: Token, sent: nat, failed: nat, stored: nat) {
    sent == failed + stored + Flying(y.calls, a) && stored + StoresLeft(y, a) <= 1
  }

  lemma StepAccounts(y: Client, step: Step, a: Token, sent: nat, failed: nat, stored: nat)
    requires Inv(y) && y.slot.Some? && Enabled(y, step) && Account(y, a, sent, failed, stored)
    ensures Account(Apply(y, step), a, sent + One(SendsFor(y, step, a)), failed + One(FailsFor(y, step, a)),
                    stored + One(StoresFor(y, step, a)))
    ensures SendsFor(y, step, a) ==> sent == failed
    ensures FailsFor(y, step, a) ==> sent == failed + 1
  {
    StepBalances(y, step, a);
    StepForward(y, step);
    StoreUsesUp(y, step, a);
    FlyingIsHeld(y, a);
    if SendsFor(y, step, a) {
      SenderIsAlone(y, step, a);
      HeldIsCurrent(y, a);
    }
    if FailsFor(y, step, a) {
      StepBalances(y, step, a);
      HeldIsCurrent(y, a);
    }
  }

  lemma {:induction false} SecondSend(y: Client, steps: seq<Step>, a: Token, sent: nat, failed: nat, stored: nat)
    requires Inv(y) && y.slot.Some? && Runs(y, steps) && Account(y, a, sent, failed, stored) && sent <= 1
    ensures sent + Sent(y, steps, a) >= 2 <==> SendsAgain(y, steps, a, failed > 0)
    decreases |steps|
  {
    if steps != [] {
      var step := steps[0];
      StepAccounts(y, step, a, sent, failed, stored);
      StepForward(y, step);
      if !(failed > 0 && SendsFor(y, step, a)) {
        SecondSend(Apply(y, step), steps[1..], a, sent + One(SendsFor(y, step, a)), failed + One(FailsFor(y, step, a)),
                   stored + One(StoresFor(y, step, a)));
      }
    }
  }

  /** Two or more refreshes are sent for one access token exactly when one is sent after another's reply
      was an error, or never got to its caller because the call was dropped. */
  lemma SecondSendIff(y: Client, steps: seq<Step>, a: Token)
    requires Initial(y) && y.slot.Some? && Runs(y, steps)
    ensures Sent(y, steps, a) >= 2 <==> SendsAgain(y, steps, a, false)
  {
    NoneFlying(y.calls, a);
    InitialIsSound(y);
    SecondSend(y, steps, a, 0, 0, 0);
  }

  lemma InitialIsSound(y: Client)
    requires Initial(y)
    ensures Inv(y)
  {
  }

  // The case that sends two.

  lemma OneMore(y: Client, step: Step, rest: seq<Step>, a: Token)
    requires Enabled(y, step) && Runs(Apply(y, step), rest)
    ensures Runs(y, [step] + rest) && End(y, [step] + rest) == End(Apply(y, step), rest)
    ensures Sent(y, [step] + rest, a) == One(SendsFor(y, step, a)) + Sent(Apply(y, step), rest, a)
  {
    assert ([step] + rest)[1..] == rest;
  }

  /** A call that failed with the held token and may take the lock sends a refresh, and the reply is an
      error. */
  lemma RefusedRefresh(y: Client, c: nat, a: Token) returns (steps: seq<Step>)
    requires c < |y.calls| && y.calls[c] == Queued(a) && y.lock.None? && Held(y, a)
    ensures Runs(y, steps) && Sent(y, steps, a) == 1
    ensures End(y, steps) == y.(calls := y.calls[c := Done(Error)])
  {
    var y1 := Apply(y, Acquire(c));
    var y2 := Apply(y1, Recheck(c));
    var y3 := Apply(y2, ReadRefresh(c));
    var y4 := Apply(y3, RefreshAnswer(c, Refused));
    assert y4 == y.(calls := y.calls[c := Done(Error)]);
    OneMore(y3, RefreshAnswer(c, Refused), [], a);
    OneMore(y2, ReadRefresh(c), [RefreshAnswer(c, Refused)] + [], a);
    OneMore(y1, Recheck(c), [ReadRefresh(c)] + ([RefreshAnswer(c, Refused)] + []), a);
    OneMore(y, Acquire(c), [Recheck(c)] + ([ReadRefresh(c)] + ([RefreshAnswer(c, Refused)] + [])), a);
    steps := [Acquire(c)] + ([Recheck(c)] + ([ReadRefresh(c)] + ([RefreshAnswer(c, Refused)] + [])));
  }

  lemma {:induction false} Concat(y: Client, first: seq<Step>, second: seq<Step>, a: Token)
    requires Runs(y, first) && Runs(End(y, first), second)
    ensures Runs(y, first + second) && End(y, first + second) == End(End(y, first), second)
    ensures Sent(y, first + second, a) == Sent(y, first, a) + Sent(End(y, first), second, a)
    decreases |first|
  {
    if first == [] {
      assert first + second == second;
    } else {
      Concat(Apply(y, first[0]), first[1..], second, a);
      assert (first + second)[1..] == first[1..] + second;
    }
  }

  /** Any two calls that failed with the held token: the first one's refresh is refused, and the second one
      sends again. */
  lemma TwoAreSent(y: Client, c: nat, d: nat, a: Token) returns (steps: seq<Step>)
    requires c < |y.calls| && d < |y.calls| && c != d && y.calls[c] == Queued(a) && y.calls[d] == Queued(a)
    requires y.lock.None? && Held(y, a)
    ensures Runs(y, steps) && Sent(y, steps, a) == 2
  {
    var first := RefusedRefresh(y, c, a);
    var second := RefusedRefresh(End(y, first), d, a);
    Concat(y, first, second, a);
    steps := first + second;
  }

  /** Which two calls about to be made over one stored session reach. */
  lemma TwoCallsSendTwo(y: Client, a: Token) returns (steps: seq<Step>)
    requires Initial(y) && |y.calls| == 2 && Held(y, a)
    ensures Runs(y, steps) && Sent(y, steps, a) == 2
  {
    var y1 := Apply(y, ReadAccess(0));
    var y2 := Apply(y1, ReadAccess(1));
    var y3 := Apply(y2, FirstAnswer(0, Unauthorized));
    var y4 := Apply(y3, FirstAnswer(1, Unauthorized));
    var rest := TwoAreSent(y4, 0, 1, a);
    OneMore(y3, FirstAnswer(1, Unauthorized), rest, a);
    OneMore(y2, FirstAnswer(0, Unauthorized), [FirstAnswer(1, Unauthorized)] + rest, a);
    OneMore(y1, ReadAccess(1), [FirstAnswer(0, Unauthorized)] + ([FirstAnswer(1, Unauthorized)] + rest), a);
    steps := [ReadAccess(1)] + ([FirstAnswer(0, Unauthorized)] + ([FirstAnswer(1, Unauthorized)] + rest));
    OneMore(y, ReadAccess(0), steps, a);
    steps := [ReadAccess(0)] + steps;
  }
}
