/**
 The single-flight refresh of the native client: any number of `me()` calls over one token slot and
 one refresh lock, against a backend that may answer anything.

 A call is a phase; a step is what one call does between two points where another may run. The
 backend is known only to issue access tokens that differ from one another. Its answers, and the
 order of everything, are unconstrained.
 */
module ClientRefresh {
  import opened Prelude

  type Token = string

  /** The stored session. */
  datatype Pair = Pair(access: Token, refresh: Token)

  /** What the backend remembers of one access token: the refresh token it was issued with, and its
      place in the order of issue. */
  datatype Issue = Issue(refresh: Token, rank: nat)

  /** What a request comes back with, as far as `me` tells answers apart. */
  datatype Answer = Success | Unauthorized | Failed

  /** What `POST /auth/refresh` comes back with: a new pair; an error; or an error after the backend
      did rotate, so that the pair is lost. A caller that drops the `me()` future while the refresh is under
      way releases the lock just as an error does, so `Refused` and `Lost` stand for that too: for a request
      the backend never answered with a pair, and for one it did. */
  datatype Rotation = Rotated(pair: Pair) | Refused | Lost(pair: Pair)

  datatype Outcome = User | NoSession | Error

  /** Where one `me()` call stands. `stale` is the access token its first request failed with. */
  datatype Phase =
    | Idle
    | Fetching(access: Token)
    | Queued(stale: Token)
    | Holding(stale: Token)
    | MustRefresh(stale: Token)
    | Refreshing(stale: Token, sent: Token)
    | Storing(stale: Token, sent: Token, pair: Pair)
    | Retrying(stale: Token)
    | Refetching(stale: Token, access: Token)
    | Done(outcome: Outcome)

  datatype Client = Client(
    slot: Option<Pair>,
    lock: Option<nat>,
    calls: seq<Phase>,
    issued: map<Token, Issue>,
    next: nat)

  /** One atomic section of call `call`. */
  datatype Step =
    | ReadAccess(call: nat)
    | FirstAnswer(call: nat, answer: Answer)
    | Acquire(call: nat)
    | Recheck(call: nat)
    | ReadRefresh(call: nat)
    | RefreshAnswer(call: nat, rotation: Rotation)
    | StoreTokens(call: nat)
    | ReadAgain(call: nat)
    | SecondAnswer(call: nat, answer: Answer)

  predicate Enabled(y: Client, step: Step) {
    && step.call < |y.calls|
    && var p := y.calls[step.call];
       match step
       case ReadAccess(_) => p.Idle?
       case FirstAnswer(_, _) => p.Fetching?
       case Acquire(_) => p.Queued? && y.lock.None?
       case Recheck(_) => p.Holding?
       case ReadRefresh(_) => p.MustRefresh?
       case RefreshAnswer(_, rotation) =>
         p.Refreshing? && (rotation.Refused? || rotation.pair.access !in y.issued)
       case StoreTokens(_) => p.Storing?
       case ReadAgain(_) => p.Retrying?
       case SecondAnswer(_, _) => p.Refetching?
  }

  /** The call moves to `phase`. */
  function Move(y: Client, call: nat, phase: Phase): Client
    requires call < |y.calls|
  {
    y.(calls := y.calls[call := phase])
  }

  /** The call leaves `refresh_single_flight`, and its guard is dropped. */
  function Leave(y: Client, call: nat, phase: Phase): Client
    requires call < |y.calls|
  {
    Move(y, call, phase).(lock := None)
  }

  /** The backend issues a pair. */
  function Issued(y: Client, pair: Pair): Client {
    y.(issued := y.issued[pair.access := Issue(pair.refresh, y.next)], next := y.next + 1)
  }

  function Settled(answer: Answer): Outcome {
    if answer.Success? then User else Error
  }

  function Apply(y: Client, step: Step): Client
    requires Enabled(y, step)
  {
    var c := step.call;
    var p := y.calls[c];
    match step
    case ReadAccess(_) =>
      if y.slot.None? then Move(y, c, Done(NoSession)) else Move(y, c, Fetching(y.slot.value.access))
    case FirstAnswer(_, answer) =>
      if answer.Unauthorized? then Move(y, c, Queued(p.access)) else Move(y, c, Done(Settled(answer)))
    case Acquire(_) => Move(y, c, Holding(p.stale)).(lock := Some(c))
    case Recheck(_) =>
      if y.slot.Some? && y.slot.value.access != p.stale then Leave(y, c, Retrying(p.stale))
      else Move(y, c, MustRefresh(p.stale))
    case ReadRefresh(_) =>
      if y.slot.None? then Leave(y, c, Done(NoSession))
      else Move(y, c, Refreshing(p.stale, y.slot.value.refresh))
    case RefreshAnswer(_, rotation) =>
      (match rotation
       case Rotated(pair) => Move(Issued(y, pair), c, Storing(p.stale, p.sent, pair))
       case Refused => Leave(y, c, Done(Error))
       case Lost(pair) => Leave(Issued(y, pair), c, Done(Error)))
    case StoreTokens(_) => Leave(y, c, Retrying(p.stale)).(slot := Some(p.pair))
    case ReadAgain(_) =>
      if y.slot.None? then Move(y, c, Done(NoSession))
      else Move(y, c, Refetching(p.stale, y.slot.value.access))
    case SecondAnswer(_, answer) => Move(y, c, Done(Settled(answer)))
  }

  ghost predicate Runs(y: Client, steps: seq<Step>)
    decreases |steps|
  {
    steps != [] ==> Enabled(y, steps[0]) && Runs(Apply(y, steps[0]), steps[1..])
  }

  ghost function End(y: Client, steps: seq<Step>): Client
    requires Runs(y, steps)
    decreases |steps|
  {
    if steps == [] then y else End(Apply(y, steps[0]), steps[1..])
  }

  // What every step keeps.

  /** The phases inside `refresh_single_flight` once the lock is taken. */
  predicate Inside(p: Phase) {
    p.Holding? || p.MustRefresh? || p.Refreshing? || p.Storing?
  }

  /** `a` was issued before the token the client holds. */
  predicate Superseded(y: Client, a: Token) {
    && y.slot.Some? && a in y.issued && y.slot.value.access in y.issued
    && y.issued[a].rank < y.issued[y.slot.value.access].rank
  }

  predicate Held(y: Client, a: Token) {
    y.slot.Some? && y.slot.value.access == a
  }

  ghost predicate PhaseOk(y: Client, p: Phase) {
    match p
    case Fetching(a) => Held(y, a) || Superseded(y, a)
    case Queued(a) => Held(y, a) || Superseded(y, a)
    case Holding(a) => Held(y, a) || Superseded(y, a)
    case MustRefresh(a) => Held(y, a)
    case Refreshing(a, sent) => Held(y, a) && y.slot.value.refresh == sent
    case Storing(a, sent, pair) =>
      && Held(y, a) && y.slot.value.refresh == sent
      && pair.access in y.issued && y.issued[pair.access].refresh == pair.refresh
      && a in y.issued && y.issued[a].rank < y.issued[pair.access].rank
    case Retrying(a) => Superseded(y, a)
    case Refetching(a, b) =>
      && a in y.issued && b in y.issued && y.issued[a].rank < y.issued[b].rank
      && (Held(y, b) || Superseded(y, b))
    case _ => true
  }

  /** The stored pair is one the backend issued together. */
  ghost predicate SlotOk(y: Client) {
    y.slot.Some? ==>
      y.slot.value.access in y.issued && y.issued[y.slot.value.access].refresh == y.slot.value.refresh
  }

  ghost predicate Ranked(y: Client) {
    && (forall a | a in y.issued :: y.issued[a].rank < y.next)
    && (forall a, b | a in y.issued && b in y.issued && y.issued[a].rank == y.issued[b].rank :: a == b)
  }

  /** Only the lock's holder is inside, so at most one refresh is in flight. */
  ghost predicate Exclusive(y: Client) {
    && (forall c | 0 <= c < |y.calls| && Inside(y.calls[c]) :: y.lock == Some(c))
    && (y.lock.Some? ==> y.lock.value < |y.calls| && Inside(y.calls[y.lock.value]))
  }

  ghost predicate PhasesOk(y: Client) {
    forall c | 0 <= c < |y.calls| :: PhaseOk(y, y.calls[c])
  }

  ghost predicate Inv(y: Client) {
    SlotOk(y) && Ranked(y) && Exclusive(y) && PhasesOk(y)
  }

  /** Calls about to be made over one stored session. */
  ghost predicate Initial(y: Client) {
    && SlotOk(y) && Ranked(y) && y.lock.None?
    && forall c | 0 <= c < |y.calls| :: y.calls[c].Idle?
  }

  lemma StepKeepsSlot(y: Client, step: Step)
    requires SlotOk(y) && Ranked(y) && Enabled(y, step) && PhaseOk(y, y.calls[step.call])
    ensures SlotOk(Apply(y, step)) && Ranked(Apply(y, step))
  {
  }

  lemma StepKeepsExclusive(y: Client, step: Step)
    requires Exclusive(y) && Enabled(y, step)
    ensures Exclusive(Apply(y, step))
  {
  }

  lemma StepKeepsMover(y: Client, step: Step)
    requires SlotOk(y) && Ranked(y) && Enabled(y, step) && PhaseOk(y, y.calls[step.call])
    ensures PhaseOk(Apply(y, step), Apply(y, step).calls[step.call])
  {
  }

  ghost predicate Knows(y: Client, z: Client) {
    forall a | a in y.issued :: a in z.issued && z.issued[a] == y.issued[a]
  }

  /** What a call remembers survives the backend issuing more. */
  lemma IssueKeeps(y: Client, z: Client, p: Phase)
    requires PhaseOk(y, p) && Knows(y, z) && z.slot == y.slot
    ensures PhaseOk(z, p)
  {
  }

  /** And, outside the lock, the slot moving to a later pair. */
  lemma AdvanceKeeps(y: Client, z: Client, p: Phase)
    requires PhaseOk(y, p) && !Inside(p) && SlotOk(y) && z.issued == y.issued
    requires y.slot.Some? && z.slot.Some? && z.slot.value.access in z.issued
    requires y.issued[y.slot.value.access].rank < z.issued[z.slot.value.access].rank
    ensures PhaseOk(z, p)
  {
  }

  /** A call that did not move, and that is not inside beside the one that did. */
  lemma StepKeepsOther(y: Client, step: Step, p: Phase)
    requires SlotOk(y) && Enabled(y, step) && PhaseOk(y, y.calls[step.call]) && PhaseOk(y, p)
    requires step.StoreTokens? ==> !Inside(p)
    ensures PhaseOk(Apply(y, step), p)
  {
    if step.StoreTokens? {
      AdvanceKeeps(y, Apply(y, step), p);
    } else {
      IssueKeeps(y, Apply(y, step), p);
    }
  }

  lemma OthersStay(y: Client, step: Step, c: nat)
    requires Enabled(y, step) && c < |y.calls| && c != step.call
    ensures Apply(y, step).calls[c] == y.calls[c]
  {
  }

  lemma StepKeepsPhase(y: Client, step: Step, c: nat)
    requires Inv(y) && Enabled(y, step) && c < |y.calls|
    ensures PhaseOk(Apply(y, step), Apply(y, step).calls[c])
  {
    assert PhaseOk(y, y.calls[step.call]) && PhaseOk(y, y.calls[c]);
    if c == step.call {
      StepKeepsMover(y, step);
    } else {
      OthersStay(y, step, c);
      StepKeepsOther(y, step, y.calls[c]);
    }
  }

  lemma StepKeeps(y: Client, step: Step)
    requires Inv(y) && Enabled(y, step)
    ensures Inv(Apply(y, step))
  {
    assert PhaseOk(y, y.calls[step.call]);
    StepKeepsSlot(y, step);
    StepKeepsExclusive(y, step);
    forall c | 0 <= c < |Apply(y, step).calls|
      ensures PhaseOk(Apply(y, step), Apply(y, step).calls[c])
    {
      StepKeepsPhase(y, step, c);
    }
  }

  lemma {:induction false} RunKeeps(y: Client, steps: seq<Step>)
    requires Inv(y) && Runs(y, steps)
    ensures Inv(End(y, steps))
    decreases |steps|
  {
    if steps != [] {
      StepKeeps(y, steps[0]);
      RunKeeps(Apply(y, steps[0]), steps[1..]);
    }
  }

  /** At every instant of every run at most one call is past the lock, whatever the backend answers. */
  lemma OneInside(y: Client, steps: seq<Step>, c: nat, d: nat)
    requires Initial(y) && Runs(y, steps)
    requires c < |End(y, steps).calls| && Inside(End(y, steps).calls[c])
    requires d < |End(y, steps).calls| && Inside(End(y, steps).calls[d])
    ensures c == d
  {
    RunKeeps(y, steps);
  }

  // The stored session only moves forward.

  /** The place of the held token in the order of issue. */
  ghost function Place(y: Client): nat
    requires y.slot.Some? && SlotOk(y)
  {
    y.issued[y.slot.value.access].rank
  }

  /** The step sends the stored refresh token. */
  ghost predicate Sends(y: Client, step: Step)
    requires Enabled(y, step)
  {
    step.ReadRefresh? && y.slot.Some?
  }

  ghost predicate Forward(y: Client, z: Client) {
    && y.slot.Some? && z.slot.Some? && SlotOk(y) && SlotOk(z)
    && (forall a | a in y.issued :: a in z.issued && z.issued[a] == y.issued[a])
    && (z.slot == y.slot || Place(y) < Place(z))
  }

  lemma StoreForward(y: Client, step: Step)
    requires SlotOk(y) && Ranked(y) && Enabled(y, step) && step.StoreTokens? && PhaseOk(y, y.calls[step.call])
    ensures Forward(y, Apply(y, step)) && Place(y) < Place(Apply(y, step))
  {
  }

  lemma OtherForward(y: Client, step: Step)
    requires SlotOk(y) && Enabled(y, step) && !step.StoreTokens? && y.slot.Some?
    ensures Forward(y, Apply(y, step))
  {
  }

  lemma StepForward(y: Client, step: Step)
    requires Inv(y) && Enabled(y, step) && y.slot.Some?
    ensures Inv(Apply(y, step)) && Forward(y, Apply(y, step))
    ensures step.StoreTokens? ==> Place(y) < Place(Apply(y, step))
  {
    StepKeeps(y, step);
    assert PhaseOk(y, y.calls[step.call]);
    if step.StoreTokens? {
      StoreForward(y, step);
    } else {
      OtherForward(y, step);
    }
  }

  /** In every run the stored pair is one the backend issued together, and its place in the order of
      issue never goes back. */
  lemma {:induction false} RunForward(y: Client, steps: seq<Step>)
    requires Inv(y) && Runs(y, steps) && y.slot.Some?
    ensures Inv(End(y, steps)) && Forward(y, End(y, steps))
    decreases |steps|
  {
    if steps != [] {
      StepForward(y, steps[0]);
      RunForward(Apply(y, steps[0]), steps[1..]);
    }
  }

  /** Once a rotation is stored, the refresh token it consumed belongs to a superseded pair, and every
      refresh token sent from then on belongs to a later one: the consumed token is never sent again,
      provided the backend does not hand the same refresh token out twice. */
  lemma ConsumedIsNeverResent(y: Client, store: Step, steps: seq<Step>, send: Step)
    requires Inv(y) && y.slot.Some? && store.StoreTokens? && Enabled(y, store)
    requires Runs(Apply(y, store), steps) && Enabled(End(Apply(y, store), steps), send)
    requires Sends(End(Apply(y, store), steps), send)
    ensures y.calls[store.call].sent == y.slot.value.refresh
    ensures var later := End(Apply(y, store), steps);
            && later.slot.Some? && SlotOk(later) && y.slot.value.access in later.issued
            && later.issued[y.slot.value.access].rank < Place(later)
            && Apply(later, send).calls[send.call].sent == later.issued[later.slot.value.access].refresh
    ensures var later := End(Apply(y, store), steps);
            (forall a, b | a in later.issued && b in later.issued && a != b ::
               later.issued[a].refresh != later.issued[b].refresh)
            ==> Apply(later, send).calls[send.call].sent != y.calls[store.call].sent
  {
    assert PhaseOk(y, y.calls[store.call]);
    StepForward(y, store);
    RunForward(Apply(y, store), steps);
  }

  /** A `me()` that retries after a 401 sends a token issued strictly later than the one that failed. */
  lemma RetryIsLater(y: Client, steps: seq<Step>, c: nat)
    requires Initial(y) && Runs(y, steps) && c < |End(y, steps).calls| && End(y, steps).calls[c].Refetching?
    ensures var z := End(y, steps);
            var p := z.calls[c];
            p.stale in z.issued && p.access in z.issued && z.issued[p.stale].rank < z.issued[p.access].rank
  {
    RunKeeps(y, steps);
    assert PhaseOk(End(y, steps), End(y, steps).calls[c]);
  }

  // One rotation per token that failed.

  /** How many rotations a run stores on behalf of calls that failed with `a`. */
  ghost function Stores(y: Client, steps: seq<Step>, a: Token): nat
    requires Runs(y, steps)
    decreases |steps|
  {
    if steps == [] then 0
    else (if steps[0].StoreTokens? && y.calls[steps[0].call].stale == a then 1 else 0)
         + Stores(Apply(y, steps[0]), steps[1..], a)
  }

  ghost function StoresLeft(y: Client, a: Token): nat {
    if Superseded(y, a) then 0 else 1
  }

  /** However many calls fail with one access token, at most one rotation is stored for it. */
  lemma {:induction false} OneRotationPerToken(y: Client, steps: seq<Step>, a: Token)
    requires Inv(y) && Runs(y, steps) && y.slot.Some?
    ensures Stores(y, steps, a) + StoresLeft(End(y, steps), a) <= StoresLeft(y, a) <= 1
    decreases |steps|
  {
    if steps != [] {
      StepForward(y, steps[0]);
      StoreUsesUp(y, steps[0], a);
      OneRotationPerToken(Apply(y, steps[0]), steps[1..], a);
    }
  }

  /** A stored rotation supersedes the token that failed. */
  lemma StoreUsesUp(y: Client, step: Step, a: Token)
    requires Inv(y) && Enabled(y, step) && Forward(y, Apply(y, step))
    requires step.StoreTokens? ==> Place(y) < Place(Apply(y, step))
    ensures (if step.StoreTokens? && y.calls[step.call].stale == a then 1 else 0) + StoresLeft(Apply(y, step), a) <=
            StoresLeft(y, a)
  {
    assert PhaseOk(y, y.calls[step.call]);
  }

  // Bounded work.

  /** How many steps a call has left at most. */
  function StepsLeft(p: Phase): nat {
    match p
    case Idle => 9
    case Fetching(_) => 8
    case Queued(_) => 7
    case Holding(_) => 6
    case MustRefresh(_) => 5
    case Refreshing(_, _) => 4
    case Storing(_, _, _) => 3
    case Retrying(_) => 2
    case Refetching(_, _) => 1
    case Done(_) => 0
  }

  function Sum(calls: seq<Phase>): nat {
    if calls == [] then 0 else StepsLeft(calls[0]) + Sum(calls[1..])
  }

  lemma {:induction false} SumUpdate(calls: seq<Phase>, c: nat, p: Phase)
    requires c < |calls|
    ensures Sum(calls[c := p]) + StepsLeft(calls[c]) == Sum(calls) + StepsLeft(p)
  {
    if c == 0 {
      assert calls[c := p][1..] == calls[1..];
    } else {
      assert calls[c := p][1..] == calls[1..][c - 1 := p];
      SumUpdate(calls[1..], c - 1, p);
    }
  }

  lemma {:induction false} SumBound(calls: seq<Phase>)
    ensures Sum(calls) <= 9 * |calls|
  {
    if calls != [] { SumBound(calls[1..]); }
  }

  lemma StepShrinks(y: Client, step: Step)
    requires Enabled(y, step)
    ensures |Apply(y, step).calls| == |y.calls| && Sum(Apply(y, step).calls) < Sum(y.calls)
  {
    var q := Apply(y, step).calls[step.call];
    assert Apply(y, step).calls == y.calls[step.call := q];
    assert StepsLeft(q) < StepsLeft(y.calls[step.call]);
    SumUpdate(y.calls, step.call, q);
  }

  /** Every run ends: with `n` calls, after at most `9 n` steps, whatever the backend answers. */
  lemma {:induction false} RunsEnd(y: Client, steps: seq<Step>)
    requires Runs(y, steps)
    ensures |steps| + Sum(End(y, steps).calls) <= Sum(y.calls) <= 9 * |y.calls|
    decreases |steps|
  {
    SumBound(y.calls);
    if steps != [] {
      StepShrinks(y, steps[0]);
      RunsEnd(Apply(y, steps[0]), steps[1..]);
    }
  }

  /** No run is stuck: while a call is unfinished, some call can take a step. */
  lemma NeverStuck(y: Client, steps: seq<Step>, c: nat) returns (step: Step)
    requires Initial(y) && Runs(y, steps) && c < |y.calls| && c < |End(y, steps).calls|
    requires !End(y, steps).calls[c].Done?
    ensures Enabled(End(y, steps), step)
  {
    RunKeeps(y, steps);
    var z := End(y, steps);
    var d := if z.lock.Some? then z.lock.value else c;
    match z.calls[d]
    case Idle => step := ReadAccess(d);
    case Fetching(_) => step := FirstAnswer(d, Failed);
    case Queued(_) => step := Acquire(d);
    case Holding(_) => step := Recheck(d);
    case MustRefresh(_) => step := ReadRefresh(d);
    case Refreshing(_, _) => step := RefreshAnswer(d, Refused);
    case Storing(_, _, _) => step := StoreTokens(d);
    case Retrying(_) => step := ReadAgain(d);
    case Refetching(_, _) => step := SecondAnswer(d, Failed);
  }

  /** How many `GET /auth/me` and `POST /auth/refresh` requests call `c` sends along a run. */
  ghost function Requests(y: Client, steps: seq<Step>, c: nat): (nat, nat)
    requires Runs(y, steps)
    decreases |steps|
  {
    if steps == [] then (0, 0)
    else
      var (gets, posts) := Requests(Apply(y, steps[0]), steps[1..], c);
      var q := if steps[0].call == c then Apply(y, steps[0]).calls[c] else Idle;
      (gets + (if (steps[0].ReadAccess? && q.Fetching?) || (steps[0].ReadAgain? && q.Refetching?) then 1 else 0),
       posts + (if steps[0].ReadRefresh? && q.Refreshing? then 1 else 0))
  }

  function GetsLeft(p: Phase): nat {
    if p.Idle? then 2 else if p.Refetching? || p.Done? then 0 else 1
  }

  function PostsLeft(p: Phase): nat {
    if p.Idle? || p.Fetching? || p.Queued? || p.Holding? || p.MustRefresh? then 1 else 0
  }

  /** Each call sends at most two `GET /auth/me` and one `POST /auth/refresh`. */
  lemma {:induction false} BoundedRequests(y: Client, steps: seq<Step>, c: nat)
    requires Runs(y, steps) && c < |y.calls|
    ensures Requests(y, steps, c).0 <= GetsLeft(y.calls[c]) <= 2
    ensures Requests(y, steps, c).1 <= PostsLeft(y.calls[c]) <= 1
    decreases |steps|
  {
    if steps != [] {
      BoundedRequests(Apply(y, steps[0]), steps[1..], c);
    }
  }
}
