/**
 The client's own code: `me`, `refresh_single_flight` and `refresh` in program order, over the stored pair
 and the refresh lock. At every await any number of sections of other calls may run. Whatever they are,
 what happened is a run of the state machine, so its theorems hold of this code.
 */
module ClientSlot {
  import opened Prelude
  import opened ClientRefresh
  import ClientOutcome
  import ClientSends

  /** What a call cannot decide: which sections of other calls run at each of its awaits, and the answers it
      gets. The reply to a refresh may depend on what the backend issued so far. */
  datatype World = World(
    duringFirst: seq<Step>,
    whileQueued: seq<seq<Step>>,
    duringRefresh: seq<Step>,
    duringSecond: seq<Step>,
    first: Answer,
    reply: map<Token, Issue> -> Rotation,
    second: Answer)
  {
    /** The backend issues access tokens that differ from one another. */
    ghost predicate Valid() {
      forall issued: map<Token, Issue> :: reply(issued).Refused? || reply(issued).pair.access !in issued
    }
  }

  /** How a call left `refresh_single_flight`: rotated or found a newer token; failed; or still waits for
      the lock when nothing else runs any more. */
  datatype Flight = Landed | Failure(outcome: Outcome) | Waiting

  lemma Then(start: Client, trace: seq<Step>, step: Step)
    requires Runs(start, trace) && Enabled(End(start, trace), step)
    ensures Runs(start, trace + [step]) && End(start, trace + [step]) == Apply(End(start, trace), step)
  {
    assert [step][1..] == [];
    ClientSends.Concat(start, trace, [step], "");
  }

  class AuthClient {
    var tokens: Option<Pair>
    var refreshLock: Option<nat>
    /** Where every call stands, and what the backend issued. */
    var calls: seq<Phase>
    var issued: map<Token, Issue>
    var next: nat

    constructor (session: Option<Pair>, n: nat)
      ensures Initial(Image()) && tokens == session && |calls| == n
    {
      tokens, refreshLock, calls := session, None, seq(n, _ => Idle);
      issued := if session.Some? then map[session.value.access := Issue(session.value.refresh, 0)] else map[];
      next := 1;
    }

    function Image(): Client
      reads this
    {
      Client(tokens, refreshLock, calls, issued, next)
    }

    /** `trace` leads from `start` to where the client is. */
    ghost predicate Reached(start: Client, trace: seq<Step>)
      reads this
    {
      Runs(start, trace) && Image() == End(start, trace)
    }

    function AccessToken(): Option<Token>
      reads this
    {
      if tokens.Some? then Some(tokens.value.access) else None
    }

    function RefreshToken(): Option<Token>
      reads this
    {
      if tokens.Some? then Some(tokens.value.refresh) else None
    }

    /** One section of another call. */
    method Interfere(step: Step)
      requires Enabled(Image(), step)
      modifies this
      ensures Image() == Apply(old(Image()), step)
    {
      var z := Apply(Image(), step);
      tokens, refreshLock, calls, issued, next := z.slot, z.lock, z.calls, z.issued, z.next;
    }

    /** An await of call `c`: of the given sections, those of other calls that can run do. */
    method Await(c: nat, others: seq<Step>, ghost start: Client, ghost trace: seq<Step>)
      returns (ghost longer: seq<Step>)
      requires c < |calls| && Reached(start, trace)
      modifies this
      ensures Reached(start, longer) && c < |calls| && calls[c] == old(calls[c])
    {
      longer := trace;
      for i := 0 to |others|
        invariant Reached(start, longer) && c < |calls| && calls[c] == old(calls[c])
      {
        if others[i].call != c && Enabled(Image(), others[i]) {
          Then(start, longer, others[i]);
          OthersStay(Image(), others[i], c);
          ClientSends.StepUpdates(Image(), others[i]);
          longer := longer + [others[i]];
          Interfere(others[i]);
        }
      }
    }

    /** `me`. */
    method Me(c: nat, world: World) returns (r: Option<Outcome>, ghost trace: seq<Step>)
      requires world.Valid() && c < |calls| && calls[c].Idle?
      modifies this
      ensures Reached(old(Image()), trace) && c < |calls|
      ensures if r.Some? then calls[c] == Done(r.value) else calls[c].Queued? && refreshLock.Some?
      ensures r == Some(User) <==> ClientOutcome.LastRead(trace, c) == Some(Success)
      ensures r == Some(NoSession) <==> ClientOutcome.FindsNothing(old(Image()), trace, c)
      ensures r == Some(Error) <==> ClientOutcome.IsLetDown(trace, c)
      ensures old(tokens).None? ==> r == Some(NoSession)
      ensures old(tokens).Some? && world.first.Success? ==> r == Some(User)
      ensures old(tokens).Some? && world.first.Failed? ==> r == Some(Error)
      ensures r == Some(User) ==> world.first.Success? || (world.first.Unauthorized? && world.second.Success?)
    {
      ghost var start := Image();
      trace := [];
      var stored := AccessToken();
      Then(start, trace, ReadAccess(c));
      trace := trace + [ReadAccess(c)];
      if stored.None? {
        calls := calls[c := Done(NoSession)];
        ClientOutcome.OutcomeIff(start, trace, c);
        return Some(NoSession), trace;
      }
      var access := stored.value;
      calls := calls[c := Fetching(access)];
      trace := Await(c, world.duringFirst, start, trace);
      Then(start, trace, FirstAnswer(c, world.first));
      trace := trace + [FirstAnswer(c, world.first)];
      if !world.first.Unauthorized? {
        calls := calls[c := Done(Settled(world.first))];
        ClientOutcome.OutcomeIff(start, trace, c);
        return Some(Settled(world.first)), trace;
      }
      calls := calls[c := Queued(access)];
      var flight: Flight;
      flight, trace := RefreshSingleFlight(c, access, world, start, trace);
      if flight.Waiting? {
        r := None;
      } else if flight.Failure? {
        r := Some(flight.outcome);
      } else {
        r, trace := FetchAgain(c, access, world, start, trace);
      }
      ClientOutcome.OutcomeIff(start, trace, c);
    }

    /** The retry at the end of `me`. */
    method FetchAgain(c: nat, stale: Token, world: World, ghost start: Client, ghost trace: seq<Step>)
      returns (r: Option<Outcome>, ghost longer: seq<Step>)
      requires c < |calls| && calls[c] == Retrying(stale) && Reached(start, trace)
      modifies this
      ensures Reached(start, longer) && c < |calls| && r.Some? && calls[c] == Done(r.value)
      ensures r == Some(User) ==> world.second.Success?
    {
      var stored := AccessToken();
      Then(start, trace, ReadAgain(c));
      longer := trace + [ReadAgain(c)];
      if stored.None? {
        calls := calls[c := Done(NoSession)];
        return Some(NoSession), longer;
      }
      calls := calls[c := Refetching(stale, stored.value)];
      longer := Await(c, world.duringSecond, start, longer);
      Then(start, longer, SecondAnswer(c, world.second));
      longer := longer + [SecondAnswer(c, world.second)];
      calls := calls[c := Done(Settled(world.second))];
      return Some(Settled(world.second)), longer;
    }

    /** `refresh_single_flight`: wait for the lock, look again, and refresh only if the token that failed is
        still the stored one. */
    method RefreshSingleFlight(c: nat, stale: Token, world: World, ghost start: Client, ghost trace: seq<Step>)
      returns (flight: Flight, ghost longer: seq<Step>)
      requires world.Valid() && c < |calls| && calls[c] == Queued(stale) && Reached(start, trace)
      modifies this
      ensures Reached(start, longer) && c < |calls|
      ensures match flight
              case Landed => calls[c] == Retrying(stale)
              case Failure(outcome) => calls[c] == Done(outcome) && outcome != User
              case Waiting => calls[c] == Queued(stale) && refreshLock.Some?
      ensures !flight.Waiting? ==> refreshLock.None?
    {
      longer := trace;
      var i := 0;
      while refreshLock.Some? && i < |world.whileQueued|
        invariant 0 <= i <= |world.whileQueued|
        invariant Reached(start, longer) && c < |calls| && calls[c] == Queued(stale)
      {
        longer := Await(c, world.whileQueued[i], start, longer);
        i := i + 1;
      }
      if refreshLock.Some? {
        return Waiting, longer;
      }
      Then(start, longer, Acquire(c));
      longer := longer + [Acquire(c)];
      refreshLock := Some(c);
      calls := calls[c := Holding(stale)];
      var current := AccessToken();
      Then(start, longer, Recheck(c));
      longer := longer + [Recheck(c)];
      if current.Some? && current.value != stale {
        refreshLock := None;
        calls := calls[c := Retrying(stale)];
        return Landed, longer;
      }
      calls := calls[c := MustRefresh(stale)];
      flight, longer := Refresh(c, stale, world, start, longer);
    }

    /** `refresh`, and the guard being dropped on every way out of it. */
    method Refresh(c: nat, stale: Token, world: World, ghost start: Client, ghost trace: seq<Step>)
      returns (flight: Flight, ghost longer: seq<Step>)
      requires world.Valid() && c < |calls| && calls[c] == MustRefresh(stale) && Reached(start, trace)
      modifies this
      ensures Reached(start, longer) && c < |calls|
      ensures match flight
              case Landed => calls[c] == Retrying(stale)
              case Failure(outcome) => calls[c] == Done(outcome) && outcome != User
              case Waiting => false
      ensures refreshLock.None?
    {
      var stored := RefreshToken();
      Then(start, trace, ReadRefresh(c));
      longer := trace + [ReadRefresh(c)];
      if stored.None? {
        refreshLock := None;
        calls := calls[c := Done(NoSession)];
        return Failure(NoSession), longer;
      }
      calls := calls[c := Refreshing(stale, stored.value)];
      longer := Await(c, world.duringRefresh, start, longer);
      flight, longer := Receive(c, stale, stored.value, world.reply(issued), start, longer);
    }

    /** What `refresh` does with the reply. */
    method Receive(c: nat, stale: Token, sent: Token, rotation: Rotation, ghost start: Client, ghost trace: seq<Step>)
      returns (flight: Flight, ghost longer: seq<Step>)
      requires c < |calls| && calls[c] == Refreshing(stale, sent) && Reached(start, trace)
      requires rotation.Refused? || rotation.pair.access !in issued
      modifies this
      ensures Reached(start, longer) && c < |calls|
      ensures match flight
              case Landed => calls[c] == Retrying(stale)
              case Failure(outcome) => calls[c] == Done(outcome) && outcome != User
              case Waiting => false
      ensures refreshLock.None?
    {
      Then(start, trace, RefreshAnswer(c, rotation));
      longer := trace + [RefreshAnswer(c, rotation)];
      if !rotation.Refused? {
        issued, next := issued[rotation.pair.access := Issue(rotation.pair.refresh, next)], next + 1;
      }
      if !rotation.Rotated? {
        refreshLock := None;
        calls := calls[c := Done(Error)];
        return Failure(Error), longer;
      }
      calls := calls[c := Storing(stale, sent, rotation.pair)];
      Then(start, longer, StoreTokens(c));
      longer := longer + [StoreTokens(c)];
      tokens := Some(rotation.pair);
      refreshLock := None;
      calls := calls[c := Retrying(stale)];
      return Landed, longer;
    }

    /** What a caller is left with, whatever the others did meanwhile: the call is answered unless another one
        holds the lock, with the user exactly when its last profile read succeeded, and otherwise with an error,
        never with a missing session; it sent at most two profile reads and one refresh; and the stored pair was issued
        together, and is the one from before or a later one. */
    method MeOverSession(c: nat, world: World) returns (r: Option<Outcome>, ghost trace: seq<Step>)
      requires world.Valid() && Initial(Image()) && tokens.Some? && c < |calls|
      modifies this
      ensures Reached(old(Image()), trace) && SlotOk(Image()) && tokens.Some?
      ensures r.None? ==> exists d :: 0 <= d < |calls| && d != c && Inside(calls[d])
      ensures r == Some(User) <==> ClientOutcome.LastRead(trace, c) == Some(Success)
      ensures r == Some(Error) <==> ClientOutcome.IsLetDown(trace, c)
      ensures r != Some(NoSession)
      ensures Requests(old(Image()), trace, c).0 <= 2 && Requests(old(Image()), trace, c).1 <= 1
      ensures old(tokens.value.access) in issued && tokens.value.access in issued
      ensures tokens == old(tokens) || issued[old(tokens.value.access)].rank < issued[tokens.value.access].rank
    {
      ghost var start := Image();
      ClientSends.InitialIsSound(start);
      r, trace := Me(c, world);
      ClientOutcome.NeverEmpty(start, trace, c);
      RunForward(start, trace);
      BoundedRequests(start, trace, c);
    }
  }
}
