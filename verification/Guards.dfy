/**
 The request guards stacked on one handler, and the per-request cache of verified claims they share.

 The engine's answers for the duration of one request are three functions: signature and revocation,
 tenant binding, and the account's status. The token is what the delivery mode sourced.
 */
module Guards {
  import opened Prelude

  datatype Claims = Claims(sub: string, tenant: string, role: string, mfaEnabled: bool, mfaVerified: bool)

  datatype AuthError = TokenMissing | Refused(code: string) | MfaRequired | InsufficientRole

  datatype Engine = Engine(
    verify: string -> Result<Claims, AuthError>,
    binding: string -> Option<AuthError>,
    account: (string, string) -> Option<AuthError>,
    satisfies: (string, string) -> bool)

  /** The extractors a handler can list. `OptionalUser` never rejects. */
  datatype Guard =
    | AuthUser | CurrentUser | UserStatus | VerifiedUser | MfaSatisfied | OptionalUser
    | RequireRole(role: string)

  /** What verifying the token from scratch answers. */
  function Checked(engine: Engine, token: Option<string>): Result<Claims, AuthError> {
    if token.None? then Err(TokenMissing)
    else
      var verified := engine.verify(token.value);
      if verified.Err? then verified
      else
        var refusal := engine.binding(verified.value.tenant);
        if refusal.Some? then Err(refusal.value) else verified
  }

  /** Whether a guard turns verified claims away. */
  function Refusal(engine: Engine, claims: Claims, guard: Guard): Option<AuthError> {
    match guard
    case AuthUser => None
    case CurrentUser => None
    case OptionalUser => None
    case UserStatus => engine.account(claims.sub, claims.tenant)
    case VerifiedUser => engine.account(claims.sub, claims.tenant)
    case MfaSatisfied =>
      if claims.mfaEnabled && !claims.mfaVerified then
        var blocked := engine.account(claims.sub, claims.tenant);
        if blocked.Some? then blocked else Some(MfaRequired)
      else None
    case RequireRole(role) => if engine.satisfies(claims.role, role) then None else Some(InsufficientRole)
  }

  /** One guard on its own, verifying from scratch. */
  function Verdict(engine: Engine, token: Option<string>, guard: Guard): Result<Option<Claims>, AuthError> {
    var checked := Checked(engine, token);
    if checked.Err? then
      if guard.OptionalUser? then Ok(None) else Err(checked.error)
    else
      var refusal := Refusal(engine, checked.value, guard);
      if refusal.Some? then Err(refusal.value) else Ok(Some(checked.value))
  }

  /** A list of guards, each verifying from scratch: the first rejection ends the request. */
  function Outcome(engine: Engine, token: Option<string>, guards: seq<Guard>): Result<seq<Option<Claims>>, AuthError> {
    if guards == [] then Ok([])
    else
      var front := Outcome(engine, token, guards[..|guards| - 1]);
      if front.Err? then front
      else
        var last := Verdict(engine, token, guards[|guards| - 1]);
        if last.Err? then Err(last.error) else Ok(front.value + [last.value])
  }

  /** The request parts the guards run on. */
  class Parts {
    const token: Option<string>
    var cached: Option<Claims>
    /** How often the engine was asked to verify the token. */
    ghost var verifications: nat

    constructor (token: Option<string>)
      ensures this.token == token && cached.None? && verifications == 0
    {
      this.token := token;
      cached := None;
      verifications := 0;
    }

    /** Anything cached passed verification and the tenant binding. */
    ghost predicate Valid(engine: Engine)
      reads this
    {
      cached.Some? ==>
        token.Some? && engine.verify(token.value) == Ok(cached.value) && engine.binding(cached.value.tenant).None?
    }

    /** `verified_dashboard_claims`: a missing token is told first, then what verification refuses, then what the
        tenant binding does; only claims that pass both are cached. It agrees with verifying from scratch, and
        asks at most once. */
    method VerifiedClaims(engine: Engine) returns (r: Result<Claims, AuthError>)
      requires Valid(engine)
      modifies this
      ensures Valid(engine) && r == Checked(engine, token)
      ensures match token
              case None => r == Err(TokenMissing)
              case Some(t) =>
                (match engine.verify(t)
                 case Err(e) => r == Err(e)
                 case Ok(c) =>
                   (match engine.binding(c.tenant)
                    case Some(e) => r == Err(e)
                    case None => r == Ok(c)))
      ensures cached == if r.Ok? then Some(r.value) else None
      ensures verifications == old(verifications) + (if old(cached).Some? || token.None? then 0 else 1)
    {
      if cached.Some? {
        return Ok(cached.value);
      }
      if token.None? {
        return Err(TokenMissing);
      }
      var claims := engine.verify(token.value);
      verifications := verifications + 1;
      if claims.Err? {
        return claims;
      }
      var refusal := engine.binding(claims.value.tenant);
      if refusal.Some? {
        return Err(refusal.value);
      }
      cached := Some(claims.value);
      return claims;
    }

    /** One extractor. */
    method Extract(engine: Engine, guard: Guard) returns (r: Result<Option<Claims>, AuthError>)
      requires Valid(engine)
      modifies this
      ensures Valid(engine) && r == Verdict(engine, token, guard)
      ensures cached == if Checked(engine, token).Ok? then Some(Checked(engine, token).value) else None
      ensures verifications == old(verifications) + (if old(cached).Some? || token.None? then 0 else 1)
    {
      var claims := VerifiedClaims(engine);
      if guard.OptionalUser? {
        return Ok(if claims.Ok? then Some(claims.value) else None);
      }
      if claims.Err? {
        return Err(claims.error);
      }
      var c := claims.value;
      match guard {
        case UserStatus =>
          var blocked := engine.account(c.sub, c.tenant);
          if blocked.Some? { return Err(blocked.value); }
        case VerifiedUser =>
          var blocked := engine.account(c.sub, c.tenant);
          if blocked.Some? { return Err(blocked.value); }
        case MfaSatisfied =>
          if c.mfaEnabled && !c.mfaVerified {
            var blocked := engine.account(c.sub, c.tenant);
            if blocked.Some? { return Err(blocked.value); }
            return Err(MfaRequired);
          }
        case RequireRole(role) =>
          if !engine.satisfies(c.role, role) { return Err(InsufficientRole); }
        case _ =>
      }
      return Ok(Some(c));
    }

    /** The extractors of one handler, in the order it lists them, over one cache: the outcome is the
        one of verifying from scratch each time, and the token is verified as often as `Asked` says. A stack that
        demands a token admits only claims that verification and the tenant binding let pass. */
    method Serve(engine: Engine, guards: seq<Guard>) returns (r: Result<seq<Option<Claims>>, AuthError>)
      requires cached.None?
      modifies this
      ensures Valid(engine) && r == Outcome(engine, token, guards)
      ensures verifications == old(verifications) + Asked(engine, token, guards)
      ensures r.Ok? && Demanding(guards) ==>
                && token.Some? && engine.verify(token.value).Ok?
                && engine.binding(engine.verify(token.value).value.tenant).None?
                && forall i | 0 <= i < |r.value| :: r.value[i] == Some(engine.verify(token.value).value)
    {
      var seen: seq<Option<Claims>> := [];
      for i := 0 to |guards|
        invariant Valid(engine) && Outcome(engine, token, guards[..i]) == Ok(seen)
        invariant verifications == old(verifications) + Asked(engine, token, guards[..i])
        invariant i > 0 ==>
          cached == if Checked(engine, token).Ok? then Some(Checked(engine, token).value) else None
        invariant i == 0 ==> cached.None?
      {
        assert guards[..i + 1][..i] == guards[..i];
        var one := Extract(engine, guards[i]);
        if one.Err? {
          RefusedEarly(engine, token, guards, i + 1);
          return Err(one.error);
        }
        seen := seen + [one.value];
      }
      assert guards[..|guards|] == guards;
      AdmitsIff(engine, token, guards);
      if Checked(engine, token).Err? {
        RefusedTokenPasses(engine, token, guards);
      }
      return Ok(seen);
    }
  }

  /** How often a stack of guards verifies the token. */
  function Asked(engine: Engine, token: Option<string>, guards: seq<Guard>): nat {
    if guards == [] || token.None? then 0
    else
      var front := guards[..|guards| - 1];
      if Outcome(engine, token, front).Err? then Asked(engine, token, front)
      else if Checked(engine, token).Ok? then 1
      else Asked(engine, token, front) + 1
  }

  /** Guards after the first rejection do not run. */
  lemma {:induction false} RefusedEarly(engine: Engine, token: Option<string>, guards: seq<Guard>, n: nat)
    requires n <= |guards| && Outcome(engine, token, guards[..n]).Err?
    ensures Outcome(engine, token, guards) == Outcome(engine, token, guards[..n])
    ensures Asked(engine, token, guards) == Asked(engine, token, guards[..n])
    decreases |guards|
  {
    if n == |guards| {
      assert guards[..n] == guards;
    } else {
      var front := guards[..|guards| - 1];
      assert front[..n] == guards[..n];
      RefusedEarly(engine, token, front, n);
    }
  }

  // What a handler is promised.

  /** A stack of guards admits a request exactly when each of them does on its own, and then they all
      see the same claims. */
  lemma {:induction false} AdmitsIff(engine: Engine, token: Option<string>, guards: seq<Guard>)
    ensures Outcome(engine, token, guards).Ok? <==> forall g | g in guards :: Verdict(engine, token, g).Ok?
    ensures Outcome(engine, token, guards).Ok? ==>
              var seen := Outcome(engine, token, guards).value;
              |seen| == |guards| && forall i | 0 <= i < |seen| ::
                seen[i] == if Checked(engine, token).Ok? then Some(Checked(engine, token).value) else None
  {
    if guards != [] {
      var front := guards[..|guards| - 1];
      assert guards == front + [guards[|guards| - 1]];
      AdmitsIff(engine, token, front);
    }
  }

  /** A rejected request is rejected with the error of one of its guards. */
  lemma {:induction false} RejectedBySome(engine: Engine, token: Option<string>, guards: seq<Guard>)
    requires Outcome(engine, token, guards).Err?
    ensures exists g :: g in guards && Verdict(engine, token, g) == Err(Outcome(engine, token, guards).error)
  {
    var front, last := guards[..|guards| - 1], guards[|guards| - 1];
    assert guards == front + [last];
    if Outcome(engine, token, front).Err? {
      RejectedBySome(engine, token, front);
    } else {
      assert last in guards;
    }
  }

  /** The verdict of a stack of guards. */
  function Decision(engine: Engine, token: Option<string>, guards: seq<Guard>): Option<AuthError> {
    var outcome := Outcome(engine, token, guards);
    if outcome.Err? then Some(outcome.error) else None
  }

  /** Any two guards other than a role guard that reject a request reject it with the same error: the
      status is judged before the second factor is demanded. */
  lemma RefusalsAgree(engine: Engine, token: Option<string>, g: Guard, h: Guard)
    requires !g.RequireRole? && !h.RequireRole?
    requires Verdict(engine, token, g).Err? && Verdict(engine, token, h).Err?
    ensures Verdict(engine, token, g) == Verdict(engine, token, h)
  {
  }

  /** So the verdict depends only on which guards a handler lists, not on their order or repetition. */
  lemma OrderIsIrrelevant(engine: Engine, token: Option<string>, a: seq<Guard>, b: seq<Guard>)
    requires forall g | g in a :: !g.RequireRole?
    requires forall g :: g in a <==> g in b
    ensures Decision(engine, token, a) == Decision(engine, token, b)
  {
    AdmitsIff(engine, token, a);
    AdmitsIff(engine, token, b);
    if Outcome(engine, token, a).Err? {
      RejectedBySome(engine, token, a);
      RejectedBySome(engine, token, b);
      var g :| g in a && Verdict(engine, token, g) == Err(Outcome(engine, token, a).error);
      var h :| h in b && Verdict(engine, token, h) == Err(Outcome(engine, token, b).error);
      RefusalsAgree(engine, token, g, h);
    }
  }

  /** Some guard rejects a request without a token. */
  predicate Demanding(guards: seq<Guard>) {
    exists g | g in guards :: !g.OptionalUser?
  }

  /** The verdict in closed form, by what the engine answers. If any guard asks for a token: the missing token, else
      what verification refuses, else what the tenant binding refuses. Then the account's refusal, if a guard
      asks for a usable account or for a pending second factor; else the second factor. */
  lemma ClosedForm(engine: Engine, token: Option<string>, guards: seq<Guard>)
    requires forall g | g in guards :: !g.RequireRole?
    ensures Decision(engine, token, guards) ==
            match token
            case None => if Demanding(guards) then Some(TokenMissing) else None
            case Some(t) =>
              match engine.verify(t)
              case Err(e) => if Demanding(guards) then Some(e) else None
              case Ok(claims) =>
                match engine.binding(claims.tenant)
                case Some(e) => if Demanding(guards) then Some(e) else None
                case None =>
                  var blocked := engine.account(claims.sub, claims.tenant);
                  var pending := MfaSatisfied in guards && claims.mfaEnabled && !claims.mfaVerified;
                  if blocked.Some? && (UserStatus in guards || VerifiedUser in guards || pending) then blocked
                  else if pending then Some(MfaRequired)
                  else None
  {
    AdmitsIff(engine, token, guards);
    if Outcome(engine, token, guards).Err? {
      RejectedBySome(engine, token, guards);
    }
  }

  /** What a guard other than the optional one asks of claims, by what the engine answers. */
  predicate Satisfied(engine: Engine, claims: Claims, guards: seq<Guard>) {
    && (UserStatus in guards || VerifiedUser in guards ==> engine.account(claims.sub, claims.tenant).None?)
    && (MfaSatisfied in guards ==> !claims.mfaEnabled || claims.mfaVerified)
    && (forall g | g in guards && g.RequireRole? :: engine.satisfies(claims.role, g.role))
  }

  /** A stack of any guards admits a request exactly when it demands no token and the token does not pass, or the
      token is verified, its tenant is bound to the request, and its claims satisfy every guard that is listed. */
  lemma AdmittedIff(engine: Engine, token: Option<string>, guards: seq<Guard>)
    ensures Decision(engine, token, guards).None? <==>
            match token
            case None => !Demanding(guards)
            case Some(t) =>
              match engine.verify(t)
              case Err(_) => !Demanding(guards)
              case Ok(claims) =>
                if engine.binding(claims.tenant).Some? then !Demanding(guards) else Satisfied(engine, claims, guards)
  {
    AdmitsIff(engine, token, guards);
  }

  // With role guards.

  predicate SameMembers(a: seq<Guard>, b: seq<Guard>) {
    (forall g | g in a :: g in b) && (forall g | g in b :: g in a)
  }

  /** The two guards reject the request with different errors. */
  predicate Conflict(engine: Engine, token: Option<string>, g: Guard, h: Guard) {
    Verdict(engine, token, g).Err? && Verdict(engine, token, h).Err? && Verdict(engine, token, g) != Verdict(engine, token, h)
  }

  /** A guard that rejects, put in front, decides. */
  lemma FirstDecides(engine: Engine, token: Option<string>, g: Guard, guards: seq<Guard>)
    requires Verdict(engine, token, g).Err?
    ensures Decision(engine, token, [g] + guards) == Some(Verdict(engine, token, g).error)
  {
    var one, all := [g], [g] + guards;
    assert all[..1] == one && one[..0] == [];
    assert Outcome(engine, token, one[..0]) == Ok([]);
    RefusedEarly(engine, token, all, 1);
  }

  lemma FrontKeepsMembers(g: Guard, guards: seq<Guard>)
    requires g in guards
    ensures SameMembers(guards, [g] + guards)
  {
  }

  lemma NoConflictOneDecision(engine: Engine, token: Option<string>, a: seq<Guard>, b: seq<Guard>)
    requires SameMembers(a, b) && forall g, h | g in a && h in a :: !Conflict(engine, token, g, h)
    ensures Decision(engine, token, a) == Decision(engine, token, b)
  {
    AdmitsIff(engine, token, a);
    AdmitsIff(engine, token, b);
    if Outcome(engine, token, a).Err? {
      RejectedBySome(engine, token, a);
      RejectedBySome(engine, token, b);
      var g :| g in a && Verdict(engine, token, g) == Err(Outcome(engine, token, a).error);
      var h :| h in b && Verdict(engine, token, h) == Err(Outcome(engine, token, b).error);
      assert !Conflict(engine, token, g, h);
    }
  }

  /** Every order and repetition of the same guards gives one decision exactly when no two of them reject
      the request with different errors. */
  lemma OneDecisionIff(engine: Engine, token: Option<string>, guards: seq<Guard>)
    ensures (forall other: seq<Guard> | SameMembers(guards, other) ::
               Decision(engine, token, other) == Decision(engine, token, guards)) <==>
            (forall g, h | g in guards && h in guards :: !Conflict(engine, token, g, h))
  {
    if forall g, h | g in guards && h in guards :: !Conflict(engine, token, g, h) {
      forall other: seq<Guard> | SameMembers(guards, other)
        ensures Decision(engine, token, other) == Decision(engine, token, guards)
      {
        NoConflictOneDecision(engine, token, guards, other);
      }
    } else {
      var g, h :| g in guards && h in guards && Conflict(engine, token, g, h);
      FirstDecides(engine, token, g, guards);
      FirstDecides(engine, token, h, guards);
      FrontKeepsMembers(g, guards);
      FrontKeepsMembers(h, guards);
      assert Decision(engine, token, [g] + guards) != Decision(engine, token, [h] + guards);
    }
  }

  /** A listed role the claims do not satisfy, and a guard that rejects them for another reason. */
  predicate RoleAndMore(engine: Engine, claims: Claims, g: Guard, h: Guard) {
    && g.RequireRole? && !engine.satisfies(claims.role, g.role)
    && !h.RequireRole? && Refusal(engine, claims, h).Some? && Refusal(engine, claims, h) != Some(InsufficientRole)
  }

  /** Which is the case exactly when the token is accepted, some listed role is not satisfied, and some other
      guard rejects with another error. */
  lemma ConflictIff(engine: Engine, token: Option<string>, guards: seq<Guard>)
    ensures (exists g, h | g in guards && h in guards :: Conflict(engine, token, g, h)) <==>
              Checked(engine, token).Ok? &&
              exists g, h | g in guards && h in guards :: RoleAndMore(engine, Checked(engine, token).value, g, h)
  {
    if g, h :| g in guards && h in guards && Conflict(engine, token, g, h) {
      ConflictIsRole(engine, token, g, h);
      if g.RequireRole? {
        assert RoleAndMore(engine, Checked(engine, token).value, g, h);
      } else {
        assert RoleAndMore(engine, Checked(engine, token).value, h, g);
      }
    }
    if Checked(engine, token).Ok? {
      if g, h :| g in guards && h in guards && RoleAndMore(engine, Checked(engine, token).value, g, h) {
        assert Conflict(engine, token, g, h);
      }
    }
  }

  lemma ConflictIsRole(engine: Engine, token: Option<string>, g: Guard, h: Guard)
    requires Conflict(engine, token, g, h)
    ensures Checked(engine, token).Ok?
    ensures var claims := Checked(engine, token).value;
            RoleAndMore(engine, claims, g, h) || RoleAndMore(engine, claims, h, g)
  {
    if !g.RequireRole? && !h.RequireRole? {
      RefusalsAgree(engine, token, g, h);
    }
  }

  /** A refused token passes only the guards that never reject. */
  lemma RefusedTokenPasses(engine: Engine, token: Option<string>, guards: seq<Guard>)
    requires Checked(engine, token).Err?
    ensures Outcome(engine, token, guards).Ok? <==> forall g | g in guards :: g.OptionalUser?
  {
    AdmitsIff(engine, token, guards);
    forall g | g in guards ensures Verdict(engine, token, g).Ok? <==> g.OptionalUser? {
    }
  }

  lemma {:induction false} AskedAtLeastOnce(engine: Engine, token: Option<string>, guards: seq<Guard>)
    ensures Asked(engine, token, guards) == 0 <==> token.None? || guards == []
  {
    if guards != [] {
      AskedAtLeastOnce(engine, token, guards[..|guards| - 1]);
    }
  }

  lemma {:induction false} AcceptedAskedOnce(engine: Engine, token: Option<string>, guards: seq<Guard>)
    requires Checked(engine, token).Ok?
    ensures Asked(engine, token, guards) <= 1
  {
    if guards != [] {
      AcceptedAskedOnce(engine, token, guards[..|guards| - 1]);
    }
  }

  lemma {:induction false} RefusedAskedOnce(engine: Engine, token: Option<string>, guards: seq<Guard>)
    requires token.Some? && Checked(engine, token).Err?
    ensures Asked(engine, token, guards) <= 1 <==> |guards| <= 1 || !guards[0].OptionalUser?
  {
    if |guards| > 1 {
      var front := guards[..|guards| - 1];
      assert front[0] == guards[0] && guards[0] in front;
      RefusedAskedOnce(engine, token, front);
      AskedAtLeastOnce(engine, token, front);
      RefusedTokenPasses(engine, token, front);
    } else if |guards| == 1 {
      AskedAtLeastOnce(engine, token, guards[..0]);
    }
  }

  /** The token is verified at most once, whatever the stack, unless it is refused and the stack goes
      on after an `OptionalUser`. */
  lemma AskedAtMostOnceIff(engine: Engine, token: Option<string>, guards: seq<Guard>)
    ensures Asked(engine, token, guards) <= 1 <==>
              token.None? || Checked(engine, token).Ok? || |guards| <= 1 || !guards[0].OptionalUser?
    ensures Asked(engine, token, guards) == 0 <==> token.None? || guards == []
  {
    AskedAtLeastOnce(engine, token, guards);
    if Checked(engine, token).Ok? {
      AcceptedAskedOnce(engine, token, guards);
    } else if token.Some? {
      RefusedAskedOnce(engine, token, guards);
    }
  }

  /** The least such stack: a refused token is verified twice. */
  lemma AskedTwice(engine: Engine, token: Option<string>)
    requires token.Some? && Checked(engine, token).Err?
    ensures Asked(engine, token, [OptionalUser, AuthUser]) == 2
  {
    var one, two := [OptionalUser], [OptionalUser, AuthUser];
    assert two[..1] == one && one[..0] == [];
    assert Asked(engine, token, one) == 1;
    assert Outcome(engine, token, one).Ok?;
  }
}
