# A verified model of rust-auth

This project models the parts of the rust-auth workspace where correctness spans many steps or many
functions, and proves what they promise for every input, every interleaving and every reachable state.
Nothing in it is executed; `dafny verify dfyconfig.toml` checks all of it.

**Refresh sessions** (`SessionStore`, `SessionSystem`, `SessionInvariant`, `SessionTheorems`,
`SessionRevocation`, `SessionLifetime`, `SessionClock`, `SessionIndexes`, `SessionEpochs`, `SessionSparing`,
`SessionOthers`, `SessionCaller`, `RedisScripts`). The Redis keyspaces `rt`, `rp`, `cf`, `fam`, `sess`, `sd`
and `ep`, with expiries, and the six Lua scripts that change them. The scripts are methods of a class that
run command by command; each is proved equal to a function on the keyspaces. Over those functions a state
machine interleaves sign-ins, sign-outs, sweeps, epoch bumps, clock ticks, pruning, and any number of
refresh requests and of calls that log out everywhere else, each split at every store round trip. An
inductive invariant carries the theorems: how many sessions one token can buy, how long each key lives by
the clock, what the indexes name, that a replay is always recognised, that a revoked lineage never returns,
what a revocation reaches, and exactly when a sweep is final, when the absolute lifetime is, when a sweep
and a bump end an account's access, when logging out everywhere else is final for the other sessions, when
it leaves no grace pointer, and when the caller stays signed in. Each of these conditions is on the state
the operation finds.

**The native client** (`ClientRefresh`, `ClientOutcome`, `ClientSends`, `ClientSlot`). Any number of `me()`
calls share one token slot and one refresh lock, against a backend that may answer anything. Safety over
every interleaving, a balance of refreshes sent and answered, what each call answers, a termination measure,
and freedom from deadlock. A caller that drops its `me()` future in the middle of a refresh releases the
lock as an error does, and is covered by the replies that are errors. The client's own methods are written
in program order, with other calls running at every await, and proved to be runs of that machine.

**Session cookies** (`Cookies`, `CookieBrowser`). The jar keyed by name, the extra headers, and a browser
store after section 5.3 of RFC 6265. How a browser reads a `Domain` attribute is a parameter.

**Request guards** (`Guards`), **the client address** (`ClientIp`), **codecs** (`Base64url`, `Hex`,
`ApiKey`, `Otpauth`, `RedisKeys`), **one-time passwords** (`Bits`, `Totp`) and **tokens** (`Jwt`,
`JwtEdge`). `Texts` and `Prelude` hold what they share.

Keyed hashes, JSON, address syntax, the trust predicate and the engine's answers are functions passed in
as parameters; clocks and random draws are parameters of steps. A random draw is a value nobody has seen.

## Where the code and its documentation part

Each of these has the exact condition as a theorem and a lemma that reaches the failing case.

- `recover_grace.lua` and its caller describe a missing session index as the sign of a sweep. A later
  sign-in creates the index again, so a recovery that was in flight across a sweep and a new sign-in is
  still admitted, because a sweep leaves the lineage's own index in place (`SweepIsFinalIff`,
  `SweepCanBeOvertaken`).
- `refresh_single_flight` is documented to perform exactly one refresh for any number of calls that fail with
  one token. That holds of the rotations that are stored, and of the requests that are sent as long as no
  reply is an error; after an error the next waiting call sends again (`SecondSendIff`, `TwoCallsSendTwo`).
- `revoke_all_sessions` advances the epoch so that access tokens already issued stop verifying. The epoch of a
  refreshed token is read in a round trip after its session was stored, so a token whose epoch is read after
  the bump is accepted although its session was swept (`SweptSignsIff`, `AccessIsOverIff`,
  `SigningOutlivesSweep`). The counter
  also starts again at one when its retention runs out, so a token signed under a higher count just before
  that is accepted after the next bump (`AcceptedIff`, `LapsedCounterAccepts`).
- `revoke_all_except_current` lists the sessions and then revokes them one at a time; a session that is rotated
  or recovered in between leaves its successor alive (`SpareIsFinalIff`, `OtherLineageIsOverIff`, `RevivedRun`).
  It sweeps every grace pointer of the account; a rotation during the sweep, of the kept session too, leaves a
  new one (`PointersAreGoneIff`, `PointedRun`). It settles which session to keep one round trip before it lists
  them; a rotation of that session in between makes the caller's own successor one of the others
  (`CallerIsSafeIff`, `RotateAway`).
- The edge reads the discriminator of a token as a plain string before it verifies; the claim struct also takes it
  as a map of one field (`EdgeDisagreesIff`, `NestedTypeDisagrees`).
- `clear_session` hands its first scope to a jar that emits a removal only for a cookie the request brought
  (`SignOutIsCompleteIff`, `SignOutLeavesUncarried`).
- A token refused under `OptionalAuthUser` is not cached, so a guard stacked after it verifies the token again
  (`AskedAtMostOnceIff`, `AskedTwice`).
- `validate_temporal` saturates: at the last representable second it refuses a token whose extended expiry lies
  beyond it (`SaturationIff`, `LastSecondRefuses`).

## Model

| member | source | states |
|---|---|---|
| RedisScripts.Plane.CreateSession | crates/bymax-auth-redis/src/stores/session.rs:168-235 | The transaction stores the record, its detail, its index entry and its lineage entry, each to expire with the lifetime, and nothing else; no empty set is left |
| RedisScripts.Plane.RefreshRotate | crates/bymax-auth-redis/src/lua/refresh_rotate.lua:45-114 | The script is the specified rotation on all keyspaces, with its reply: rotated with the old record, grace with the recovered record, reused with the lineage, or invalid |
| RedisScripts.Plane.RotateFound | crates/bymax-auth-redis/src/lua/refresh_rotate.lua:45-86 | The live arm, command by command, moves record, pointer, marker, lineage and index exactly as the rotation function says |
| RedisScripts.Plane.RecoverGrace | crates/bymax-auth-redis/src/lua/recover_grace.lua:35-49 | Writes the recovered session, with its detail and both index entries, exactly when both witness indexes exist, and otherwise changes nothing |
| RedisScripts.Plane.RevokeLineage | crates/bymax-auth-redis/src/lua/revoke_family.lua:21-38 | The member loop deletes every session of the lineage index and its detail, prunes the owner's index if the owner is known, drops the lineage index, and counts the members |
| RedisScripts.Plane.InvalidateUserSessions | crates/bymax-auth-redis/src/lua/invalidate_user_sessions.lua:20-31 | The member loop deletes every live session with its detail and every grace pointer the index names, then the index, and counts them |
| RedisScripts.Plane.RevokeOwned | crates/bymax-auth-redis/src/lua/session_revoke.lua:14-20 | Removes a session and its detail exactly when the account's index names it |
| RedisScripts.Plane.PruneDead | crates/bymax-auth-redis/src/lua/session_prune_dead.lua:13-20 | Removes and returns exactly the candidates whose key is gone |
| RedisScripts.Plane.AdvanceEpoch | crates/bymax-auth-redis/src/stores/session.rs:704-722 | The counter goes up by one, from an absent one to one, is kept for the retention, and its value is returned |
| RedisScripts.Plane.SweepPointers | crates/bymax-auth-redis/src/stores/session.rs:571-595 | Undisturbed, the loop deletes exactly the grace pointers the index names and takes them off the index |
| RedisScripts.Plane.RevokeOthers | crates/bymax-auth-core/src/services/session.rs:359-410 | Undisturbed, of the sessions and pointers the index names only the kept session is left, and the epoch is advanced |
| SessionInvariant.StepKeeps | crates/bymax-auth-core/src/services/token_manager.rs:531-718 | Every step of every request, sign-in, sign-out, prune or tick keeps the invariant: hashes known, expiries bounded, every session and pointer indexed and owned, consumed tokens dead, identity inherited |
| SessionInvariant.Reachable | crates/bymax-auth-core/src/services/token_manager.rs:531-718 | The invariant holds after every run from the empty store |
| SessionInvariant.RotateSound | crates/bymax-auth-redis/src/lua/refresh_rotate.lua:46-86 | A rotation under an unseen hash keeps every index complete and every owner right |
| SessionInvariant.CreateSound | crates/bymax-auth-redis/src/stores/session.rs:168-235 | So does storing a session |
| SessionInvariant.RevokeFamilyShrinks | crates/bymax-auth-redis/src/lua/revoke_family.lua:21-38 | Revoking a lineage only takes keys away and leaves every remaining session and pointer indexed |
| SessionInvariant.RevokeAllShrinks | crates/bymax-auth-redis/src/lua/invalidate_user_sessions.lua:20-31 | So does signing out everywhere |
| SessionInvariant.OtherIsTame | crates/bymax-auth-core/src/services/token_manager.rs:531-718 | Every step that stores no session only takes session keys away and leaves what remains indexed |
| SessionTheorems.StepSpends | crates/bymax-auth-core/src/services/token_manager.rs:586-662 | What a token can still buy pays for every session a step stores on its behalf |
| SessionTheorems.TokenBuysAtMostTwo | crates/bymax-auth-redis/src/lua/refresh_rotate.lua:87-92 | However many requests present one refresh token, in any interleaving, they store at most two sessions, and at most one without a grace window |
| SessionTheorems.SignedOutTokenIsDead | crates/bymax-auth-redis/src/lua/session_revoke.lua:14-20 | A token with no live key, no pointer and no recovery in flight stores no session in any later run |
| SessionRevocation.RevokeAllIsExact | crates/bymax-auth-redis/src/lua/invalidate_user_sessions.lua:20-31 | Signing out everywhere takes exactly the account's sessions, their details and its grace pointers, and no other account's |
| SessionRevocation.RevokeFamilyIsExact | crates/bymax-auth-redis/src/lua/revoke_family.lua:21-38 | Revoking a lineage takes exactly its sessions, whoever was named as owner |
| SessionRevocation.DeadLineageStaysDead | crates/bymax-auth-redis/src/lua/recover_grace.lua:35-49 | Once a lineage's index is gone, no later run makes a session of it live |
| SessionRevocation.ReuseEndsTheLineage | crates/bymax-auth-core/src/services/token_manager.rs:663-711 | The request that detected a reuse ends the lineage in every later run |
| SessionRevocation.ReplayIsCaught | crates/bymax-auth-redis/src/lua/refresh_rotate.lua:57-114 | For the whole lifetime after a rotation, presenting the old token answers its own identity while pointer and successor live; otherwise it reports a reuse of its own lineage, or is invalid if the record has none |
| SessionRevocation.SignedOutUntilLogin | crates/bymax-auth-redis/src/lua/recover_grace.lua:35-40 | After a sweep no session of the account is live in any run without a new sign-in of that account |
| SessionRevocation.SweepIsFinalIff | crates/bymax-auth-redis/src/lua/recover_grace.lua:35-40 | A sweep is final for a lineage if and only if no request stood between spending one of its grace pointers and the recovery script |
| SessionRevocation.SweepCanBeOvertaken | crates/bymax-auth-redis/src/lua/recover_grace.lua:35-40 | The other case is reached by a run from every state with a live session and a grace window |
| SessionLifetime.PresentedIff | crates/bymax-auth-core/src/services/token_manager.rs:548-585 | A live token is taken up, and rotated into a successor with its record and a whole refresh lifetime, if and only if its record names a tenant and, where there is a cap and a birth, no more than the cap has passed since the birth; refused, it stays as it is |
| SessionLifetime.RecoveredIff | crates/bymax-auth-core/src/services/token_manager.rs:602-620 | A recovery goes on under the same condition on its record |
| SessionLifetime.AliveIff | crates/bymax-auth-redis/src/stores/session.rs:328-336 | And only while its lineage has an index, if it has a lineage |
| SessionLifetime.CapIsFinalIff | crates/bymax-auth-core/src/services/token_manager.rs:1397-1410 | Once more than the cap has passed since its birth, a lineage gains no session and none is prolonged in any run, by rotation or by grace, if and only if no request had passed the cap and could still store |
| SessionLifetime.CapEndsTheLineage | crates/bymax-auth-core/src/services/token_manager.rs:1397-1410 | Then one refresh lifetime later no session of the lineage is live |
| SessionLifetime.CapEndsAt | crates/bymax-auth-core/src/services/token_manager.rs:1397-1410 | If no request can extend the lineage when the clock passes birth plus cap, none of its sessions is live from birth plus cap plus refresh lifetime on |
| SessionClock.LivesItsLifetime | crates/bymax-auth-redis/src/stores/session.rs:168-235 | A session stored by a sign-in, a rotation or an admitted recovery at some instant is live after a run that neither rotates nor revokes it if and only if the clock is below that instant plus the refresh lifetime, and it carries the record it was stored with |
| SessionClock.GraceLastsItsWindow | crates/bymax-auth-redis/src/lua/refresh_rotate.lua:57-92 | A rotated token's pointer names its successor and its record after a run that neither presents it nor deletes the pointer if and only if the clock is below the rotation plus the grace window |
| SessionClock.DetailLivesAsLong | crates/bymax-auth-redis/src/stores/session.rs:168-235 | The detail stored with a session is there exactly as long as the session |
| SessionClock.DetailFollows | crates/bymax-auth-redis/src/stores/session.rs:448-478 | A rotation and the move after it leave a detail under the successor alone, with the record and the expiry of the successor |
| SessionClock.EverythingLapses | crates/bymax-auth-redis/src/stores/session.rs:168-235 | One refresh lifetime after anything was last stored, from any reachable state, no session, pointer, marker, index or detail is left |
| SessionIndexes.SignOutIsExact | crates/bymax-auth-redis/src/lua/session_revoke.lua:14-20 | Signing one session out takes that session, its detail and its index entry if it is the account's, and otherwise nothing; the answer says which |
| SessionIndexes.ReuseLeavesTheIndex | crates/bymax-auth-core/src/services/token_manager.rs:663-711 | After a reuse whose owner was found, no session of the lineage is live, and exactly the lineage's members are off the owner's index |
| SessionIndexes.IndexNamesTheLive | crates/bymax-auth-redis/src/lua/refresh_rotate.lua:45-86 | In every run in which no session expires and every revoked lineage has a known owner, an account's index names a session if and only if it is live and the account's |
| SessionIndexes.LineageNamesTheLive | crates/bymax-auth-redis/src/lua/revoke_family.lua:21-38 | In every run in which sessions are taken only with their lineages, a lineage's index names exactly its live sessions, so that is what a reuse revokes and counts |
| SessionEpochs.AcceptedIff | crates/bymax-auth-core/src/services/token_manager.rs:1070-1096 | A token is accepted after a run if and only if the run took less than the lifetime of access tokens, and did not bump the account, or did so only after the counter it was signed under had lapsed, and no more often than that counter had stood |
| SessionEpochs.BumpLasts | crates/bymax-auth-redis/src/stores/session.rs:704-722 | A bump raises the epoch by one for thirty days, after which the account stands at zero |
| SessionEpochs.SweptSignsIff | crates/bymax-auth-core/src/services/token_manager.rs:591-601 | After a sweep no access token is signed for the account, in any run without a new sign-in of it, if and only if the sweep found no request that had stored a session of the account and not yet read its epoch |
| SessionEpochs.AccessIsOverIff | crates/bymax-auth-core/src/services/auth/session_ops.rs:336-349 | The bump that follows a sweep refuses every token signed before it under the standing counter, and every one signed later without a new sign-in, if and only if it finds no such request or access tokens have no lifetime |
| SessionEpochs.SignedIsEarlier | crates/bymax-auth-core/src/services/token_manager.rs:591-601 | Every token signed before, in any run, is one of those the bump refuses, unless the counter it was signed under has lapsed |
| SessionEpochs.SigningOutlivesSweep | crates/bymax-auth-core/src/services/auth/session_ops.rs:336-349 | From every state with a rotation that is stored and not yet signed, a sweep and a bump leave no session of the account, and the token then signed carries the new epoch |
| SessionEpochs.LapsedCounterAccepts | crates/bymax-auth-redis/src/stores/session.rs:704-722 | From every state with a counter about to lapse, a token signed under it is accepted after the next bump |
| SessionEpochs.EpochAfter | crates/bymax-auth-redis/src/stores/session.rs:648-658 | Within the retention the epoch is the one the first bump found plus the number of bumps |
| SessionSparing.SurvivorsAreKeptOrNew | crates/bymax-auth-core/src/services/session.rs:359-410 | Once what was listed is revoked, every live session of the account is the kept one or was stored after the listing, whatever ran in between |
| SessionOthers.SpareIsFinalIff | crates/bymax-auth-core/src/services/session.rs:359-410 | For any part of the account's sessions without the kept one: none is live once what was listed is revoked, in every run without a sign-in of the account, if and only if the listing finds them dormant: none that is live may continue, no request has read a live one, no request in a recovery is going to be admitted |
| SessionOthers.OtherLineageIsOverIff | crates/bymax-auth-core/src/services/session.rs:359-410 | The same for one other lineage: it is over if and only if at the listing it has no live session or is past its cap, no request holds a live token of it, and no recovery of it is in flight that would be admitted |
| SessionOthers.RevivedRun | crates/bymax-auth-core/src/services/session.rs:375-392 | From every listing that does not find them dormant, a run without a sign-in revokes everything listed and leaves one of them live |
| SessionOthers.PointersAreGoneIff | crates/bymax-auth-core/src/services/session.rs:393-402 | The call ends without a grace pointer of the account, in every run without a sign-in of it, if and only if there is no grace window or the listing of the pointers finds no session of the account that may still be rotated, held by a request or recovered |
| SessionOthers.PointedRun | crates/bymax-auth-redis/src/stores/session.rs:571-595 | From every other state a run deletes all pointers that were listed and leaves one |
| SessionCaller.CallerSurvivesIff | crates/bymax-auth-core/src/services/session.rs:375-392 | However the call goes on beside steps that take no session away, the caller's lineage is live once its revocations are done, if and only if the session chosen to be kept was live at the listing |
| SessionCaller.CallerIsSafeIff | crates/bymax-auth-core/src/services/session.rs:367-380 | From the choice on, whatever such steps run before the listing and after, the caller's lineage survives if and only if the cap holds the chosen session and no request has already read it |
| SessionCaller.RotateAway | crates/bymax-auth-core/src/services/session.rs:367-380 | Otherwise a run rotates the chosen session away before the listing |
| SessionCaller.PresentedIsKept | crates/bymax-auth-core/src/services/session.rs:306-327 | The session to keep is the presented one if it is live, or if the index names it and its detail is left |
| SessionCaller.SuccessorIsKept | crates/bymax-auth-core/src/services/session.rs:328-336 | Otherwise it is the live successor the presented token's pointer names, which carries the pointer's record; without a pointer the call ends |
| SessionSparing.SurvivingPointers | crates/bymax-auth-redis/src/stores/session.rs:571-595 | When the call finishes, every grace pointer of the account belongs to a token that was still live, or not yet drawn, when the pointers were listed, whatever ran in between |
| ClientRefresh.StepKeeps | crates/bymax-auth-client/src/lib.rs:278-306 | Every atomic section of every call keeps the stored pair one the backend issued together, the lock exclusive, and what each call remembers true |
| ClientRefresh.OneInside | crates/bymax-auth-client/src/lib.rs:415-421 | In every run at most one call is inside the refresh section |
| ClientRefresh.RunForward | crates/bymax-auth-client/src/lib.rs:464-496 | In every run the stored pair was issued together and its place in the order of issue never goes back |
| ClientRefresh.ConsumedIsNeverResent | crates/bymax-auth-client/src/lib.rs:402-421 | Once a rotation is stored, every refresh token sent later belongs to a later pair, so the consumed one is not sent again if the backend hands none out twice |
| ClientRefresh.RetryIsLater | crates/bymax-auth-client/src/lib.rs:278-306 | A retry after a 401 uses a token issued strictly after the one that failed |
| ClientRefresh.OneRotationPerToken | crates/bymax-auth-client/src/lib.rs:415-421 | At most one rotation is stored per access token that failed |
| ClientRefresh.RunsEnd | crates/bymax-auth-client/src/lib.rs:278-306 | Every run of n calls ends within 9n steps, whatever the backend answers |
| ClientRefresh.NeverStuck | crates/bymax-auth-client/src/lib.rs:402-421 | While a call is unfinished some call can step |
| ClientRefresh.BoundedRequests | crates/bymax-auth-client/src/lib.rs:278-306 | A call sends at most two profile reads and one refresh |
| ClientOutcome.OutcomeIff | crates/bymax-auth-client/src/lib.rs:278-292 | In every run a call has answered the user if and only if its last profile read succeeded, a missing session if and only if it found the slot empty, and an error if and only if its first read failed other than by a 401, its second did not succeed, or its refresh was not answered with a pair |
| ClientOutcome.RefreshNeeds401 | crates/bymax-auth-client/src/lib.rs:278-292 | A call sends a refresh only after its first read came back with a 401 |
| ClientSends.RunBalances | crates/bymax-auth-client/src/lib.rs:299-306 | Every refresh sent for a token that failed is stored, has failed, or is in flight |
| ClientSends.SentIsFailedAndOneMore | crates/bymax-auth-client/src/lib.rs:409-421 | In every run the refreshes sent for one failed token are those whose reply was an error and at most one more |
| ClientSends.SecondSendIff | crates/bymax-auth-client/src/lib.rs:409-421 | A second refresh is sent for one failed token if and only if one is sent after another's reply was an error |
| ClientSends.TwoCallsSendTwo | crates/bymax-auth-client/src/lib.rs:409-421 | Two calls over one stored session reach a run that sends two |
| ClientSlot.AuthClient.Me | crates/bymax-auth-client/src/lib.rs:278-292 | Whatever other calls do at its awaits, `me` in program order is a run of the state machine, and ends answered or waiting for a lock that is held; it answers the user, a missing session or an error exactly when its reads and replies say so, and a first read that is no 401 decides at once |
| ClientSlot.AuthClient.RefreshSingleFlight | crates/bymax-auth-client/src/lib.rs:415-421 | So is taking the lock, looking again and refreshing; it ends with the lock free, or waiting for it |
| ClientSlot.AuthClient.Refresh | crates/bymax-auth-client/src/lib.rs:299-306 | So is sending the stored refresh token and storing the reply, with the guard dropped on every way out |
| ClientSlot.AuthClient.MeOverSession | crates/bymax-auth-client/src/lib.rs:278-292 | A caller is answered unless another call is inside the refresh section, with the user if and only if its last read succeeded and never with a missing session, sent at most two profile reads and one refresh, and is left with the stored pair or a later one, issued together |
| Cookies.WriteScopes | crates/bymax-auth-axum/src/delivery.rs:118-140 | The nested loop records the first scope in the jar and returns one value per cookie and further scope |
| Cookies.SetAuthCookies | crates/bymax-auth-axum/src/delivery.rs:204-212 | Planting records and returns the three session cookies in every scope; the jar holds the access token under the access name, the refresh token under the refresh name and the signal |
| Cookies.ClearSession | crates/bymax-auth-axum/src/delivery.rs:229-261 | Clearing records and returns the three expiries in every scope |
| CookieBrowser.ResponseCarries | crates/bymax-auth-axum/src/delivery.rs:118-140 | A response carries a header if and only if it is a printable cookie of some scope that the jar does not drop |
| CookieBrowser.OneHeaderEach | crates/bymax-auth-axum/src/delivery.rs:107-140 | The headers of a sign-in are, each once, the cookies of every scope that print as a header value, duplicates of a domain included |
| CookieBrowser.SignInHolds | crates/bymax-auth-axum/src/delivery.rs:150-212 | After a sign-in the browser holds, in every scope it keeps, the access token under the access name at `/`, the refresh token under the refresh name at the refresh path, and the signal `1` at `/`, each if it prints |
| CookieBrowser.SignInHeaders | crates/bymax-auth-axum/src/delivery.rs:150-212 | Every header of a sign-in prints, is one of the three cookies in one of the scopes, and has its attributes: both tokens `HttpOnly`, the refresh token never `Lax`, each `Max-Age` the configured one |
| CookieBrowser.SignOutHeaders | crates/bymax-auth-axum/src/delivery.rs:229-261 | Every header of a sign-out empties and expires one of the three cookies, at the path it was planted at, as securely |
| CookieBrowser.SignOutUndoesSignIn | crates/bymax-auth-axum/src/delivery.rs:229-261 | A sign-out over the same domains, on a request that carried the cookies, removes every session cookie and leaves every other cookie as it was before the sign-in |
| CookieBrowser.SignOutIsCompleteIff | crates/bymax-auth-axum/src/delivery.rs:229-261 | Every planted cookie goes if and only if each name came with the request or a later scope reads the same as the first |
| CookieBrowser.SignOutLeavesUncarried | crates/bymax-auth-axum/src/delivery.rs:229-261 | Without a resolved domain, a sign-out request that carried no cookie leaves the access cookie in the browser |
| Guards.Parts.VerifiedClaims | crates/bymax-auth-axum/src/extractors/mod.rs:91-108 | A missing token is told first, then what verification refuses, then what the tenant binding does; only claims the engine verified and bound are cached; the engine is asked only without a cached value |
| Guards.Parts.Serve | crates/bymax-auth-axum/src/extractors/mod.rs:91-108 | A stack of guards over one cache has the outcome of guards that each verify from scratch, and one that demands a token admits only claims the engine verified and bound |
| Guards.Parts.Extract | crates/bymax-auth-axum/src/extractors/mfa.rs:35-52 | One guard's steps with early returns give its verdict and leave the cache right |
| Guards.AdmitsIff | crates/bymax-auth-axum/src/extractors/status.rs:32-42 | A stack admits a request exactly when each guard alone does, and all see the same claims |
| Guards.OrderIsIrrelevant | crates/bymax-auth-axum/src/extractors/mfa.rs:38-50 | Without role guards the verdict, error included, depends only on which guards are listed, not on order or repetition |
| Guards.ClosedForm | crates/bymax-auth-axum/src/extractors/mfa.rs:38-50 | The verdict in closed form over the engine's answers: the missing token, then what verification refuses, then the tenant binding, then the account's refusal if a guard asks for it or a second factor is pending, then the second factor |
| Guards.AdmittedIff | crates/bymax-auth-axum/src/extractors/role.rs:38-46 | A stack of any guards admits a request if and only if it demands no token and the token does not pass, or the token is verified and bound and its claims satisfy every guard listed, roles included |
| Guards.OneDecisionIff | crates/bymax-auth-axum/src/extractors/role.rs:38-46 | For every stack, all orders and repetitions of its guards give one decision if and only if no two of them reject with different errors |
| Guards.ConflictIff | crates/bymax-auth-axum/src/extractors/role.rs:38-46 | Two of them do if and only if the token is accepted, some listed role is not satisfied, and some other guard rejects with another error |
| Guards.AskedAtMostOnceIff | crates/bymax-auth-axum/src/extractors/optional.rs:25-30 | The token is verified at most once exactly when it is missing or accepted, or the stack has one guard or does not start with the optional one |
| Guards.AskedTwice | crates/bymax-auth-axum/src/extractors/optional.rs:25-30 | An optional guard before a required one verifies a refused token twice |
| ClientIp.Resolve | crates/bymax-auth-axum/src/client_ip.rs:50-72 | The loop with its breaks is the right-to-left walk |
| ClientIp.WalkEndsPastTrusted | crates/bymax-auth-axum/src/client_ip.rs:61-71 | The walk ends at the address left of the longest trusted run, else at that run's last address, else at the peer |
| ClientIp.TrustedTailIsLongest | crates/bymax-auth-axum/src/client_ip.rs:62-70 | Every hop right of the client is a trusted address, and the run cannot be longer |
| ClientIp.PrefixIsIgnored | crates/bymax-auth-axum/src/client_ip.rs:50-72 | Text prepended to the header changes nothing if the walk stops inside what the proxies appended |
| ClientIp.PrefixIsIgnoredIff | crates/bymax-auth-axum/src/client_ip.rs:50-72 | Prepended text never matters if and only if the policy ignores the header, the peer is unknown or not trusted, or some appended entry is not a trusted proxy |
| ClientIp.LinesContinue | crates/bymax-auth-axum/src/client_ip.rs:93-100 | The entries of several header lines are, in order, those of the lines that are visible ASCII; the others add nothing, and without such a line the header is one empty entry |
| ClientIp.EarlierLinesAreIgnored | crates/bymax-auth-axum/src/client_ip.rs:80-100 | A readable last line decides alone, whatever lines precede it, if the walk stops inside it |
| ClientIp.MappedIsItself | crates/bymax-auth-axum/src/client_ip.rs:50-72 | An IPv4 host written into IPv6 is that host, and no other address is rewritten |
| ClientIp.SameBucketIff | crates/bymax-auth-axum/src/rate_limit.rs:79-88 | Bucketing is idempotent, ignores the mapped spelling, and two addresses share a bucket exactly when they are one IPv4 host or lie in one /64 |
| ClientIp.SameBudgetIff | crates/bymax-auth-axum/src/rate_limit.rs:45-88 | Two requests are charged to one budget if and only if the clients they resolve to are one IPv4 host or lie in one /64, whatever proxies they came through |
| ClientIp.PeerIsCharged | crates/bymax-auth-axum/src/rate_limit.rs:45-56 | Without a trusted peer a request is its peer's and is charged alike whether its address was resolved first or not, whatever its header says |
| Base64url.Encode | crates/bymax-auth-crypto/src/api_key.rs:151-166 | The loop over groups, with the 24-bit arithmetic, writes the bit fields of section 5 of RFC 4648 |
| Base64url.DecodesIff | crates/bymax-auth-crypto/src/api_key.rs:151-166 | A text decodes to some bytes if and only if it is their encoding |
| Base64url.Length | crates/bymax-auth-crypto/src/api_key.rs:151-166 | Exactly ceil(4n/3) characters, all of the alphabet |
| Base64url.Injective | crates/bymax-auth-crypto/src/api_key.rs:151-166 | Different bytes never encode alike |
| ApiKey.ParsesIff | crates/bymax-auth-crypto/src/api_key.rs:80-88 | A string parses to some parts if and only if they are well formed and it is their formatted key, even when the secret holds the separator |
| ApiKey.OnePrefix | crates/bymax-auth-crypto/src/api_key.rs:80-88 | No string parses under two prefixes |
| ApiKey.FreshKeyParses | crates/bymax-auth-crypto/src/api_key.rs:63-72 | Every 32-byte draw is a secret, its key parses back, and the draw can be decoded from it |
| ApiKey.DecodeDigest | crates/bymax-auth-crypto/src/api_key.rs:127-138 | The array holds the bytes whose encoding the text is, or zeros if the text is no digest |
| ApiKey.DigestsMatch | crates/bymax-auth-crypto/src/api_key.rs:105-110 | Two digests match if and only if they are the same well-formed text |
| ApiKey.WellFormedIff | crates/bymax-auth-crypto/src/api_key.rs:127-131 | The well-formed texts are the encodings of 32 bytes |
| Hex.Encode | crates/bymax-auth-crypto/src/token.rs:92-99 | The loop writes two digits per byte, high digit first |
| Hex.SpellsIff | crates/bymax-auth-crypto/src/api_key.rs:141-147 | Some bytes are what a text's digit pairs spell exactly when the text is their encoding |
| Hex.Injective | crates/bymax-auth-redis/src/keys.rs:14-21 | Different bytes never encode alike |
| Otpauth.PercentEncode | crates/bymax-auth-crypto/src/totp.rs:193-205 | The loop escapes exactly the bytes that are not unreserved |
| Otpauth.PercentRoundTrip | crates/bymax-auth-crypto/src/totp.rs:193-205 | A decoder of section 2.1 of RFC 3986 gives every input back |
| Otpauth.PercentIsPlain | crates/bymax-auth-crypto/src/totp.rs:193-205 | Nothing but letters, digits, `-`, `_`, `.`, `~` and the percent sign is written |
| Otpauth.Base32Injective | crates/bymax-auth-crypto/src/totp.rs:143-145 | Different secrets never print alike in Base32 |
| Otpauth.Base32At | crates/bymax-auth-crypto/src/totp.rs:143-145 | Character k spells bits 5k to 5k + 4 of the secret, most significant first and zero past the end (section 6 of RFC 4648) |
| Otpauth.UriReads | crates/bymax-auth-crypto/src/totp.rs:182-190 | A reader that splits the URI finds the issuer and the account in its label, and the secret, the issuer and the fixed parameters in its query |
| Otpauth.UriDeterminesInputs | crates/bymax-auth-crypto/src/totp.rs:182-190 | Different secrets, accounts or issuers never give the same URI |
| RedisKeys.KeyInjective | crates/bymax-auth-redis/src/keys.rs:193-195 | In one namespace a key belongs to one prefix and one id, whatever characters the id holds |
| RedisKeys.WireInjective | crates/bymax-auth-redis/src/keys.rs:124-160 | No two of the 33 prefixes share a wire form |
| RedisKeys.RateLimitIsApart | crates/bymax-auth-redis/src/keys.rs:205-207 | A rate-limit counter is never a catalogue key |
| RedisKeys.RateLimitInjective | crates/bymax-auth-redis/src/keys.rs:205-207 | With hashes of one width a counter belongs to one route and one bucket, even when routes hold colons |
| RedisKeys.WidthMatters | crates/bymax-auth-redis/src/keys.rs:197-207 | With hashes of different widths two counters can coincide |
| Totp.TruncationIsModular | crates/bymax-auth-crypto/src/totp.rs:59-67 | Mask, shift and or stay in range and give the selected big-endian integer modulo 2^31 (section 5.3 of RFC 4226) |
| Totp.HotpIs | crates/bymax-auth-crypto/src/totp.rs:59-70 | A password is the four bytes the last nibble selects, without their top bit, modulo ten to the digits, up to nine of them (section 5.3 of RFC 4226) |
| Totp.HotpRange | crates/bymax-auth-crypto/src/totp.rs:68-70 | A code is below 10^digits up to nine digits and below 10^6 from ten on |
| Totp.Verify | crates/bymax-auth-crypto/src/totp.rs:107-132 | The accumulating loop answers true if and only if some step within min(window, 2) of now, not before the epoch, has the code as its padded password |
| Totp.CodeVerifies | crates/bymax-auth-crypto/src/totp.rs:84-88 | A code made at one time is accepted at another whenever their steps are at most min(window, 2) apart |
| Totp.CodeVerifiesInSeconds | crates/bymax-auth-crypto/src/totp.rs:107-132 | In seconds: 30 for each step of the window, before or after |
| Totp.AcceptedCodeReads | crates/bymax-auth-crypto/src/totp.rs:113-130 | An accepted code is six characters that read as the password of a step in the window |
| Totp.PaddedReads | crates/bymax-auth-crypto/src/totp.rs:121-125 | Zero-padding gives six characters that read back as the number |
| Jwt.VerifiesIff | crates/bymax-auth-jwt/src/hs256.rs:65-94 | Verification answers some claims if and only if the token is three base64url segments with an HS256 header, a payload that decodes to them and the tag of the first two segments as written, the claims are within the exact window but for the last representable second, and they carry every issuer and audience expected |
| Jwt.SignedVerifies | crates/bymax-auth-jwt/src/hs256.rs:41-49 | A signed token verifies to the same claims, or to the error of time or binding |
| Jwt.OneSpelling | crates/bymax-auth-jwt/src/hs256.rs:79-86 | Two accepted tokens with the same header and payload segments are the same text |
| Jwt.SaturationIff | crates/bymax-auth-jwt/src/hs256.rs:126-142 | The saturating check equals the exact window (sections 4.1.4 and 4.1.6 of RFC 7519) if and only if it is not the last representable second with an extended expiry beyond it |
| Jwt.LastSecondRefuses | crates/bymax-auth-jwt/src/hs256.rs:133-135 | At the last second claims the exact window accepts are refused |
| Jwt.LeewayIsMonotone | crates/bymax-auth-jwt/src/hs256.rs:126-142 | A longer leeway never refuses what a shorter one accepts |
| Jwt.VerifyRotating | crates/bymax-auth-core/src/services/token_manager.rs:244-270 | The search over retired keys accepts a token exactly when some key does, with the claims any such key reads, and otherwise answers the current key's error |
| Jwt.AnyKeyReadsTheSigned | crates/bymax-auth-core/src/services/token_manager.rs:244-270 | Whatever key accepts a signed token reads the claims that were signed |
| JwtEdge.EdgeAcceptsIff | bindings/bymax-auth-wasm/src/jwt_edge.rs:123-176 | The edge, asked for a type, accepts claims if and only if the server verifies them into that type and the signed payload names the type |
| JwtEdge.EdgeDisagreesIff | bindings/bymax-auth-wasm/src/jwt_edge.rs:123-176 | What the edge accepts the server accepts with the same claims, and the edge refuses what the server accepts if and only if the signed payload does not name the type as a plain field |
| JwtEdge.NestedTypeDisagrees | bindings/bymax-auth-wasm/src/jwt_edge.rs:123-153 | A JSON library that reads back everything it writes, and also reads claims from a payload whose type is no string, gives a signed token that the server accepts and the edge refuses |
| JwtEdge.SignedAtTheEdge | bindings/bymax-auth-wasm/src/jwt_edge.rs:155-172 | On every signed token the edge answers as the server if the type is the expected one and refuses it otherwise |
| JwtEdge.EdgeOtherwise | bindings/bymax-auth-wasm/src/jwt_edge.rs:88-96 | Asked for no type the edge accepts what it accepts for some type; asked for an unknown one it accepts nothing |
| JwtEdge.VerifiedIsExtracted | bindings/bymax-auth-wasm/src/jwt_edge.rs:186-192 | What the edge verifies is what it would display |
| JwtEdge.EdgeSlackIsBounded | bindings/bymax-auth-wasm/src/lib.rs:94-96 | The clamped leeway accepts what the zero-leeway check refuses only within the leeway given of expiry or issue, 30 seconds if none is given, and at most 300 |

## Left out

- The access-token blacklist `rv`, the recent-authentication marker and the session cap's eviction: single keys, or the modelled revocation of one session.
- The platform plane: the same scripts over other prefixes; `RedisKeys.KeyInjective` keeps the planes apart.
- Listing an account's sessions is one step, at the read of the index: the detail reads after it only drop entries that are dead, and the pruning at its end is a step of its own.
- SessionOthers.OtherLineageIsOverIff: not for sessions stored before lineages existed, which have none; `SessionOthers.SpareIsFinalIff` covers them by their records.
- SessionCaller.CallerIsSafeIff: not for a kept session stored before lineages existed, because it has no lineage to follow.
- The epoch a sign-in's own access token carries is read before its session is stored; `SessionEpochs.AcceptedIff` covers a token from the state its epoch was read in, whoever reads it.
- The shape check of a presented refresh token, hooks, logging, store failures, and the re-reading of the account after a refresh.
- Client runs that mix `logout` or the public `refresh` with `me()`: they do not take the lock.
- Folding the case of cookie domains, and reading the bearer header and the access cookie.
- The guards for self-or-admin access and for the platform plane.
- Base32 decoding with separators, and the other scripts (brute-force counters, one-time codes, locks, invitations).
- JSON text, key derivation, encryption, constant-time behaviour and zeroizing.
- Jwt.VerifiesIff: the system clock is a parameter, and claims beyond time, issuer, audience and type are one opaque field.
- ClientRefresh.ConsumedIsNeverResent: that the backend hands no refresh token out twice is a condition of its last clause.
