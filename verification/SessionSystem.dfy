/**
 Every interleaving of logins, refreshes, sign-outs, revocations and the clock over one session
 store.

 A refresh is several store round trips, so a request in flight is a phase that any other step may
 run ahead of. The only fact used about the random source is that a drawn hash or family id has not
 been seen before.
 */
module SessionSystem {
  import opened Prelude
  import opened SessionStore

  /** Where one request stands between two round trips: a `reissue_tokens` call, or, from `Resolving` on,
      a `revoke_all_except_current` call. */
  datatype Phase =
    | Seeded(token: Hash, seed: Option<Record>)
    | GraceReplied(token: Hash, record: Record)
    | LineageAlive(token: Hash, record: Record)
    | Recovering(token: Hash, record: Record)
    | Moving(token: Hash, drawn: Hash, record: Record)
    | Signing(account: Subject)
    | ReuseSeen(family: Family)
    | OwnerRead(family: Family, owner: Option<Subject>)
    | Resolving(account: Subject, presented: Hash, entries: set<Hash>)
    | Chosen(account: Subject, kept: Hash)
    | Sparing(account: Subject, victims: set<Hash>)
    | Sweeping(account: Subject, pointers: set<Hash>)
    | Unindexing(account: Subject, pointer: Hash, pointers: set<Hash>)

  /** `seen` holds every hash ever drawn or presented; `lineages` every family id ever drawn, with
      the record its login stored. */
  datatype System = System(
    store: Store,
    seen: set<Hash>,
    lineages: map<Family, Record>,
    pending: map<nat, Phase>)

  datatype Step =
    | Login(hash: Hash, record: Record)
    | Present(request: nat, token: Hash)
    | RunRotate(request: nat, drawn: Hash)
    | CheckLineage(request: nat)
    | CheckRecovered(request: nat)
    | RunRecover(request: nat, drawn: Hash)
    | RunMove(request: nat)
    | ReadEpoch(request: nat)
    | ReadOwner(request: nat, member: Option<Hash>)
    | RunRevokeFamily(request: nat)
    | SignOut(subject: Subject, hash: Hash)
    | DropGrace(hash: Hash)
    | SignOutEverywhere(account: Subject)
    | Bump(account: Subject)
    | Settle(request: nat, account: Subject, presented: Hash)
    | ReadSuccessor(request: nat)
    | Spare(request: nat)
    | RevokeVictim(request: nat, hash: Hash)
    | ListPointers(request: nat)
    | DeletePointer(request: nat, hash: Hash)
    | RemovePointer(request: nat)
    | Finish(request: nat)
    | PruneIndex(owner: Subject, candidates: set<Member>)
    | Tick(seconds: nat)

  /** A drawn family id is new; a record written before families existed has none. */
  predicate FreshLineage(y: System, record: Record) {
    record.family == "" || record.family !in y.lineages
  }

  /** The live family member `find_family_owner` read its record from. It reads the members one by
      one, so it may also find none. */
  predicate OwnerWitness(s: Store, family: Family, member: Option<Hash>) {
    member.Some? ==> member.value in Members(s.fam, family) && member.value in s.rt
  }

  ghost predicate Enabled(y: System, step: Step) {
    match step
    case Login(hash, record) => hash !in y.seen && FreshLineage(y, record)
    case Present(request, _) => request !in y.pending
    case RunRotate(request, drawn) =>
      request in y.pending && y.pending[request].Seeded? && drawn !in y.seen
    case CheckLineage(request) => request in y.pending && y.pending[request].GraceReplied?
    case CheckRecovered(request) => request in y.pending && y.pending[request].LineageAlive?
    case RunRecover(request, drawn) =>
      request in y.pending && y.pending[request].Recovering? && drawn !in y.seen
    case RunMove(request) => request in y.pending && y.pending[request].Moving?
    case ReadEpoch(request) => request in y.pending && y.pending[request].Signing?
    case ReadOwner(request, member) =>
      && request in y.pending && y.pending[request].ReuseSeen?
      && OwnerWitness(y.store, y.pending[request].family, member)
    case RunRevokeFamily(request) => request in y.pending && y.pending[request].OwnerRead?
    case Settle(request, _, _) => request !in y.pending
    case ReadSuccessor(request) => request in y.pending && y.pending[request].Resolving?
    case Spare(request) => request in y.pending && y.pending[request].Chosen?
    case RevokeVictim(request, hash) =>
      request in y.pending && y.pending[request].Sparing? && hash in y.pending[request].victims
    case ListPointers(request) => request in y.pending && y.pending[request].Sparing? && y.pending[request].victims == {}
    case DeletePointer(request, hash) =>
      request in y.pending && y.pending[request].Sweeping? && hash in y.pending[request].pointers
    case RemovePointer(request) => request in y.pending && y.pending[request].Unindexing?
    case Finish(request) => request in y.pending && y.pending[request].Sweeping? && y.pending[request].pointers == {}
    case SignOut(_, _) => true
    case DropGrace(_) => true
    case SignOutEverywhere(_) => true
    case Bump(_) => true
    case PruneIndex(_, _) => true
    case Tick(_) => true
  }

  /** The record a rotation stores: the live record it read first, or the placeholder. */
  function SeedRecord(seed: Option<Record>): Record {
    if seed.Some? then seed.value else PLACEHOLDER
  }

  /** The checks made between reading the live record and running the rotation script. */
  predicate MayRotate(cfg: Config, seed: Option<Record>, now: nat) {
    seed.Some? ==> MayContinue(cfg, seed.value, now)
  }

  /** The cap and the tenant: what a live and a recovered record both have to pass. */
  predicate MayContinue(cfg: Config, record: Record, now: nat) {
    record.subject.tenant != "" && WithinCap(cfg, record, now)
  }

  /** `family_is_alive`. */
  predicate HasLineage(s: Store, record: Record) {
    record.family == "" || record.family in s.fam
  }

  /** What a request does with the answer of the rotation script. */
  function AfterReply(phase: Phase, drawn: Hash, reply: Reply): Option<Phase>
    requires phase.Seeded?
  {
    match reply
    case Rotated(_) => Some(Moving(phase.token, drawn, SeedRecord(phase.seed)))
    case GraceHit(record) => Some(GraceReplied(phase.token, record))
    case Reused(family) => Some(ReuseSeen(family))
    case Invalid => None
  }

  /** The request moves to the phase, or is answered. */
  function Moved(pending: map<nat, Phase>, request: nat, phase: Option<Phase>): map<nat, Phase> {
    if phase.Some? then pending[request := phase.value] else pending - {request}
  }

  /** What the step does to the keyspaces. */
  ghost function Stored(cfg: Config, y: System, step: Step): Store
    requires Enabled(y, step)
  {
    match step
    case Login(hash, record) => Create(y.store, hash, record, cfg.refreshTtl)
    case RunRotate(request, drawn) =>
      Rotate(y.store, cfg, y.pending[request].token, drawn, SeedRecord(y.pending[request].seed)).0
    case RunRecover(request, drawn) => Recover(y.store, drawn, y.pending[request].record, cfg.refreshTtl).0
    case RunMove(request) =>
      var p := y.pending[request];
      MoveDetail(y.store, cfg, p.token, p.drawn, p.record)
    case RunRevokeFamily(request) =>
      var p := y.pending[request];
      if p.family == "" then y.store else RevokeFamily(y.store, p.family, p.owner)
    case SignOut(subject, hash) => RevokeSession(y.store, subject, hash).0
    case DropGrace(hash) => DropPointer(y.store, hash)
    case SignOutEverywhere(subject) => RevokeAll(y.store, subject)
    case Bump(account) => BumpEpoch(y.store, account)
    case RevokeVictim(request, hash) => RevokeSession(y.store, y.pending[request].account, hash).0
    case DeletePointer(_, hash) => DropPointer(y.store, hash)
    case RemovePointer(request) => UnindexPointer(y.store, y.pending[request].account, y.pending[request].pointer)
    case Finish(request) => BumpEpoch(y.store, y.pending[request].account)
    case PruneIndex(subject, candidates) => Prune(y.store, subject, candidates)
    case Tick(seconds) => Advance(y.store, seconds)
    case _ => y.store
  }

  /** What the step does to the requests in flight. */
  ghost function Pending(cfg: Config, y: System, step: Step): map<nat, Phase>
    requires Enabled(y, step)
  {
    match step
    case Present(request, token) =>
      var seed := if token in y.store.rt then Some(y.store.rt[token].value) else None;
      if MayRotate(cfg, seed, y.store.now) then y.pending[request := Seeded(token, seed)] else y.pending
    case RunRotate(request, drawn) =>
      var p := y.pending[request];
      var reply := Rotate(y.store, cfg, p.token, drawn, SeedRecord(p.seed)).1;
      Moved(y.pending, request, AfterReply(p, drawn, reply))
    case CheckLineage(request) =>
      var p := y.pending[request];
      Moved(y.pending, request, if HasLineage(y.store, p.record) then Some(LineageAlive(p.token, p.record)) else None)
    case CheckRecovered(request) =>
      var p := y.pending[request];
      Moved(y.pending, request,
            if MayContinue(cfg, p.record, y.store.now) then Some(Recovering(p.token, p.record)) else None)
    case RunRecover(request, _) =>
      var p := y.pending[request];
      Moved(y.pending, request, if RecoveryAdmitted(y.store, p.record) then Some(Signing(p.record.subject)) else None)
    case RunMove(request) => y.pending[request := Signing(y.pending[request].record.subject)]
    case ReadEpoch(request) => y.pending - {request}
    case ReadOwner(request, member) =>
      var owner := if member.Some? then Some(y.store.rt[member.value].value.subject) else None;
      y.pending[request := OwnerRead(y.pending[request].family, owner)]
    case RunRevokeFamily(request) => y.pending - {request}
    case Settle(request, account, presented) =>
      var entries := Entries(y.store, account);
      y.pending[request := if presented in entries then Chosen(account, presented)
                           else Resolving(account, presented, entries)]
    case ReadSuccessor(request) =>
      var p := y.pending[request];
      Moved(y.pending, request,
            if p.presented in y.store.rp && y.store.rp[p.presented].value.successor in p.entries
            then Some(Chosen(p.account, y.store.rp[p.presented].value.successor)) else None)
    case Spare(request) =>
      var p := y.pending[request];
      y.pending[request := Sparing(p.account, Entries(y.store, p.account) - {p.kept})]
    case RevokeVictim(request, hash) =>
      y.pending[request := Sparing(y.pending[request].account, y.pending[request].victims - {hash})]
    case ListPointers(request) =>
      y.pending[request := Sweeping(y.pending[request].account, Hashes(y.store, y.pending[request].account, false))]
    case DeletePointer(request, hash) =>
      y.pending[request := Unindexing(y.pending[request].account, hash, y.pending[request].pointers - {hash})]
    case RemovePointer(request) =>
      y.pending[request := Sweeping(y.pending[request].account, y.pending[request].pointers)]
    case Finish(request) => y.pending - {request}
    case _ => y.pending
  }

  /** The hash a step draws or is shown. */
  function Shown(step: Step): set<Hash> {
    match step
    case Login(hash, _) => {hash}
    case Present(_, token) => {token}
    case RunRotate(_, drawn) => {drawn}
    case RunRecover(_, drawn) => {drawn}
    case _ => {}
  }

  ghost function Apply(cfg: Config, y: System, step: Step): System
    requires Enabled(y, step)
  {
    System(
      Stored(cfg, y, step),
      y.seen + Shown(step),
      if step.Login? && step.record.family != "" then y.lineages[step.record.family := step.record] else y.lineages,
      Pending(cfg, y, step))
  }

  /** An empty deployment. */
  const INITIAL := System(Store(0, map[], map[], map[], map[], map[], map[], map[]), {}, map[], map[])

  /** `steps` can be taken one after the other from `y`. */
  ghost predicate Runs(cfg: Config, y: System, steps: seq<Step>)
    decreases |steps|
  {
    steps != [] ==> Enabled(y, steps[0]) && Runs(cfg, Apply(cfg, y, steps[0]), steps[1..])
  }

  /** Where such a run ends. */
  ghost function End(cfg: Config, y: System, steps: seq<Step>): System
    requires Runs(cfg, y, steps)
    decreases |steps|
  {
    if steps == [] then y else End(cfg, Apply(cfg, y, steps[0]), steps[1..])
  }
}
