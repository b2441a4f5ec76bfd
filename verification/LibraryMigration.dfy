/**
 The fenced apply and rollback of the legacy library migration
 (functions/src/legacyLibraryMigrationFirestore.ts): the documents it touches and each transaction
 body as one atomic step.  A digest comparison is equality of the digested documents, because
 digests are taken to be injective.
 */
module LibraryMigration {
  import opened Prelude
  import opened DuplicateCleanup

  // ----- documents -----

  datatype Path = CardPath(id: CardId) | TombstonePath(id: CardId) | ReservationPath(identity: Identity)

  /** Who wrote a tombstone: this migration job, or any other operation. */
  datatype Operation = CleanupOperation(cardId: CardId) | OtherOperation(opId: nat)

  datatype Doc =
    | CardDoc(card: Card)
    | TombstoneDoc(operation: Operation, revision: nat, deletedAt: nat)
    | ReservationDoc(cardId: CardId, extra: nat)

  type Library = map<Path, Doc>

  /** New contents for some paths; None deletes. */
  type Patch = map<Path, Option<Doc>>

  function Write(library: Library, patch: Patch): (r: Library)
    ensures forall p :: Lookup(r, p) == if p in patch then patch[p] else Lookup(library, p)
  {
    map p | p in library.Keys + patch.Keys && (p in patch ==> patch[p].Some?)
      :: if p in patch then patch[p].value else library[p]
  }

  lemma SameLookups(a: Library, b: Library)
    requires forall p :: Lookup(a, p) == Lookup(b, p)
    ensures a == b
  {
    forall p ensures p in a <==> p in b { assert Lookup(a, p) == Lookup(b, p); }
    forall p | p in a ensures a[p] == b[p] { assert Lookup(a, p) == Lookup(b, p); }
  }

  // ----- the manifest -----

  /** One identity group of the sealed manifest; a source descriptor stands for the digested card. */
  datatype Group = Group(identity: Identity, word: nat, sources: seq<Source>)

  function SourceIds(g: Group): set<CardId> {
    set s | s in g.sources :: s.id
  }

  function CanonicalOf(g: Group): CardId {
    Canonical(g.identity)
  }

  function Footprint(g: Group): set<CardId> {
    SourceIds(g) + {CanonicalOf(g)}
  }

  predicate Touches(g: Group, p: Path) {
    match p
    case CardPath(id) => id in Footprint(g)
    case TombstonePath(id) => id in Footprint(g)
    case ReservationPath(identity) => identity == g.identity
  }

  function Paths(g: Group): (r: set<Path>)
    ensures forall p :: p in r <==> Touches(g, p)
  {
    (set id | id in Footprint(g) :: CardPath(id))
    + (set id | id in Footprint(g) :: TombstonePath(id))
    + {ReservationPath(g.identity)}
  }

  /** Group documents are stored under their identity, so no two groups share one. */
  ghost predicate WellKeyed(groups: seq<Group>) {
    forall i, j :: 0 <= i < j < |groups| ==> groups[i].identity != groups[j].identity
  }

  /** No card is listed twice. */
  predicate DisjointSources(groups: seq<Group>) {
    forall i, j :: 0 <= i < j < |groups| ==> SourceIds(groups[i]) !! SourceIds(groups[j])
  }

  predicate SourcesLive(library: Library, g: Group) {
    forall s :: s in g.sources ==> Lookup(library, CardPath(s.id)) == Some(CardDoc(s.card))
  }

  // ----- migration state -----

  datatype Phase = Discovered | Blocked | Verify | Apply | Complete | Rollback | RolledBack

  /** Lease owners: named by the operator, or freshly minted. */
  datatype Owner = Operator(name: nat) | Minted(serial: nat)

  datatype Fence = Fence(
    token: nat, owner: Owner, revision: nat, phase: Phase,
    applied: nat, appliedSources: nat, rolledBack: nat, startedAt: nat)

  datatype Job = Job(phase: Phase, applied: nat, appliedSources: nat)

  datatype RootStamp = RootStamp(token: nat, owner: Owner, revision: nat)

  /** What preparing a group captures: its reservation and its tombstones. */
  datatype Sealed = Sealed(reservation: Option<Doc>, tombstones: map<CardId, Option<Doc>>)

  function Capture(library: Library, g: Group): Sealed {
    Sealed(Lookup(library, ReservationPath(g.identity)),
           map id | id in Footprint(g) :: Lookup(library, TombstonePath(id)))
  }

  datatype PlanDoc = PlanDoc(sealed: Sealed, after: Patch, rolledBack: bool)

  datatype Store = Store(
    library: Library,
    groups: seq<Group>,
    fence: Option<Fence>,
    job: Job,
    root: Option<RootStamp>,
    sealed: map<nat, Sealed>,
    applied: set<nat>,
    plans: map<nat, PlanDoc>,
    backups: map<CardId, Card>)

  datatype Conflict =
    | NoFence | LeaseLost | RevisionMoved | StateChanged | GenerationChanged
    | SourceConflict | ReservationConflict | TombstoneConflict | RollbackConflict

  predicate HoldsLease(s: Store, f: Fence) {
    s.fence.Some? && s.fence.value.token == f.token && s.fence.value.owner == f.owner
  }

  function Stamp(f: Fence): RootStamp {
    RootStamp(f.token, f.owner, f.revision)
  }

  // ----- apply: the transaction -----

  function PlannedRevision(tombstones: seq<PlannedTombstone>, id: CardId): nat {
    if tombstones == [] then 0
    else if tombstones[0].cardId == id then tombstones[0].revision
    else PlannedRevision(tombstones[1..], id)
  }

  function TombstoneRevision(doc: Option<Doc>): nat {
    if doc.Some? && doc.value.TombstoneDoc? then doc.value.revision else 0
  }

  /** The document a path of the group holds once the group is applied. */
  function AfterDoc(library: Library, g: Group, plan: Plan, startedAt: nat, p: Path): Option<Doc> {
    match p
    case CardPath(id) =>
      if id == CanonicalOf(g) then Some(CardDoc(plan.merged.(updatedAt := startedAt))) else None
    case TombstonePath(id) =>
      if id == CanonicalOf(g) then None
      else Some(TombstoneDoc(CleanupOperation(id),
                             Max(PlannedRevision(plan.tombstones, id), TombstoneRevision(Lookup(library, p))),
                             startedAt))
    case ReservationPath(_) => Some(ReservationDoc(CanonicalOf(g), 0))
  }

  function After(library: Library, g: Group, plan: Plan, startedAt: nat): Patch {
    map p | p in Paths(g) :: AfterDoc(library, g, plan, startedAt, p)
  }

  /** The checks of an apply transaction, in its order; None lets it write. */
  function ApplyObstacle(s: Store, f: Fence, i: nat): Option<Conflict>
    requires i < |s.groups|
  {
    var g := s.groups[i];
    if s.fence.None? then Some(NoFence)
    else if !HoldsLease(s, f) then Some(LeaseLost)
    else if s.fence.value.revision != f.revision then Some(RevisionMoved)
    else if s.root.None? then Some(StateChanged)
    else if s.root.value != Stamp(s.fence.value) then Some(RevisionMoved)
    else if i in s.applied then None
    else if !SourcesLive(s.library, g) then Some(SourceConflict)
    else if CanonicalOf(g) !in SourceIds(g) && CardPath(CanonicalOf(g)) in s.library then Some(SourceConflict)
    else if i !in s.sealed then Some(StateChanged)
    else if s.sealed[i].reservation != Capture(s.library, g).reservation then Some(ReservationConflict)
    else if s.sealed[i].tombstones != Capture(s.library, g).tombstones then Some(TombstoneConflict)
    else
      var plan := PlanGroup(g.sources);
      if plan.Err? || plan.value.normalizedWord != g.word || plan.value.primaryId != CanonicalOf(g)
      then Some(SourceConflict)
      else None
  }

  function ApplyGroup(s: Store, f: Fence, i: nat): Result<Store, Conflict>
    requires i < |s.groups|
  {
    var obstacle := ApplyObstacle(s, f, i);
    if obstacle.Some? then Err(obstacle.value)
    else if i in s.applied then Ok(s)
    else
      var g := s.groups[i];
      var current := s.fence.value;
      var after := After(s.library, g, PlanGroup(g.sources).value, current.startedAt);
      Ok(RecordApplied(s, i, after, Advance(current, |g.sources|)))
  }

  function Advance(current: Fence, sources: nat): Fence {
    current.(phase := Apply, revision := current.revision + 1, applied := current.applied + 1,
             appliedSources := current.appliedSources + sources)
  }

  function RecordApplied(s: Store, i: nat, after: Patch, next: Fence): Store
    requires i in s.sealed
  {
    s.(library := Write(s.library, after),
       fence := Some(next),
       job := Job(Apply, next.applied, next.appliedSources),
       root := Some(Stamp(next)),
       applied := s.applied + {i},
       plans := s.plans[i := PlanDoc(s.sealed[i], after, false)])
  }

  // ----- rollback: the transaction -----

  /** The recorded after-state that the transaction compares: every path but the losers' cards. */
  predicate AfterStateMatches(s: Store, i: nat)
    requires i < |s.groups| && i in s.plans
  {
    var after := s.plans[i].after;
    forall p :: p in Paths(s.groups[i]) && (p.CardPath? ==> p.id == CanonicalOf(s.groups[i]))
      ==> p in after && Lookup(s.library, p) == after[p]
  }

  /** What rolling the group back writes: cards from their backups, the rest as captured. */
  function RestoreDoc(s: Store, i: nat, p: Path): Option<Doc>
    requires i in s.plans
  {
    match p
    case CardPath(id) => if id in s.backups then Some(CardDoc(s.backups[id])) else None
    case TombstonePath(id) =>
      if id in s.plans[i].sealed.tombstones then s.plans[i].sealed.tombstones[id] else None
    case ReservationPath(_) => s.plans[i].sealed.reservation
  }

  function Restore(s: Store, i: nat): Patch
    requires i < |s.groups| && i in s.plans
  {
    map p | p in Paths(s.groups[i]) :: RestoreDoc(s, i, p)
  }

  predicate BackupsMatch(backups: map<CardId, Card>, g: Group) {
    forall t :: t in g.sources ==> t.id in backups && backups[t.id] == t.card
  }

  function RollbackObstacle(s: Store, f: Fence, i: nat): Option<Conflict>
    requires i < |s.groups|
  {
    if i !in s.plans then Some(RollbackConflict)
    else if s.fence.None? then Some(NoFence)
    else if !HoldsLease(s, f) then Some(LeaseLost)
    else if s.root.None? || s.root.value != Stamp(s.fence.value) then Some(RollbackConflict)
    else if s.fence.value.revision != f.revision then Some(RollbackConflict)
    else if s.plans[i].rolledBack then None
    else if !AfterStateMatches(s, i) then Some(RollbackConflict)
    else if s.plans[i].sealed.tombstones.Keys != Footprint(s.groups[i]) then Some(RollbackConflict)
    else if !BackupsMatch(s.backups, s.groups[i]) then Some(RollbackConflict)
    else None
  }

  function RollbackGroup(s: Store, f: Fence, i: nat): Result<Store, Conflict>
    requires i < |s.groups|
  {
    var obstacle := RollbackObstacle(s, f, i);
    if obstacle.Some? then Err(obstacle.value)
    else if s.plans[i].rolledBack then Ok(s)
    else
      var current := s.fence.value;
      var next := current.(phase := Rollback, revision := current.revision + 1,
                           rolledBack := current.rolledBack + 1);
      Ok(RecordRestored(s, i, Restore(s, i), next))
  }

  function RecordRestored(s: Store, i: nat, restored: Patch, next: Fence): Store
    requires i in s.plans
  {
    s.(library := Write(s.library, restored),
       fence := Some(next),
       root := Some(Stamp(next)),
       plans := s.plans[i := s.plans[i].(rolledBack := true)])
  }

  // ----- the other transactions -----

  /** The job phases from which a fence is taken anew. */
  predicate MayBegin(phase: Phase, rollback: bool) {
    phase == Discovered || phase == Verify || phase == Apply || phase == Rollback
    || (rollback && (phase == Complete || phase == RolledBack))
  }

  /** Take or resume the fence.  `leaseLive` says whether a stored lease has not yet expired. */
  function BeginFence(s: Store, owner: Owner, rollback: bool, leaseLive: bool, token: nat, now: nat)
    : Result<Store, Conflict>
  {
    if s.fence.Some? then
      var existing := s.fence.value;
      if existing.phase == Rollback && !rollback then Err(StateChanged)
      else if existing.phase != Rollback && rollback && existing.applied == 0 then Err(StateChanged)
      else if leaseLive && existing.owner != owner then Err(LeaseLost)
      else
        var phase := if rollback then Rollback else if existing.applied > 0 then Apply else Verify;
        Ok(s.(fence := Some(existing.(phase := phase, owner := owner, revision := existing.revision + 1)),
              job := Job(phase, existing.applied, existing.appliedSources)))
    else if !MayBegin(s.job.phase, rollback) then Err(StateChanged)
    else
      var phase := if rollback then Rollback else Verify;
      var applied := if rollback then s.job.applied else 0;
      var appliedSources := if rollback then s.job.appliedSources else 0;
      Ok(s.(fence := Some(Fence(token, owner, 1, phase, applied, appliedSources, 0, now)),
            job := Job(phase, applied, appliedSources)))
  }

  /** Renewing the lease re-stamps the root with the stored fence; ensuring the root does so too, and
      creates a missing root with the stamp of the caller's copy. */
  function RenewFence(s: Store, f: Fence): Result<Store, Conflict> {
    if s.fence.None? then Err(NoFence)
    else if !HoldsLease(s, f) then Err(LeaseLost)
    else Ok(s.(root := if s.root.Some? then Some(Stamp(s.fence.value)) else None))
  }

  function EnsureRoot(s: Store, f: Fence): Result<Store, Conflict> {
    if s.fence.None? then Err(NoFence)
    else if !HoldsLease(s, f) then Err(LeaseLost)
    else Ok(s.(root := Some(Stamp(if s.root.Some? then s.fence.value else f))))
  }

  /** The batch that copies the sources: unfenced, and it never overwrites a backup. */
  function StoreBackups(s: Store, i: nat): Result<Store, Conflict>
    requires i < |s.groups|
  {
    var g := s.groups[i];
    if !SourcesLive(s.library, g) then Err(GenerationChanged)
    else if exists t :: t in g.sources && t.id in s.backups && s.backups[t.id] != t.card then Err(StateChanged)
    else
      Ok(s.(backups := map id | id in s.backups.Keys + SourceIds(g)
                         :: if id in s.backups then s.backups[id] else CardAt(s.library, id)))
  }

  function CardAt(library: Library, id: CardId): Card {
    var doc := Lookup(library, CardPath(id));
    if doc.Some? && doc.value.CardDoc? then doc.value.card
    else Card(None, NoTuple, 0, 0, 0, 0, 0.0, false, 0, None, None, None, None, 0, 0)
  }

  function SealGroup(s: Store, f: Fence, i: nat): Result<Store, Conflict>
    requires i < |s.groups|
  {
    var g := s.groups[i];
    if s.fence.None? then Err(NoFence)
    else if !HoldsLease(s, f) then Err(LeaseLost)
    else if !SourcesLive(s.library, g) then Err(GenerationChanged)
    else if i in s.sealed && s.sealed[i] != Capture(s.library, g) then Err(StateChanged)
    else if !BackupsMatch(s.backups, g) then Err(StateChanged)
    else Ok(s.(sealed := s.sealed[i := Capture(s.library, g)]))
  }

  function EnterApply(s: Store, f: Fence): Result<Store, Conflict> {
    if s.fence.None? then Err(NoFence)
    else if !HoldsLease(s, f) then Err(LeaseLost)
    else if s.fence.value.applied > 0 || s.fence.value.phase == Apply then Ok(s)
    else if s.root.None? then Err(StateChanged)
    else
      var current := s.fence.value;
      var next := current.(phase := Apply, revision := current.revision + 1);
      Ok(s.(fence := Some(next), root := Some(Stamp(next)), job := Job(Apply, next.applied, next.appliedSources)))
  }

  function FinalizeMigration(s: Store, f: Fence): Result<Store, Conflict> {
    if s.fence.None? then Err(NoFence)
    else if !HoldsLease(s, f) then Err(LeaseLost)
    else if s.fence.value.applied != |s.groups| then Err(StateChanged)
    else if s.root.None? then Err(StateChanged)
    else if s.root.value != Stamp(s.fence.value) then Err(RevisionMoved)
    else Ok(s.(fence := None, job := Job(Complete, s.fence.value.applied, s.fence.value.appliedSources)))
  }

  /** Drop a fence that has made no progress; anything else leaves the store as it is. */
  function ClearZeroProgressFence(s: Store, f: Fence, backTo: Phase): Store {
    if s.fence.None? then s
    else
      var current := s.fence.value;
      if !HoldsLease(s, f) || current.revision != f.revision then s
      else if (if current.phase == Rollback then current.rolledBack else current.applied) != 0 then s
      else if backTo == Discovered then s.(fence := None, root := None, job := Job(Discovered, 0, 0))
      else s.(fence := None, job := s.job.(phase := backTo))
  }

  function AbortMigration(s: Store): Result<Store, Conflict> {
    if s.fence.None? then Ok(s)
    else if s.fence.value.applied != 0 then Err(RevisionMoved)
    else Ok(s.(fence := None, job := s.job.(phase := Blocked)))
  }

  function FinishRollback(s: Store, f: Fence): Result<Store, Conflict> {
    if s.fence.None? then Err(NoFence)
    else if !HoldsLease(s, f) then Err(LeaseLost)
    else if s.root.None? || s.root.value != Stamp(s.fence.value) then Err(RollbackConflict)
    else Ok(s.(fence := None, job := s.job.(phase := RolledBack)))
  }
}
