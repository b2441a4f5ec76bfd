/**
 Runs of the library migration: any number of workers, each cut after any transaction and replaced
 at any time, in any interleaving.  A failed transaction changes nothing.  Library writes by the
 owner are possible only while no fence stands.
 */
module LibraryMigrationRuns {
  import opened Prelude
  import opened DuplicateCleanup
  import opened LibraryMigration

  /** What one operator process remembers between transactions. */
  datatype Worker = Worker(
    fence: Fence,           // its copy of the fence
    rollback: bool,
    fromComplete: bool,     // its rollback started from a completed migration
    read: map<CardId, Card>,  // the cards it has read, page by page
    verified: bool,         // it compared what it read with the manifest
    sealedUpTo: nat,        // it saw the groups below this index sealed
    ready: bool,            // it may apply groups
    preflighted: bool,      // it compared every applied group with its recorded after-state
    todo: set<nat>)         // the plans that preflight told it to roll back

  /** `baseline` and `intact` are history: the library as the owner knows it, without the effect of
      the groups now applied, and whether the applied groups are known to be untouched since. */
  datatype World = World(
    store: Store,
    workers: map<nat, Worker>,
    nextToken: nat,
    nextOwner: nat,
    baseline: Library,
    intact: bool)

  datatype Step =
    | BeginApply(w: nat, owner: Option<nat>, leaseLive: bool, now: nat)
    | BeginRollback(w: nat, leaseLive: bool, now: nat)
    | ReadPage(w: nat, ids: set<CardId>)
    | VerifyManifest(w: nat)
    | Renew(w: nat)
    | Root(w: nat)
    | Backup(w: nat)
    | Seal(w: nat)
    | SkipSealed(w: nat)
    | Reseal(w: nat, i: nat)
    | Enter(w: nat)
    | ApplyOne(w: nat, i: nat)
    | Finalize(w: nat)
    | ClearFence(w: nat)
    | Abort
    | Preflight(w: nat)
    | RollbackOne(w: nat, i: nat)
    | Finish(w: nat)
    | Crash(w: nat)
    | OwnerWrite(library: Library)

  /** The groups applied and not rolled back. */
  function Live(plans: map<nat, PlanDoc>): set<nat> {
    set i | i in plans && !plans[i].rolledBack
  }

  /** Each source of the manifest is listed once and is in the library as digested. */
  predicate MatchesManifest(library: Library, groups: seq<Group>) {
    DisjointSources(groups) && forall i :: 0 <= i < |groups| ==> SourcesLive(library, groups[i])
  }

  /** The cards of one page, as they are now. */
  function CardsAt(library: Library, ids: set<CardId>): map<CardId, Card> {
    map id | id in ids && CardPath(id) in library && library[CardPath(id)].CardDoc? :: library[CardPath(id)].card
  }

  predicate ReadAsDigested(read: map<CardId, Card>, g: Group) {
    forall t :: t in g.sources ==> Lookup(read, t.id) == Some(t.card)
  }

  predicate Listed(groups: seq<Group>, id: CardId) {
    exists i :: 0 <= i < |groups| && id in SourceIds(groups[i])
  }

  /** The comparison of the pages read with the manifest: the same cards, as digested. */
  predicate ReadMatches(read: map<CardId, Card>, groups: seq<Group>) {
    && DisjointSources(groups)
    && (forall i :: 0 <= i < |groups| ==> ReadAsDigested(read, groups[i]))
    && forall id :: id in read ==> Listed(groups, id)
  }

  predicate PreflightPasses(s: Store, tallied: nat) {
    && (forall i :: i in s.plans ==> i < |s.groups|)
    && tallied == Tally(s.groups, s.plans.Keys, |s.groups|).0
    && forall i :: i in Live(s.plans) ==> AfterStateMatches(s, i) && LosersAbsent(s, i)
  }

  predicate LosersAbsent(s: Store, i: nat)
    requires i < |s.groups|
  {
    forall id :: id in SourceIds(s.groups[i]) && id != CanonicalOf(s.groups[i]) ==> CardPath(id) !in s.library
  }

  /** How many of the first n groups are marked, and how many sources they have. */
  function Tally(groups: seq<Group>, marked: set<nat>, n: nat): (nat, nat)
    requires n <= |groups|
  {
    if n == 0 then (0, 0)
    else
      var (g, c) := Tally(groups, marked, n - 1);
      if n - 1 in marked then (g + 1, c + |groups[n - 1].sources|) else (g, c)
  }

  function Commit(world: World, r: Result<Store, Conflict>): World {
    if r.Ok? then world.(store := r.value) else world
  }

  /** The worker's own copy of the fence after its transaction committed. */
  function Follow(world: World, w: nat, r: Result<Store, Conflict>): World
    requires w in world.workers
  {
    if r.Err? || r.value.fence.None? then Commit(world, r)
    else world.(store := r.value,
                workers := world.workers[w := world.workers[w].(fence := r.value.fence.value)])
  }

  function Begin(world: World, w: nat, owner: Owner, rollback: bool, leaseLive: bool, now: nat): World {
    var s := world.store;
    var r := BeginFence(s, owner, rollback, leaseLive, world.nextToken, now);
    var begun := world.(nextToken := world.nextToken + 1, nextOwner := world.nextOwner + 1);
    if r.Err? || r.value.fence.None? then begun
    else
      var fence := r.value.fence.value;
      begun.(store := r.value,
             workers := world.workers[w := Worker(fence, rollback, s.job.phase == Complete, map[], false, 0,
                                                  !rollback && fence.applied > 0, false, {})])
  }

  function Next(world: World, step: Step): World {
    var s := world.store;
    match step
    case BeginApply(w, owner, leaseLive, now) =>
      Begin(world, w, if owner.Some? then Operator(owner.value) else Minted(world.nextOwner), false, leaseLive, now)
    case BeginRollback(w, leaseLive, now) =>
      if s.root.None? then world
      else Begin(world, w, Minted(world.nextOwner), true, leaseLive, now)
    case OwnerWrite(library) =>
      if s.fence.Some? || !OwnerMayWrite(s.library, library) then world
      else world.(store := s.(library := library),
                  baseline := Rebase(world, library),
                  intact := world.intact && Live(s.plans) == {})
    case Abort => Commit(world, AbortMigration(s))
    case _ => if step.w in world.workers then WorkerStep(world, step, step.w) else world
  }

  /** The owner's operations never write a tombstone in this job's name. */
  predicate OwnerMayWrite(before: Library, after: Library) {
    forall p :: p in after && p.TombstonePath? ==>
      Lookup(after, p) == Lookup(before, p) || Unstamped(Some(after[p]))
  }

  predicate Unstamped(doc: Option<Doc>) {
    doc.Some? && doc.value.TombstoneDoc? ==> !doc.value.operation.CleanupOperation?
  }

  predicate InLiveGroup(groups: seq<Group>, plans: map<nat, PlanDoc>, p: Path) {
    exists i :: i in Live(plans) && i < |groups| && Touches(groups[i], p)
  }

  function Rebase(world: World, library: Library): Library {
    var groups, plans := world.store.groups, world.store.plans;
    map p | p in library.Keys + world.baseline.Keys
         && (if InLiveGroup(groups, plans, p) then p in world.baseline else p in library)
      :: if InLiveGroup(groups, plans, p) then world.baseline[p] else library[p]
  }

  function WorkerStep(world: World, step: Step, w: nat): World
    requires w in world.workers
    requires !step.OwnerWrite? && !step.Abort? && !step.BeginApply? && !step.BeginRollback?
  {
    var s := world.store;
    var me := world.workers[w];
    var f := me.fence;
    var n := |s.groups|;
    match step
    case ReadPage(_, ids) =>
      world.(workers := world.workers[w := me.(read := me.read - ids + CardsAt(s.library, ids))])
    case VerifyManifest(_) =>
      if !me.rollback && f.applied == 0 && ReadMatches(me.read, s.groups)
      then world.(workers := world.workers[w := me.(verified := true)]) else world
    case Renew(_) => Follow(world, w, RenewFence(s, f))
    case Root(_) => Commit(world, EnsureRoot(s, f))
    case Backup(_) =>
      if me.verified && me.sealedUpTo < n then Commit(world, StoreBackups(s, me.sealedUpTo)) else world
    case Seal(_) =>
      if !me.verified || me.sealedUpTo >= n then world
      else
        var r := SealGroup(s, f, me.sealedUpTo);
        if r.Err? then world
        else world.(store := r.value, workers := world.workers[w := me.(sealedUpTo := me.sealedUpTo + 1)])
    case SkipSealed(_) =>
      if me.sealedUpTo < n && me.sealedUpTo in s.sealed
      then world.(workers := world.workers[w := me.(sealedUpTo := me.sealedUpTo + 1)]) else world
    case Reseal(_, i) =>
      if me.ready && i < n && i !in s.sealed then Commit(world, SealGroup(s, f, i)) else world
    case Enter(_) =>
      if !me.verified || me.sealedUpTo < n then world
      else
        var r := EnterApply(s, f);
        if r.Err? || r.value.fence.None? then world
        else world.(store := r.value,
                    workers := world.workers[w := me.(fence := r.value.fence.value, ready := true)])
    case ApplyOne(_, i) =>
      if me.ready && i < n then Follow(world, w, ApplyGroup(s, f, i)) else world
    case Finalize(_) =>
      if me.ready then Commit(world, FinalizeMigration(s, f)) else world
    case ClearFence(_) =>
      if !me.rollback && f.applied == 0 then world.(store := ClearZeroProgressFence(s, f, Discovered))
      else if me.rollback && f.rolledBack == 0 && (me.fromComplete || f.applied == 0)
      then world.(store := ClearZeroProgressFence(s, f, Complete))
      else world
    case Preflight(_) =>
      if me.rollback && HoldsLease(s, f) && PreflightPasses(s, f.applied)
      then world.(workers := world.workers[w := me.(preflighted := true, todo := Live(s.plans))], intact := true)
      else world
    case RollbackOne(_, i) =>
      if !me.preflighted || i >= n then world
      else
        var r := RollbackGroup(s, f, i);
        if r.Err? || r.value.fence.None? then world
        else world.(store := r.value,
                    workers := world.workers[w := me.(fence := r.value.fence.value, todo := me.todo - {i})])
    case Finish(_) =>
      if me.preflighted && me.todo == {} then Commit(world, FinishRollback(s, f)) else world
    case Crash(_) => world.(workers := world.workers - {w})
  }

  function Run(world: World, steps: seq<Step>): World
    decreases steps
  {
    if steps == [] then world else Run(Next(world, steps[0]), steps[1..])
  }
}
