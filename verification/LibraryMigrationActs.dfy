/**
 When each step of the library migration acts (functions/src/legacyLibraryMigrationFirestore.ts:919-1003,
 1061-1404, 1517-1694, 1963-2132): not only what it must not do, but exactly on which store it goes through,
 in terms of the stored documents and of what its worker has seen.
 */
module LibraryMigrationActs {
  import opened Prelude
  import opened DuplicateCleanup
  import opened LibraryMigration
  import opened LibraryMigrationRuns
  import opened LibraryMigrationLease

  // ----- what a step finds -----

  /** Every source is in the library as digested. */
  predicate AsDigested(library: Library, g: Group) {
    forall x :: x in g.sources ==> CardPath(x.id) in library && library[CardPath(x.id)] == CardDoc(x.card)
  }

  /** Every source has its backup. */
  predicate BackedUp(backups: map<CardId, Card>, g: Group) {
    forall x :: x in g.sources ==> Lookup(backups, x.id) == Some(x.card)
  }

  /** The reservation and the tombstones of the group are in the library as sealed. */
  predicate AsSealed(library: Library, g: Group, sealed: Sealed) {
    && sealed.reservation == Lookup(library, ReservationPath(g.identity))
    && sealed.tombstones.Keys == Footprint(g)
    && forall id :: id in Footprint(g) ==> sealed.tombstones[id] == Lookup(library, TombstonePath(id))
  }

  /** The plan that the cards give is the one that the manifest was sealed with. */
  predicate PlansAsSealed(g: Group) {
    && PlanGroup(g.sources).Ok? && PlanGroup(g.sources).value.normalizedWord == g.word
    && PlanGroup(g.sources).value.primaryId == CanonicalOf(g)
  }

  /** The worker's copy is the stored revision, and the root carries its stamp. */
  predicate UpToDate(world: World, w: nat) {
    && Holds(world, w) && world.workers[w].fence.revision == world.store.fence.value.revision
    && RootStamped(world.store)
  }

  lemma CaptureIsAsSealed(library: Library, g: Group, sealed: Sealed)
    ensures sealed == Capture(library, g) <==> AsSealed(library, g, sealed)
    ensures sealed.reservation == Capture(library, g).reservation && sealed.tombstones == Capture(library, g).tombstones
       <==> AsSealed(library, g, sealed)
  {
  }

  lemma LiveAsDigested(library: Library, g: Group)
    ensures SourcesLive(library, g) <==> AsDigested(library, g)
  {
  }

  // ----- applying and rolling back -----

  /** What an apply needs of the stored group: sources as digested, a canonical card that is free or one of
      them, a reservation and tombstones as sealed, and a plan that is still the sealed one. */
  predicate Applicable(s: Store, i: nat)
    requires i < |s.groups|
  {
    var g := s.groups[i];
    && i !in s.applied && i in s.sealed
    && AsDigested(s.library, g) && AsSealed(s.library, g, s.sealed[i]) && PlansAsSealed(g)
    && (CardPath(CanonicalOf(g)) in s.library ==> CanonicalOf(g) in SourceIds(g))
  }

  /** The stored fence is the one in hand, in its stored revision, and stamped on the root. */
  predicate InHand(s: Store, f: Fence) {
    && s.fence.Some? && s.fence.value.token == f.token && s.fence.value.owner == f.owner
    && s.fence.value.revision == f.revision && RootStamped(s)
  }

  lemma ApplicableExactly(s: Store, f: Fence, i: nat)
    requires i < |s.groups| && i !in s.applied
    ensures ApplyObstacle(s, f, i).None? <==> InHand(s, f) && Applicable(s, i)
  {
    LiveAsDigested(s.library, s.groups[i]);
    if i in s.sealed { CaptureIsAsSealed(s.library, s.groups[i], s.sealed[i]); }
  }

  /** A group is applied exactly by a worker that is ready and up to date, when it is applicable. */
  lemma ApplyActsExactly(world: World, w: nat, i: nat)
    ensures Next(world, ApplyOne(w, i)).store != world.store <==>
      && w in world.workers && world.workers[w].ready && UpToDate(world, w)
      && i < |world.store.groups| && Applicable(world.store, i)
  {
    if w in world.workers && i < |world.store.groups| {
      if i !in world.store.applied { ApplicableExactly(world.store, world.workers[w].fence, i); }
      ApplyWrites(world.store, world.workers[w].fence, i);
    }
    StoreAfterApply(world, w, i);
  }

  lemma StoreAfterApply(world: World, w: nat, i: nat)
    ensures Next(world, ApplyOne(w, i)).store
      == if w in world.workers && world.workers[w].ready && i < |world.store.groups|
            && ApplyGroup(world.store, world.workers[w].fence, i).Ok?
         then ApplyGroup(world.store, world.workers[w].fence, i).value else world.store
  {
    if w in world.workers && i < |world.store.groups| {
      StoreAfterFollow(world, w, ApplyGroup(world.store, world.workers[w].fence, i));
    }
  }

  lemma StoreAfterFollow(world: World, w: nat, r: Result<Store, Conflict>)
    requires w in world.workers
    ensures Follow(world, w, r).store == if r.Ok? then r.value else world.store
  {
  }

  lemma ApplyWrites(s: Store, f: Fence, i: nat)
    requires i < |s.groups|
    ensures ApplyGroup(s, f, i).Ok? && ApplyGroup(s, f, i).value != s
       <==> ApplyObstacle(s, f, i).None? && i !in s.applied
  {
  }

  /** Applied or rolled back already, a group is acknowledged to whoever is up to date, without a change. */
  lemma DoneIsAcknowledged(s: Store, f: Fence, i: nat)
    requires i < |s.groups| && InHand(s, f)
    ensures i in s.applied ==> ApplyGroup(s, f, i) == Ok(s)
    ensures i in s.plans && s.plans[i].rolledBack ==> RollbackGroup(s, f, i) == Ok(s)
  {
  }

  /** Each refusal of an apply has its cause. */
  lemma ApplyRefusals(s: Store, f: Fence, i: nat)
    requires i < |s.groups| && ApplyGroup(s, f, i).Err?
    ensures var g := s.groups[i];
      match ApplyGroup(s, f, i).error
      case NoFence => s.fence.None?
      case LeaseLost => s.fence.Some? && (s.fence.value.token != f.token || s.fence.value.owner != f.owner)
      case RevisionMoved =>
        s.fence.Some? && (s.fence.value.revision != f.revision || (s.root.Some? && !RootStamped(s)))
      case StateChanged => s.root.None? || i !in s.sealed
      case SourceConflict =>
        !AsDigested(s.library, g) || !PlansAsSealed(g)
        || (CardPath(CanonicalOf(g)) in s.library && CanonicalOf(g) !in SourceIds(g))
      case ReservationConflict =>
        i in s.sealed && s.sealed[i].reservation != Lookup(s.library, ReservationPath(g.identity))
      case TombstoneConflict => i in s.sealed && !AsSealed(s.library, g, s.sealed[i])
      case _ => false
  {
    LiveAsDigested(s.library, s.groups[i]);
    if i in s.sealed { CaptureIsAsSealed(s.library, s.groups[i], s.sealed[i]); }
  }

  /** The documents are as the plan recorded them, but for the losers' cards, which are not looked at. */
  predicate AsRecorded(s: Store, i: nat)
    requires i < |s.groups| && i in s.plans
  {
    var g, after := s.groups[i], s.plans[i].after;
    && Recorded(s.library, after, CardPath(CanonicalOf(g))) && Recorded(s.library, after, ReservationPath(g.identity))
    && forall id :: id in Footprint(g) ==> Recorded(s.library, after, TombstonePath(id))
  }

  predicate Recorded(library: Library, after: Patch, p: Path) {
    p in after && Lookup(library, p) == after[p]
  }

  lemma AfterStateAsRecorded(s: Store, i: nat)
    requires i < |s.groups| && i in s.plans
    ensures AfterStateMatches(s, i) <==> AsRecorded(s, i)
  {
    var g, after := s.groups[i], s.plans[i].after;
    if AfterStateMatches(s, i) {
      assert CardPath(CanonicalOf(g)) in Paths(g) && ReservationPath(g.identity) in Paths(g);
      forall id | id in Footprint(g) ensures Recorded(s.library, after, TombstonePath(id)) {
        assert TombstonePath(id) in Paths(g);
      }
    }
    if AsRecorded(s, i) {
      forall p | p in Paths(g) && (p.CardPath? ==> p.id == CanonicalOf(g))
        ensures p in after && Lookup(s.library, p) == after[p]
      {
        assert Touches(g, p);
        assert Recorded(s.library, after, p);
      }
    }
  }

  /** What a rollback needs of the stored group: its documents as recorded, all its tombstones sealed and all
      its sources backed up. */
  predicate Restorable(s: Store, i: nat)
    requires i < |s.groups|
  {
    && i in s.plans && !s.plans[i].rolledBack && AsRecorded(s, i)
    && s.plans[i].sealed.tombstones.Keys == Footprint(s.groups[i]) && BackedUp(s.backups, s.groups[i])
  }

  /** A group is rolled back exactly by a worker that has passed its preflight and is up to date, when it is
      restorable. */
  lemma RollbackActsExactly(world: World, w: nat, i: nat)
    ensures Next(world, RollbackOne(w, i)).store != world.store <==>
      && w in world.workers && world.workers[w].preflighted && UpToDate(world, w)
      && i < |world.store.groups| && Restorable(world.store, i)
  {
    if w in world.workers && i < |world.store.groups| {
      RestorableExactly(world.store, world.workers[w].fence, i);
      RollbackWrites(world.store, world.workers[w].fence, i);
    }
    StoreAfterRollback(world, w, i);
  }

  lemma RestorableExactly(s: Store, f: Fence, i: nat)
    requires i < |s.groups|
    ensures RollbackObstacle(s, f, i).None? && !s.plans[i].rolledBack <==> InHand(s, f) && Restorable(s, i)
  {
    if i in s.plans { AfterStateAsRecorded(s, i); }
  }

  lemma StoreAfterRollback(world: World, w: nat, i: nat)
    ensures Next(world, RollbackOne(w, i)).store
      == if w in world.workers && world.workers[w].preflighted && i < |world.store.groups|
            && RollbackGroup(world.store, world.workers[w].fence, i).Ok?
         then RollbackGroup(world.store, world.workers[w].fence, i).value else world.store
  {
    if w in world.workers && i < |world.store.groups| {
      RollbackKeepsFence(world.store, world.workers[w].fence, i);
    }
  }

  lemma RollbackKeepsFence(s: Store, f: Fence, i: nat)
    requires i < |s.groups|
    ensures RollbackGroup(s, f, i).Ok? ==> RollbackGroup(s, f, i).value.fence.Some?
  {
  }

  lemma RollbackWrites(s: Store, f: Fence, i: nat)
    requires i < |s.groups|
    ensures RollbackGroup(s, f, i).Ok? && RollbackGroup(s, f, i).value != s
       <==> RollbackObstacle(s, f, i).None? && !s.plans[i].rolledBack
  {
  }

  /** Each refusal of a rollback has its cause. */
  lemma RollbackRefusals(s: Store, f: Fence, i: nat)
    requires i < |s.groups| && RollbackGroup(s, f, i).Err?
    ensures match RollbackGroup(s, f, i).error
            case NoFence => s.fence.None?
            case LeaseLost => s.fence.Some? && (s.fence.value.token != f.token || s.fence.value.owner != f.owner)
            case RollbackConflict => i !in s.plans || !InHand(s, f) || !Restorable(s, i)
            case _ => false
  {
    if i in s.plans { AfterStateAsRecorded(s, i); }
  }

  /** Without a fence, or with another one, every other step that is refused says so as well. */
  lemma HolderRefusals(s: Store, f: Fence, i: nat)
    requires i < |s.groups|
    ensures s.fence.None? ==>
      && RenewFence(s, f) == Err(NoFence) && EnsureRoot(s, f) == Err(NoFence) && SealGroup(s, f, i) == Err(NoFence)
      && EnterApply(s, f) == Err(NoFence) && FinalizeMigration(s, f) == Err(NoFence)
      && FinishRollback(s, f) == Err(NoFence)
    ensures s.fence.Some? && (s.fence.value.token != f.token || s.fence.value.owner != f.owner) ==>
      && RenewFence(s, f) == Err(LeaseLost) && EnsureRoot(s, f) == Err(LeaseLost)
      && SealGroup(s, f, i) == Err(LeaseLost) && EnterApply(s, f) == Err(LeaseLost)
      && FinalizeMigration(s, f) == Err(LeaseLost) && FinishRollback(s, f) == Err(LeaseLost)
  {
  }

  // ----- what they record -----

  /** An apply counts the group and its sources, moves the fence's revision and with it the root's stamp, and
      records what it was sealed with and what it leaves at each of its paths. */
  lemma ApplyRecords(s: Store, f: Fence, i: nat, t: Store)
    requires i < |s.groups| && i !in s.applied && ApplyGroup(s, f, i) == Ok(t)
    ensures s.fence.Some? && i in s.sealed && i in t.plans
    ensures var was, n := s.fence.value, |s.groups[i].sources|;
      && t.fence == Some(Fence(was.token, was.owner, was.revision + 1, Apply, was.applied + 1, was.appliedSources + n,
                               was.rolledBack, was.startedAt))
      && t.root == Some(RootStamp(was.token, was.owner, was.revision + 1))
      && t.job == Job(Apply, was.applied + 1, was.appliedSources + n)
      && t.plans == s.plans[i := PlanDoc(s.sealed[i], t.plans[i].after, false)]
      && t.groups == s.groups && t.sealed == s.sealed && t.backups == s.backups && t.applied == s.applied + {i}
    ensures forall p :: p in t.plans[i].after <==> Touches(s.groups[i], p)
    ensures forall p :: p in t.plans[i].after ==> Lookup(t.library, p) == t.plans[i].after[p]
  {
  }

  /** A rollback counts the group, moves the revision and the stamp, and marks the plan. */
  lemma RollbackRecords(s: Store, f: Fence, i: nat, t: Store)
    requires i < |s.groups| && i in s.plans && !s.plans[i].rolledBack && RollbackGroup(s, f, i) == Ok(t)
    ensures s.fence.Some?
    ensures var was := s.fence.value;
      && t.fence == Some(Fence(was.token, was.owner, was.revision + 1, Rollback, was.applied, was.appliedSources,
                               was.rolledBack + 1, was.startedAt))
      && t.root == Some(RootStamp(was.token, was.owner, was.revision + 1))
      && t.plans == s.plans[i := PlanDoc(s.plans[i].sealed, s.plans[i].after, true)]
      && t == s.(library := t.library, fence := t.fence, root := t.root, plans := t.plans)
    ensures t.library == Write(s.library, Restore(s, i))
    ensures s.plans[i].sealed.tombstones.Keys == Footprint(s.groups[i])
  {
  }

  /** And puts back the backed-up cards and the sealed tombstones and reservation, touching nothing else. */
  lemma RollbackPutsBack(s: Store, f: Fence, i: nat, t: Store)
    requires i < |s.groups| && i in s.plans && !s.plans[i].rolledBack && RollbackGroup(s, f, i) == Ok(t)
    ensures var g, sealed := s.groups[i], s.plans[i].sealed;
      && sealed.tombstones.Keys == Footprint(g)
      && Lookup(t.library, ReservationPath(g.identity)) == sealed.reservation
      && (forall id :: id in Footprint(g) ==>
            && Lookup(t.library, TombstonePath(id)) == sealed.tombstones[id]
            && Lookup(t.library, CardPath(id)) == if id in s.backups then Some(CardDoc(s.backups[id])) else None)
      && forall p :: !Touches(g, p) ==> Lookup(t.library, p) == Lookup(s.library, p)
  {
    RollbackRecords(s, f, i, t);
    RollbackRestores(s, i, t);
  }

  lemma RollbackRestores(s: Store, i: nat, t: Store)
    requires i < |s.groups| && i in s.plans && t.library == Write(s.library, Restore(s, i))
    requires s.plans[i].sealed.tombstones.Keys == Footprint(s.groups[i])
    ensures var g, sealed := s.groups[i], s.plans[i].sealed;
      && Lookup(t.library, ReservationPath(g.identity)) == sealed.reservation
      && (forall id :: id in Footprint(g) ==>
            && Lookup(t.library, TombstonePath(id)) == sealed.tombstones[id]
            && Lookup(t.library, CardPath(id)) == if id in s.backups then Some(CardDoc(s.backups[id])) else None)
      && forall p :: !Touches(g, p) ==> Lookup(t.library, p) == Lookup(s.library, p)
  {
    var g := s.groups[i];
    assert ReservationPath(g.identity) in Paths(g);
    forall id | id in Footprint(g)
      ensures Lookup(t.library, TombstonePath(id)) == s.plans[i].sealed.tombstones[id]
      ensures Lookup(t.library, CardPath(id)) == if id in s.backups then Some(CardDoc(s.backups[id])) else None
    {
      assert TombstonePath(id) in Paths(g) && CardPath(id) in Paths(g);
    }
  }

  // ----- preparing -----

  /** The next group is sealed exactly by a worker that has verified the manifest and holds the fence, over
      sources as digested and backed up, and unless it was sealed differently; and what is sealed is what the
      library holds. */
  lemma SealActsExactly(world: World, w: nat)
    ensures var after := Next(world, Seal(w));
      && (after != world <==>
            && w in world.workers && world.workers[w].verified && Holds(world, w)
            && world.workers[w].sealedUpTo < |world.store.groups|
            && var s, i := world.store, world.workers[w].sealedUpTo;
            && AsDigested(s.library, s.groups[i]) && BackedUp(s.backups, s.groups[i])
            && (i in s.sealed ==> AsSealed(s.library, s.groups[i], s.sealed[i])))
  {
    if w in world.workers && world.workers[w].sealedUpTo < |world.store.groups| {
      var s, i := world.store, world.workers[w].sealedUpTo;
      LiveAsDigested(s.library, s.groups[i]);
      if i in s.sealed { CaptureIsAsSealed(s.library, s.groups[i], s.sealed[i]); }
      SealMoves(world, w);
    }
  }

  lemma SealMoves(world: World, w: nat)
    requires w in world.workers && world.workers[w].sealedUpTo < |world.store.groups|
    ensures Next(world, Seal(w)) != world <==>
      world.workers[w].verified && SealGroup(world.store, world.workers[w].fence, world.workers[w].sealedUpTo).Ok?
  {
    var me := world.workers[w];
    assert me.(sealedUpTo := me.sealedUpTo + 1) != me;
    assert world.workers[w := me.(sealedUpTo := me.sealedUpTo + 1)] != world.workers;
  }

  lemma SealLeaves(world: World, w: nat)
    requires Next(world, Seal(w)) != world
    ensures var s, t := world.store, Next(world, Seal(w)).store;
      && w in world.workers && world.workers[w].sealedUpTo < |s.groups|
      && var i := world.workers[w].sealedUpTo;
      && t == s.(sealed := t.sealed) && t.sealed.Keys == s.sealed.Keys + {i}
      && AsSealed(s.library, s.groups[i], t.sealed[i])
      && (forall k :: k in s.sealed && k != i ==> t.sealed[k] == s.sealed[k])
      && w in Next(world, Seal(w)).workers && Next(world, Seal(w)).workers[w] == world.workers[w].(sealedUpTo := i + 1)
  {
    var i := world.workers[w].sealedUpTo;
    CaptureIsAsSealed(world.store.library, world.store.groups[i], Capture(world.store.library, world.store.groups[i]));
  }

  /** A worker may apply exactly once it has verified the manifest and seen every group sealed, while it holds
      the fence; the first to get there moves the fence and its stamp. */
  lemma EnterActsExactly(world: World, w: nat)
    requires w in world.workers && !world.workers[w].ready
    ensures var s, t, me := world.store, Next(world, Enter(w)).store, world.workers[w];
      var started := s.fence.Some? && (s.fence.value.applied > 0 || s.fence.value.phase == Apply);
      var may := me.verified && me.sealedUpTo >= |s.groups| && Holds(world, w) && (started || s.root.Some?);
      && w in Next(world, Enter(w)).workers && (Next(world, Enter(w)).workers[w].ready <==> may)
      && (!may || started ==> t == s)
      && (may && !started ==>
            var f := s.fence.value.(phase := Apply, revision := s.fence.value.revision + 1);
            t == s.(fence := Some(f), root := Some(RootStamp(f.token, f.owner, f.revision)),
                    job := Job(Apply, f.applied, f.appliedSources)))
  {
    EnterDecides(world.store, world.workers[w].fence);
  }

  lemma EnterDecides(s: Store, f: Fence)
    ensures var started := s.fence.Some? && (s.fence.value.applied > 0 || s.fence.value.phase == Apply);
      && (EnterApply(s, f).Ok? <==>
            s.fence.Some? && s.fence.value.token == f.token && s.fence.value.owner == f.owner
            && (started || s.root.Some?))
      && (EnterApply(s, f).Ok? ==> EnterApply(s, f).value.fence.Some?)
      && (EnterApply(s, f).Ok? && started ==> EnterApply(s, f).value == s)
  {
  }

  predicate Apart(g: Group, h: Group) {
    forall x, y :: x in g.sources && y in h.sources ==> x.id != y.id
  }

  predicate Has(g: Group, id: CardId) {
    exists x :: x in g.sources && x.id == id
  }

  /** The cards read are the manifest's: each source in one group and as digested, and no other card. */
  ghost predicate ReadIsManifest(read: map<CardId, Card>, groups: seq<Group>) {
    && (forall i: nat, j: nat :: i < j < |groups| ==> Apart(groups[i], groups[j]))
    && (forall i: nat :: i < |groups| ==> BackedUp(read, groups[i]))
    && forall id :: id in read ==> exists i: nat :: i < |groups| && Has(groups[i], id)
  }

  lemma ApartExactly(g: Group, h: Group)
    ensures Apart(g, h) <==> SourceIds(g) !! SourceIds(h)
  {
    if Apart(g, h) {
      forall id | id in SourceIds(g) ensures id !in SourceIds(h) {}
    }
    forall x | x in g.sources ensures x.id in SourceIds(g) {}
    forall x | x in h.sources ensures x.id in SourceIds(h) {}
  }

  lemma HasExactly(g: Group, id: CardId)
    ensures Has(g, id) <==> id in SourceIds(g)
  {
  }

  lemma SourcesApartExactly(groups: seq<Group>)
    ensures DisjointSources(groups)
       <==> forall i: nat, j: nat :: i < j < |groups| ==> Apart(groups[i], groups[j])
  {
    forall i: nat, j: nat | i < j < |groups|
      ensures Apart(groups[i], groups[j]) <==> SourceIds(groups[i]) !! SourceIds(groups[j])
    {
      ApartExactly(groups[i], groups[j]);
    }
  }

  lemma ListedExactly(groups: seq<Group>, id: CardId)
    ensures Listed(groups, id) <==> exists i: nat :: i < |groups| && Has(groups[i], id)
  {
    forall i: nat | i < |groups| ensures Has(groups[i], id) <==> id in SourceIds(groups[i]) {
      HasExactly(groups[i], id);
    }
  }

  lemma ReadMatchesExactly(read: map<CardId, Card>, groups: seq<Group>)
    ensures ReadMatches(read, groups) <==> ReadIsManifest(read, groups)
  {
    SourcesApartExactly(groups);
    forall id ensures Listed(groups, id) <==> exists i: nat :: i < |groups| && Has(groups[i], id) {
      ListedExactly(groups, id);
    }
    assert forall i: nat :: i < |groups| ==> (ReadAsDigested(read, groups[i]) <==> BackedUp(read, groups[i]));
  }

  /** A worker comes to trust the manifest exactly when what it has read is the manifest's cards, on the way to
      an apply that has applied nothing. */
  lemma VerifyActsExactly(world: World, w: nat)
    requires w in world.workers && !world.workers[w].verified
    ensures var me, next := world.workers[w], Next(world, VerifyManifest(w));
      && next.store == world.store
      && next.workers == world.workers[w := me.(verified := !me.rollback && me.fence.applied == 0
                                                           && ReadIsManifest(me.read, world.store.groups))]
  {
    ReadMatchesExactly(world.workers[w].read, world.store.groups);
    assert world.workers[w := world.workers[w].(verified := false)] == world.workers;
  }

  /** A rollback's preflight passes exactly for a holder whose fence counts the recorded plans, when every
      group still applied is as recorded and has no loser left; then exactly these groups are to be rolled back. */
  lemma PreflightActsExactly(world: World, w: nat)
    requires w in world.workers && !world.workers[w].preflighted
    ensures var s, me, next := world.store, world.workers[w], Next(world, Preflight(w));
      var passes := && me.rollback && Holds(world, w)
                    && (forall i :: i in s.plans ==> i < |s.groups|)
                    && me.fence.applied == Tally(s.groups, s.plans.Keys, |s.groups|).0
                    && (forall i :: i in s.plans && !s.plans[i].rolledBack ==> AsRecorded(s, i) && NoLoserLeft(s, i));
      && next.store == s && w in next.workers && (next.workers[w].preflighted <==> passes)
      && (passes ==> next.workers[w].todo == set i | i in s.plans && !s.plans[i].rolledBack)
  {
    var s := world.store;
    forall i | i in s.plans && i < |s.groups|
      ensures AfterStateMatches(s, i) && LosersAbsent(s, i) <==> AsRecorded(s, i) && NoLoserLeft(s, i)
    {
      AfterStateAsRecorded(s, i);
      NoLoserLeftExactly(s, i);
    }
  }

  predicate NoLoserLeft(s: Store, i: nat)
    requires i < |s.groups|
  {
    forall x :: x in s.groups[i].sources && x.id != CanonicalOf(s.groups[i]) ==> CardPath(x.id) !in s.library
  }

  lemma NoLoserLeftExactly(s: Store, i: nat)
    requires i < |s.groups|
    ensures LosersAbsent(s, i) <==> NoLoserLeft(s, i)
  {
    forall x | x in s.groups[i].sources ensures x.id in SourceIds(s.groups[i]) {}
  }

  // ----- the root -----

  /** Renewing the lease and ensuring the root put the stored fence's stamp on the root; ensuring creates a
      missing root under the caller's own copy; and a renewal brings that copy up to date. */
  lemma StampsExactly(world: World, w: nat)
    requires Holds(world, w)
    ensures var s, f, me := world.store, world.store.fence.value, world.workers[w].fence;
      && Next(world, Renew(w)).store
         == s.(root := if s.root.Some? then Some(RootStamp(f.token, f.owner, f.revision)) else None)
      && w in Next(world, Renew(w)).workers && Next(world, Renew(w)).workers[w].fence == f
      && Next(world, Root(w)).store
         == s.(root := if s.root.Some? then Some(RootStamp(f.token, f.owner, f.revision))
                       else Some(RootStamp(me.token, me.owner, me.revision)))
  {
  }

  // ----- the ends -----

  lemma FinalizeActsExactly(world: World, w: nat)
    ensures Next(world, Finalize(w)).store != world.store <==>
      && w in world.workers && world.workers[w].ready && Holds(world, w) && RootStamped(world.store)
      && world.store.fence.value.applied == |world.store.groups|
  {
  }

  lemma FinishActsExactly(world: World, w: nat)
    ensures Next(world, Finish(w)).store != world.store <==>
      && w in world.workers && world.workers[w].preflighted && world.workers[w].todo == {} && Holds(world, w)
      && RootStamped(world.store)
  {
  }

  /** A fence is aborted exactly while no group is applied under it. */
  lemma AbortActsExactly(world: World)
    ensures Next(world, Abort).store != world.store <==>
      world.store.fence.Some? && world.store.fence.value.applied == 0
  {
  }

  /** And cleared exactly by a worker that holds its revision and knows of no progress, when there is none. */
  lemma ClearActsExactly(world: World, w: nat)
    ensures Next(world, ClearFence(w)).store != world.store <==>
      && Holds(world, w) && world.workers[w].fence.revision == world.store.fence.value.revision
      && var me, f := world.workers[w], world.store.fence.value;
      && (if me.rollback then me.fence.rolledBack == 0 && (me.fromComplete || me.fence.applied == 0)
          else me.fence.applied == 0)
      && (if f.phase == Rollback then f.rolledBack else f.applied) == 0
  {
  }
}
