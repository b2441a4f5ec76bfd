/**
 Who may change the stored migration (functions/src/legacyLibraryMigrationFirestore.ts:814-1003, 1061-1404,
 1517-1594, 1662-1694, 1963-2132): the lease, the fence's revision and the root's stamp, as guards of every step.
 */
module LibraryMigrationLease {
  import opened Prelude
  import opened LibraryMigration
  import opened LibraryMigrationRuns

  // ----- taking the fence -----

  function OwnerOf(world: World, step: Step): Owner
    requires step.BeginApply? || step.BeginRollback?
  {
    if step.BeginApply? && step.owner.Some? then Operator(step.owner.value) else Minted(world.nextOwner)
  }

  /** While another owner's lease runs, nobody can take the fence over, to go on or to roll back. */
  lemma LiveLeaseKeepsOthersOut(world: World, step: Step)
    requires (step.BeginApply? || step.BeginRollback?) && step.leaseLive
    requires world.store.fence.Some? && world.store.fence.value.owner != OwnerOf(world, step)
    ensures Next(world, step).store == world.store && Next(world, step).workers == world.workers
  {
  }

  /** A standing fence is taken over exactly by its owner or after its lease has run out; an apply not while
      it is rolling back, and a rollback not before a group has been applied; and taking it over keeps its
      token, its counters and its start, and moves its revision, so that older copies are behind. */
  lemma TakeOverExactly(world: World, step: Step)
    requires (step.BeginApply? || step.BeginRollback?) && world.store.fence.Some?
    requires step.BeginRollback? ==> world.store.root.Some?
    ensures var held, s, rolling := world.store.fence.value, Next(world, step).store, step.BeginRollback?;
      var may := && (!step.leaseLive || held.owner == OwnerOf(world, step))
                 && (if rolling then held.phase == Rollback || held.applied > 0 else held.phase != Rollback);
      if !may then s == world.store && Next(world, step).workers == world.workers
      else
        var phase := if rolling then Rollback else if held.applied > 0 then Apply else Verify;
        && s == world.store.(fence := s.fence, job := Job(phase, held.applied, held.appliedSources))
        && s.fence == Some(Fence(held.token, OwnerOf(world, step), held.revision + 1, phase, held.applied,
                                 held.appliedSources, held.rolledBack, held.startedAt))
        && step.w in Next(world, step).workers && Next(world, step).workers[step.w].fence == s.fence.value
  {
  }

  /** Where none stands, a fence is taken exactly in a phase that has work of its kind left; it starts from
      nothing, a rollback's with the counters of the job. */
  lemma TakeAnewExactly(world: World, step: Step)
    requires (step.BeginApply? || step.BeginRollback?) && world.store.fence.None?
    requires step.BeginRollback? ==> world.store.root.Some?
    ensures var job, s, rolling := world.store.job, Next(world, step).store, step.BeginRollback?;
      var may := job.phase == Discovered || job.phase == Verify || job.phase == Apply || job.phase == Rollback
              || (rolling && (job.phase == Complete || job.phase == RolledBack));
      if !may then s == world.store && Next(world, step).workers == world.workers
      else
        var phase := if rolling then Rollback else Verify;
        var applied, sources := if rolling then job.applied else 0, if rolling then job.appliedSources else 0;
        && s == world.store.(fence := s.fence, job := Job(phase, applied, sources))
        && s.fence == Some(Fence(world.nextToken, OwnerOf(world, step), 1, phase, applied, sources, 0, step.now))
        && step.w in Next(world, step).workers && Next(world, step).workers[step.w].fence == s.fence.value
  {
  }

  // ----- working under it -----

  /** The worker's copy is of the stored fence, by token and owner. */
  predicate Holds(world: World, w: nat) {
    && w in world.workers && world.store.fence.Some?
    && world.workers[w].fence.token == world.store.fence.value.token
    && world.workers[w].fence.owner == world.store.fence.value.owner
  }

  /** The stored root carries the stamp of the stored fence. */
  predicate RootStamped(s: Store) {
    && s.fence.Some? && s.root.Some?
    && s.root.value.token == s.fence.value.token && s.root.value.owner == s.fence.value.owner
    && s.root.value.revision == s.fence.value.revision
  }

  predicate ByWorker(step: Step) {
    !step.BeginApply? && !step.BeginRollback? && !step.OwnerWrite? && !step.Abort?
  }

  /** Whoever does not hold the stored fence changes nothing that is stored, but for the batch of backups. */
  lemma OutsiderChangesNothing(world: World, step: Step)
    requires ByWorker(step) && !step.Backup? && !Holds(world, step.w)
    ensures Next(world, step).store == world.store
  {
  }

  /** The batch of backups adds cards as they are in the library, and overwrites none. */
  lemma BackupOnlyAdds(world: World, w: nat)
    ensures var s, t := world.store, Next(world, Backup(w)).store;
      && t == s.(backups := t.backups)
      && (forall id :: id in s.backups ==> Lookup(t.backups, id) == Some(s.backups[id]))
      && (forall id :: id in t.backups && id !in s.backups ==>
            Lookup(s.library, CardPath(id)) == Some(CardDoc(t.backups[id])))
  {
  }

  /** It copies every source of the group that a worker is about to seal, and nothing else. */
  lemma BackupCopiesGroup(world: World, w: nat)
    requires Next(world, Backup(w)).store != world.store
    ensures var s, t := world.store, Next(world, Backup(w)).store;
      && w in world.workers && world.workers[w].verified && world.workers[w].sealedUpTo < |s.groups|
      && var g := s.groups[world.workers[w].sealedUpTo];
      && (forall x :: x in g.sources ==> Lookup(t.backups, x.id) == Some(x.card))
      && (forall id :: id in t.backups && id !in s.backups ==> id in SourceIds(g))
  {
  }

  /** A group is applied or rolled back, and a fence without progress cleared, only by a copy of the stored
      revision; and a group only under a root that carries its stamp. */
  lemma StaleCopyChangesNothing(world: World, step: Step)
    requires step.ApplyOne? || step.RollbackOne? || step.ClearFence?
    requires Holds(world, step.w)
    requires world.workers[step.w].fence.revision != world.store.fence.value.revision
          || (!step.ClearFence? && !RootStamped(world.store))
    ensures Next(world, step).store == world.store
  {
  }

  /** The migration ends only under a root that carries its stamp, and only when every group is counted. */
  lemma UnstampedRootEndsNothing(world: World, step: Step)
    requires step.Finalize? || step.Finish?
    requires !RootStamped(world.store) || (step.Finalize? && world.store.fence.value.applied != |world.store.groups|)
    ensures Next(world, step).store == world.store
  {
  }

  /** A fence that has made progress is neither cleared nor aborted: an apply's by the groups it applied, a
      rollback's by those it rolled back. */
  lemma ProgressIsKept(world: World, step: Step)
    requires step.ClearFence? || step.Abort?
    requires world.store.fence.Some? && var f := world.store.fence.value;
      if step.ClearFence? && f.phase == Rollback then f.rolledBack > 0 else f.applied > 0
    ensures Next(world, step).store == world.store
  {
  }

  /** Only these four steps drop a fence. */
  lemma OtherStepsKeepFence(world: World, step: Step)
    requires world.store.fence.Some? && !(step.Finalize? || step.Finish? || step.Abort? || step.ClearFence?)
    ensures Next(world, step).store.fence.Some?
  {
    if step.BeginApply? || step.BeginRollback? { BeginKeepsFence(world, step); }
  }

  lemma BeginKeepsFence(world: World, step: Step)
    requires world.store.fence.Some? && (step.BeginApply? || step.BeginRollback?)
    ensures Next(world, step).store.fence.Some?
  {
  }

  /** However the migration ends, only the fence goes and the job moves, each ending to its own phase. */
  lemma EndingKeepsDocuments(world: World, step: Step)
    requires step.Finalize? || step.Finish? || step.Abort?
    requires Next(world, step).store != world.store
    ensures var s, t := world.store, Next(world, step).store;
      && s.fence.Some? && t == s.(fence := None, job := t.job)
      && t.job == if step.Finalize? then Job(Complete, s.fence.value.applied, s.fence.value.appliedSources)
                  else s.job.(phase := if step.Finish? then RolledBack else Blocked)
  {
  }

  /** Clearing a fence without progress takes an apply back to the discovered job and drops its root; a
      rollback goes back to the completed job. */
  lemma ClearingKeepsDocuments(world: World, w: nat)
    requires Next(world, ClearFence(w)).store != world.store
    ensures var s, t := world.store, Next(world, ClearFence(w)).store;
      && s.fence.Some? && w in world.workers
      && t == if world.workers[w].rollback then s.(fence := None, job := s.job.(phase := Complete))
              else s.(fence := None, root := None, job := Job(Discovered, 0, 0))
  {
  }
}
