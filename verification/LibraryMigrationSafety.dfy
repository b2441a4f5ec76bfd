/**
 Safety of the library migration over every run: the invariant that each step keeps, and what it
 says about the counters, the applied groups and the library after a rollback.
 */
module LibraryMigrationSafety {
  import opened Prelude
  import opened DuplicateCleanup
  import opened LibraryMigration
  import opened LibraryMigrationRuns
  import opened LibraryMigrationProof

  // ----- the invariant -----

  ghost predicate JobInv(s: Store) {
    && (forall i :: i in s.plans ==> i < |s.groups|)
    && (s.job.applied, s.job.appliedSources) == Tally(s.groups, s.plans.Keys, |s.groups|)
    && (s.job.phase == Discovered ==> s.plans == map[])
    && (s.job.phase == RolledBack ==> Live(s.plans) == {})
    && (s.fence.None? ==> s.job.phase != Verify && s.job.phase != Apply && s.job.phase != Rollback)
  }

  ghost predicate Issued(owner: Owner, nextOwner: nat) {
    owner.Minted? ==> owner.serial < nextOwner
  }

  ghost predicate FenceInv(s: Store, base: Library, nextToken: nat, nextOwner: nat) {
    s.fence.Some? ==>
      var f := s.fence.value;
      && f.token < nextToken && Issued(f.owner, nextOwner)
      && f.applied == s.job.applied && f.appliedSources == s.job.appliedSources
      && (f.phase == Rollback ==> f.owner.Minted?)
      && (f.phase != Rollback ==>
            && Live(s.plans) == s.plans.Keys
            && Inside(s.library, s.groups, s.plans)
            && (f.phase == Apply || f.applied > 0 ==> EraOk(s, base)))
  }

  ghost predicate WorkerInv(s: Store, base: Library, nextToken: nat, nextOwner: nat, me: Worker) {
    && me.fence.token < nextToken && Issued(me.fence.owner, nextOwner)
    && (me.rollback ==> me.fence.owner.Minted?)
    && (me.verified || me.ready ==> !me.rollback)
    && (me.preflighted ==> me.rollback)
    && me.sealedUpTo <= |s.groups|
    && (forall k: nat :: k < me.sealedUpTo ==> k in s.sealed)
    && (s.fence.Some? && s.fence.value.token == me.fence.token ==> SameEra(s, base, s.fence.value, me))
  }

  /** What a worker may rely on while the fence it began under still stands. */
  ghost predicate SameEra(s: Store, base: Library, current: Fence, me: Worker) {
    && (current.owner == me.fence.owner ==> (me.rollback <==> current.phase == Rollback))
    && (me.preflighted ==> current.phase == Rollback && Live(s.plans) <= me.todo)
    && (current.phase != Rollback ==>
          && ReadIsBase(base, s.groups, me.read)
          && (me.verified ==> MatchesManifest(base, s.groups))
          && (me.ready ==> EraOk(s, base)))
  }

  ghost predicate StoreInv(s: Store, base: Library, nextToken: nat, nextOwner: nat, intact: bool) {
    && DocInv(s, base)
    && JobInv(s)
    && FenceInv(s, base, nextToken, nextOwner)
    && (intact ==> Inside(s.library, s.groups, s.plans))
  }

  ghost predicate Inv(world: World) {
    && StoreInv(world.store, world.baseline, world.nextToken, world.nextOwner, world.intact)
    && WorkersInv(world.store, world.baseline, world.nextToken, world.nextOwner, world.workers)
  }

  ghost predicate WorkersInv(s: Store, base: Library, nextToken: nat, nextOwner: nat, workers: map<nat, Worker>) {
    forall w :: w in workers ==> WorkerInv(s, base, nextToken, nextOwner, workers[w])
  }

  /** A freshly discovered library: nothing sealed, applied or backed up, and no tombstone in this
      job's name. */
  ghost predicate Initial(world: World) {
    var s := world.store;
    && WellKeyed(s.groups) && BaseUnstamped(s.library)
    && s.fence.None? && s.job == Job(Discovered, 0, 0)
    && s.sealed == map[] && s.applied == {} && s.plans == map[] && s.backups == map[] && s.root.None?
    && world.workers == map[] && world.baseline == s.library && world.intact
  }

  lemma {:induction false} TallyOfNothing(groups: seq<Group>, n: nat)
    requires n <= |groups|
    ensures Tally(groups, {}, n) == (0, 0)
  {
    if n > 0 { TallyOfNothing(groups, n - 1); }
  }

  lemma InitialInv(world: World)
    requires Initial(world)
    ensures Inv(world)
  {
    var s := world.store;
    assert s.plans.Keys == {};
    assert Live(s.plans) == {};
    TallyOfNothing(s.groups, |s.groups|);
  }

  // ----- counting -----

  lemma {:induction false} TallyAdd(groups: seq<Group>, marked: set<nat>, i: nat, n: nat)
    requires n <= |groups| && i !in marked
    ensures Tally(groups, marked + {i}, n)
         == if i < n then (Tally(groups, marked, n).0 + 1, Tally(groups, marked, n).1 + |groups[i].sources|)
            else Tally(groups, marked, n)
  {
    if n > 0 { TallyAdd(groups, marked, i, n - 1); }
  }

  lemma {:induction false} TallyZero(groups: seq<Group>, marked: set<nat>, n: nat, i: nat)
    requires n <= |groups| && i in marked && i < n
    ensures Tally(groups, marked, n).0 > 0
  {
    if i < n - 1 { TallyZero(groups, marked, n - 1, i); }
  }

  lemma NothingTallied(s: Store)
    requires s.plans == map[]
    ensures Tally(s.groups, s.plans.Keys, |s.groups|) == (0, 0)
  {
    TallyOfNothing(s.groups, |s.groups|);
    assert s.plans.Keys == {};
  }

  lemma NoneApplied(s: Store)
    requires JobInv(s) && s.job.applied == 0
    ensures s.plans == map[] && Live(s.plans) == {} && s.job.appliedSources == 0
  {
    if i :| i in s.plans {
      TallyZero(s.groups, s.plans.Keys, |s.groups|, i);
      assert false;
    }
    NothingTallied(s);
  }

  // ----- what one transaction means for the other workers -----

  /** Every transaction keeps the fence, takes it over, or starts a new one. */
  ghost predicate FenceMoves(s: Store, t: Store, nextToken: nat, nextOwner: nat) {
    t.fence.Some? ==>
      var now_ := t.fence.value;
      || now_.token == nextToken
      || (s.fence.Some? &&
          var was_ := s.fence.value;
          && now_.token == was_.token
          && (was_.phase == Rollback ==> now_.phase == Rollback)
          && ((now_.owner == was_.owner && (now_.phase == Rollback <==> was_.phase == Rollback))
              || now_.owner == Minted(nextOwner)
              || (now_.owner.Operator? && now_.phase != Rollback)))
  }

  ghost predicate Moves(s: Store, t: Store, nextToken: nat, nextOwner: nat) {
    && t.groups == s.groups
    && s.sealed.Keys <= t.sealed.Keys
    && FenceMoves(s, t, nextToken, nextOwner)
    && (t.fence.Some? && t.fence.value.phase == Rollback ==> Live(t.plans) <= Live(s.plans))
  }

  ghost predicate Known(t: Store, nextToken: nat, nextOwner: nat) {
    t.fence.Some? ==> t.fence.value.token != nextToken && t.fence.value.owner != Minted(nextOwner)
  }

  lemma WorkerKeepsInv(s: Store, t: Store, base: Library, nextToken: nat, nextOwner: nat, me: Worker)
    requires WorkerInv(s, base, nextToken, nextOwner, me) && Moves(s, t, nextToken, nextOwner)
    ensures WorkerInv(t, base, nextToken + 1, nextOwner + 1, me)
    ensures Known(t, nextToken, nextOwner) ==> WorkerInv(t, base, nextToken, nextOwner, me)
  {
  }

  /** The world after one worker's commit. */
  function CommittedWorld(world: World, t: Store, w: nat, me: Worker): World {
    world.(store := t, workers := world.workers[w := me])
  }

  /** One worker committed a transaction: its own record changed, the others stand. */
  lemma Committed(world: World, t: Store, w: nat, me: Worker, intact: bool)
    requires Inv(world) && Moves(world.store, t, world.nextToken, world.nextOwner)
    requires Known(t, world.nextToken, world.nextOwner)
    requires StoreInv(t, world.baseline, world.nextToken, world.nextOwner, intact)
    requires WorkerInv(t, world.baseline, world.nextToken, world.nextOwner, me)
    ensures Inv(CommittedWorld(world, t, w, me).(intact := intact))
    ensures Inv(world.(store := t, intact := intact))
  {
    WorkersKeepInv(world.store, t, world.baseline, world.nextToken, world.nextOwner, world.workers);
  }

  // ----- transactions on the fence alone -----

  /** A transaction that leaves the documents alone has only the job and the fence to answer for. */
  lemma DocumentsStand(s: Store, t: Store, base: Library, nextToken: nat, nextOwner: nat, intact: bool)
    requires DocInv(s, base) && (intact ==> Inside(s.library, s.groups, s.plans))
    requires SameDocs(s, t) && JobInv(t) && FenceInv(t, base, nextToken, nextOwner)
    ensures StoreInv(t, base, nextToken, nextOwner, intact)
  {
  }

  /** The documents, the counters and the fence are as they were; only the root moved. */
  lemma RootMoves(s: Store, base: Library, nextToken: nat, nextOwner: nat, intact: bool, root: Option<RootStamp>)
    requires StoreInv(s, base, nextToken, nextOwner, intact)
    ensures StoreInv(s.(root := root), base, nextToken, nextOwner, intact)
    ensures Moves(s, s.(root := root), nextToken, nextOwner) && Known(s, nextToken, nextOwner)
  {
  }

  /** A worker that holds the lease may copy the fence. */
  lemma FollowerInv(s: Store, base: Library, nextToken: nat, nextOwner: nat, me: Worker)
    requires s.fence.Some? && FenceInv(s, base, nextToken, nextOwner) && WorkerInv(s, base, nextToken, nextOwner, me)
    requires HoldsLease(s, me.fence)
    ensures WorkerInv(s, base, nextToken, nextOwner, me.(fence := s.fence.value))
  {
  }

  lemma RenewKeepsInv(world: World, w: nat)
    requires Inv(world) && w in world.workers
    ensures Inv(Next(world, Renew(w)))
  {
    var s, me := world.store, world.workers[w];
    var r := RenewFence(s, me.fence);
    if r.Ok? {
      RootMoves(s, world.baseline, world.nextToken, world.nextOwner, world.intact, r.value.root);
      assert r.value == s.(root := r.value.root);
      WorkerKeepsInv(s, r.value, world.baseline, world.nextToken, world.nextOwner, me);
      FollowerInv(r.value, world.baseline, world.nextToken, world.nextOwner, me);
      Committed(world, r.value, w, me.(fence := s.fence.value), world.intact);
    }
  }

  lemma RootKeepsInv(world: World, w: nat)
    requires Inv(world) && w in world.workers
    ensures Inv(Next(world, Root(w)))
  {
    var s, me := world.store, world.workers[w];
    var r := EnsureRoot(s, me.fence);
    if r.Ok? {
      RootMoves(s, world.baseline, world.nextToken, world.nextOwner, world.intact, r.value.root);
      assert r.value == s.(root := r.value.root);
      WorkerKeepsInv(s, r.value, world.baseline, world.nextToken, world.nextOwner, me);
      Committed(world, r.value, w, me, world.intact);
    }
  }

  lemma LeavesKeepInv(s: Store, t: Store, base: Library, nextToken: nat, nextOwner: nat, intact: bool)
    requires StoreInv(s, base, nextToken, nextOwner, intact)
    requires SameDocs(s, t) && t.fence.None? && JobInv(t)
    ensures StoreInv(t, base, nextToken, nextOwner, intact) && Moves(s, t, nextToken, nextOwner)
  {
  }

  /** The store after a step that can end a fence. */
  function EndedStore(s: Store, me: Worker, step: Step): Store
    requires step.Finalize? || step.ClearFence? || step.Finish?
  {
    match step
    case Finalize(_) =>
      if me.ready && FinalizeMigration(s, me.fence).Ok? then FinalizeMigration(s, me.fence).value else s
    case Finish(_) =>
      if me.preflighted && me.todo == {} && FinishRollback(s, me.fence).Ok?
      then FinishRollback(s, me.fence).value else s
    case ClearFence(_) =>
      if !me.rollback && me.fence.applied == 0 then ClearZeroProgressFence(s, me.fence, Discovered)
      else if me.rollback && me.fence.rolledBack == 0 && (me.fromComplete || me.fence.applied == 0)
      then ClearZeroProgressFence(s, me.fence, Complete)
      else s
  }

  lemma EndingStep(world: World, w: nat, step: Step)
    requires w in world.workers && (step == Finalize(w) || step == ClearFence(w) || step == Finish(w))
    ensures Next(world, step) == world.(store := EndedStore(world.store, world.workers[w], step))
  {
  }

  /** Steps that can end a fence. */
  lemma EndingStepKeepsInv(world: World, w: nat, step: Step)
    requires Inv(world) && w in world.workers
    requires step == Finalize(w) || step == ClearFence(w) || step == Finish(w)
    ensures Inv(Next(world, step))
  {
    var s, me := world.store, world.workers[w];
    var t := EndedStore(s, me, step);
    EndingStep(world, w, step);
    if t != s {
      EndingJob(s, world.baseline, world.nextToken, world.nextOwner, me, step);
      LeavesKeepInv(s, t, world.baseline, world.nextToken, world.nextOwner, world.intact);
      WorkerKeepsInv(s, t, world.baseline, world.nextToken, world.nextOwner, me);
      Committed(world, t, w, me, world.intact);
    }
  }

  ghost predicate Ended(s: Store, t: Store) {
    SameDocs(s, t) && t.fence.None? && JobInv(t)
  }

  lemma FinalizeEnds(s: Store, base: Library, nextToken: nat, nextOwner: nat, f: Fence)
    requires JobInv(s) && FenceInv(s, base, nextToken, nextOwner) && FinalizeMigration(s, f).Ok?
    ensures Ended(s, FinalizeMigration(s, f).value)
  {
  }

  lemma ClearEnds(s: Store, base: Library, nextToken: nat, nextOwner: nat, me: Worker, backTo: Phase)
    requires JobInv(s) && FenceInv(s, base, nextToken, nextOwner) && WorkerInv(s, base, nextToken, nextOwner, me)
    requires backTo == Complete || (backTo == Discovered && !me.rollback)
    requires ClearZeroProgressFence(s, me.fence, backTo) != s
    ensures Ended(s, ClearZeroProgressFence(s, me.fence, backTo))
  {
    if backTo == Discovered { NoneApplied(s); }
  }

  lemma FinishEnds(s: Store, base: Library, nextToken: nat, nextOwner: nat, me: Worker)
    requires JobInv(s) && WorkerInv(s, base, nextToken, nextOwner, me)
    requires me.preflighted && me.todo == {} && FinishRollback(s, me.fence).Ok?
    ensures Ended(s, FinishRollback(s, me.fence).value)
  {
    assert Live(s.plans) <= me.todo;
  }

  lemma EndingJob(s: Store, base: Library, nextToken: nat, nextOwner: nat, me: Worker, step: Step)
    requires JobInv(s) && FenceInv(s, base, nextToken, nextOwner) && WorkerInv(s, base, nextToken, nextOwner, me)
    requires step.Finalize? || step.ClearFence? || step.Finish?
    requires EndedStore(s, me, step) != s
    ensures Ended(s, EndedStore(s, me, step))
  {
    match step
    case Finalize(_) => FinalizeEnds(s, base, nextToken, nextOwner, me.fence);
    case Finish(_) => FinishEnds(s, base, nextToken, nextOwner, me);
    case ClearFence(_) =>
      ClearEnds(s, base, nextToken, nextOwner, me, if me.rollback then Complete else Discovered);
  }

  lemma AbortKeepsInv(world: World)
    requires Inv(world)
    ensures Inv(Next(world, Abort))
  {
    var s, t := world.store, Next(world, Abort).store;
    if t != s {
      LeavesKeepInv(s, t, world.baseline, world.nextToken, world.nextOwner, world.intact);
      WorkersKeepInv(s, t, world.baseline, world.nextToken, world.nextOwner, world.workers);
    } else {
      assert Next(world, Abort) == world;
    }
  }

  // ----- beginning -----

  lemma BeginKeepsJob(s: Store, t: Store, owner: Owner, rollback: bool, leaseLive: bool, token: nat, now: nat,
                      base: Library, nextOwner: nat)
    requires JobInv(s) && FenceInv(s, base, token, nextOwner)
    requires BeginFence(s, owner, rollback, leaseLive, token, now) == Ok(t)
    ensures SameDocs(s, t) && JobInv(t) && t.fence.Some?
    ensures t.fence.value.applied == t.job.applied && t.fence.value.appliedSources == t.job.appliedSources
  {
    if s.fence.None? && s.job.phase == Discovered { NothingTallied(s); }
  }

  lemma BeginKeepsFence(s: Store, t: Store, owner: Owner, rollback: bool, leaseLive: bool, base: Library,
                        nextToken: nat, nextOwner: nat, now: nat)
    requires JobInv(s) && FenceInv(s, base, nextToken, nextOwner)
    requires owner.Operator? || owner == Minted(nextOwner)
    requires rollback ==> owner.Minted?
    requires BeginFence(s, owner, rollback, leaseLive, nextToken, now) == Ok(t)
    requires t.fence.Some? && t.fence.value.applied == t.job.applied
    requires t.fence.value.appliedSources == t.job.appliedSources
    ensures FenceInv(t, base, nextToken + 1, nextOwner + 1) && Moves(s, t, nextToken, nextOwner)
  {
    if s.fence.None? && s.job.phase == Discovered { NothingTallied(s); }
  }

  lemma BeginKeepsStore(s: Store, t: Store, base: Library, nextToken: nat, nextOwner: nat, intact: bool,
                        owner: Owner, rollback: bool, leaseLive: bool, now: nat)
    requires StoreInv(s, base, nextToken, nextOwner, intact)
    requires owner.Operator? || owner == Minted(nextOwner)
    requires rollback ==> owner.Minted?
    requires BeginFence(s, owner, rollback, leaseLive, nextToken, now) == Ok(t)
    ensures StoreInv(t, base, nextToken + 1, nextOwner + 1, intact) && Moves(s, t, nextToken, nextOwner)
  {
    BeginKeepsJob(s, t, owner, rollback, leaseLive, nextToken, now, base, nextOwner);
    BeginKeepsFence(s, t, owner, rollback, leaseLive, base, nextToken, nextOwner, now);
    DocumentsStand(s, t, base, nextToken + 1, nextOwner + 1, intact);
  }

  function NewWorker(f: Fence, rollback: bool, fromComplete: bool): Worker {
    Worker(f, rollback, fromComplete, map[], false, 0, !rollback && f.applied > 0, false, {})
  }

  lemma NewWorkerInv(s: Store, t: Store, base: Library, nextToken: nat, nextOwner: nat, owner: Owner,
                     rollback: bool, leaseLive: bool, now: nat, fromComplete: bool)
    requires BeginFence(s, owner, rollback, leaseLive, nextToken, now) == Ok(t)
    requires rollback ==> owner.Minted?
    requires t.fence.Some? && FenceInv(t, base, nextToken + 1, nextOwner + 1)
    ensures WorkerInv(t, base, nextToken + 1, nextOwner + 1, NewWorker(t.fence.value, rollback, fromComplete))
  {
  }

  lemma BeginStep(world: World, w: nat, owner: Owner, rollback: bool, leaseLive: bool, now: nat, t: Store)
    requires BeginFence(world.store, owner, rollback, leaseLive, world.nextToken, now) == Ok(t)
    ensures t.fence.Some?
    ensures Begin(world, w, owner, rollback, leaseLive, now)
         == CommittedWorld(world, t, w, NewWorker(t.fence.value, rollback, world.store.job.phase == Complete)).(
              nextToken := world.nextToken + 1, nextOwner := world.nextOwner + 1)
  {
  }

  lemma BeginKeepsInv(world: World, w: nat, owner: Owner, rollback: bool, leaseLive: bool, now: nat)
    requires Inv(world)
    requires owner.Operator? || owner == Minted(world.nextOwner)
    requires rollback ==> owner.Minted?
    ensures Inv(Begin(world, w, owner, rollback, leaseLive, now))
  {
    var s, base, token, serial := world.store, world.baseline, world.nextToken, world.nextOwner;
    var r := BeginFence(s, owner, rollback, leaseLive, token, now);
    if r.Err? {
      TokensGrow(world);
    } else {
      var t := r.value;
      BeginStep(world, w, owner, rollback, leaseLive, now, t);
      BeginKeepsStore(s, t, base, token, serial, world.intact, owner, rollback, leaseLive, now);
      NewWorkerInv(s, t, base, token, serial, owner, rollback, leaseLive, now, s.job.phase == Complete);
      Began(world, t, w, NewWorker(t.fence.value, rollback, s.job.phase == Complete));
    }
  }

  lemma Began(world: World, t: Store, w: nat, me: Worker)
    requires Inv(world) && Moves(world.store, t, world.nextToken, world.nextOwner)
    requires StoreInv(t, world.baseline, world.nextToken + 1, world.nextOwner + 1, world.intact)
    requires WorkerInv(t, world.baseline, world.nextToken + 1, world.nextOwner + 1, me)
    ensures Inv(CommittedWorld(world, t, w, me).(nextToken := world.nextToken + 1, nextOwner := world.nextOwner + 1))
  {
    WorkersKeepInv(world.store, t, world.baseline, world.nextToken, world.nextOwner, world.workers);
  }

  lemma TokensGrow(world: World)
    requires Inv(world)
    ensures Inv(world.(nextToken := world.nextToken + 1, nextOwner := world.nextOwner + 1))
  {
    WorkersKeepInv(world.store, world.store, world.baseline, world.nextToken, world.nextOwner, world.workers);
  }

  lemma WorkersKeepInv(s: Store, t: Store, base: Library, nextToken: nat, nextOwner: nat, workers: map<nat, Worker>)
    requires WorkersInv(s, base, nextToken, nextOwner, workers) && Moves(s, t, nextToken, nextOwner)
    ensures WorkersInv(t, base, nextToken + 1, nextOwner + 1, workers)
    ensures Known(t, nextToken, nextOwner) ==> WorkersInv(t, base, nextToken, nextOwner, workers)
  {
    forall v | v in workers ensures WorkerInv(t, base, nextToken + 1, nextOwner + 1, workers[v]) {
      WorkerKeepsInv(s, t, base, nextToken, nextOwner, workers[v]);
    }
    if Known(t, nextToken, nextOwner) {
      forall v | v in workers ensures WorkerInv(t, base, nextToken, nextOwner, workers[v]) {
        WorkerKeepsInv(s, t, base, nextToken, nextOwner, workers[v]);
      }
    }
  }

  // ----- preparing -----

  /** A step that only teaches a worker something. */
  lemma Learned(world: World, w: nat, me: Worker)
    requires Inv(world) && WorkerInv(world.store, world.baseline, world.nextToken, world.nextOwner, me)
    ensures Inv(world.(workers := world.workers[w := me]))
  {
  }

  lemma ReadKeepsInv(world: World, w: nat, ids: set<CardId>)
    requires Inv(world) && w in world.workers
    ensures Inv(Next(world, ReadPage(w, ids)))
  {
    var s, me := world.store, world.workers[w];
    if s.fence.Some? && s.fence.value.token == me.fence.token && s.fence.value.phase != Rollback {
      PageShowsBaseline(s, world.baseline, me.read, ids);
    }
    Learned(world, w, me.(read := me.read - ids + CardsAt(s.library, ids)));
  }

  lemma VerifyKeepsInv(world: World, w: nat)
    requires Inv(world) && w in world.workers
    ensures Inv(Next(world, VerifyManifest(w)))
  {
    var s, me := world.store, world.workers[w];
    if !me.rollback && me.fence.applied == 0 && ReadMatches(me.read, s.groups) {
      if s.fence.Some? && s.fence.value.token == me.fence.token && s.fence.value.phase != Rollback {
        VerifiedBaseline(world.baseline, s.groups, me.read);
      }
      Learned(world, w, me.(verified := true));
    }
  }

  lemma BackupMoves(s: Store, base: Library, nextToken: nat, nextOwner: nat, intact: bool, i: nat)
    requires StoreInv(s, base, nextToken, nextOwner, intact) && i < |s.groups| && StoreBackups(s, i).Ok?
    ensures var t := StoreBackups(s, i).value;
      StoreInv(t, base, nextToken, nextOwner, intact) && Moves(s, t, nextToken, nextOwner)
      && Known(t, nextToken, nextOwner)
  {
    BackupKeepsDocs(s, base, i);
  }

  lemma BackupKeepsInv(world: World, w: nat)
    requires Inv(world) && w in world.workers
    ensures Inv(Next(world, Backup(w)))
  {
    var s, me := world.store, world.workers[w];
    if me.verified && me.sealedUpTo < |s.groups| && StoreBackups(s, me.sealedUpTo).Ok? {
      var t := StoreBackups(s, me.sealedUpTo).value;
      BackupMoves(s, world.baseline, world.nextToken, world.nextOwner, world.intact, me.sealedUpTo);
      WorkerKeepsInv(s, t, world.baseline, world.nextToken, world.nextOwner, me);
      Committed(world, t, w, me, world.intact);
      assert Next(world, Backup(w)) == world.(store := t, intact := world.intact);
    }
  }

  /** Only a worker of the standing apply era seals, and then either nothing is applied or every
      group is sealed already. */
  lemma SealMoves(s: Store, t: Store, base: Library, nextToken: nat, nextOwner: nat, intact: bool, me: Worker, i: nat)
    requires StoreInv(s, base, nextToken, nextOwner, intact) && WorkerInv(s, base, nextToken, nextOwner, me)
    requires i < |s.groups| && SealGroup(s, me.fence, i) == Ok(t) && !me.rollback
    ensures StoreInv(t, base, nextToken, nextOwner, intact) && Moves(s, t, nextToken, nextOwner)
    ensures Known(t, nextToken, nextOwner) && i in t.sealed
    ensures WorkerInv(t, base, nextToken, nextOwner, me)
  {
    assert s.fence.value.phase != Rollback;
    if s.fence.value.applied == 0 { NoneApplied(s); }
    SealKeepsDocs(s, base, me.fence, i);
    WorkerKeepsInv(s, t, base, nextToken, nextOwner, me);
  }

  lemma SealKeepsInv(world: World, w: nat)
    requires Inv(world) && w in world.workers
    ensures Inv(Next(world, Seal(w)))
  {
    var s, me := world.store, world.workers[w];
    var i := me.sealedUpTo;
    if me.verified && i < |s.groups| && SealGroup(s, me.fence, i).Ok? {
      var t := SealGroup(s, me.fence, i).value;
      SealMoves(s, t, world.baseline, world.nextToken, world.nextOwner, world.intact, me, i);
      var me' := me.(sealedUpTo := i + 1);
      SealedNext(t, world.baseline, world.nextToken, world.nextOwner, me);
      Committed(world, t, w, me', world.intact);
      SealStep(world, w, t);
    }
  }

  lemma SealStep(world: World, w: nat, t: Store)
    requires w in world.workers
    requires var me := world.workers[w];
      me.verified && me.sealedUpTo < |world.store.groups| && SealGroup(world.store, me.fence, me.sealedUpTo) == Ok(t)
    ensures var me := world.workers[w];
      Next(world, Seal(w)) == CommittedWorld(world, t, w, me.(sealedUpTo := me.sealedUpTo + 1))
  {
  }

  lemma SealedNext(s: Store, base: Library, nextToken: nat, nextOwner: nat, me: Worker)
    requires WorkerInv(s, base, nextToken, nextOwner, me) && me.sealedUpTo < |s.groups| && me.sealedUpTo in s.sealed
    ensures WorkerInv(s, base, nextToken, nextOwner, me.(sealedUpTo := me.sealedUpTo + 1))
  {
  }

  lemma ResealKeepsInv(world: World, w: nat, i: nat)
    requires Inv(world) && w in world.workers
    ensures Inv(Next(world, Reseal(w, i)))
  {
    var s, me := world.store, world.workers[w];
    if me.ready && i < |s.groups| && SealGroup(s, me.fence, i).Ok? {
      var t := SealGroup(s, me.fence, i).value;
      SealMoves(s, t, world.baseline, world.nextToken, world.nextOwner, world.intact, me, i);
      Committed(world, t, w, me, world.intact);
      ResealStep(world, w, i, t);
    } else {
      assert Next(world, Reseal(w, i)) == world;
    }
  }

  lemma ResealStep(world: World, w: nat, i: nat, t: Store)
    requires w in world.workers && i < |world.store.groups| && world.workers[w].ready
    requires SealGroup(world.store, world.workers[w].fence, i) == Ok(t)
    ensures Next(world, Reseal(w, i)) == world || Next(world, Reseal(w, i)) == world.(store := t)
  {
  }

  lemma SkipKeepsInv(world: World, w: nat)
    requires Inv(world) && w in world.workers
    ensures Inv(Next(world, SkipSealed(w)))
  {
    var s, me := world.store, world.workers[w];
    if me.sealedUpTo < |s.groups| && me.sealedUpTo in s.sealed {
      SealedNext(s, world.baseline, world.nextToken, world.nextOwner, me);
      Learned(world, w, me.(sealedUpTo := me.sealedUpTo + 1));
    }
    SkipStep(world, w, me);
  }

  lemma SkipStep(world: World, w: nat, me: Worker)
    requires w in world.workers && me == world.workers[w]
    ensures Next(world, SkipSealed(w)) ==
      if me.sealedUpTo < |world.store.groups| && me.sealedUpTo in world.store.sealed
      then world.(workers := world.workers[w := me.(sealedUpTo := me.sealedUpTo + 1)]) else world
  {
  }

  lemma EnterRecord(s: Store, t: Store, f: Fence)
    requires EnterApply(s, f) == Ok(t)
    ensures SameDocs(s, t) && HoldsLease(s, f) && HoldsLease(t, f)
    ensures t.job.applied == s.job.applied || t.job.applied == s.fence.value.applied
    ensures t.fence.value.applied == s.fence.value.applied
    ensures t.fence.value.appliedSources == s.fence.value.appliedSources
    ensures t == s || (t.fence.value.phase == Apply && s.fence.value.applied == 0
                       && t.job == Job(Apply, t.fence.value.applied, t.fence.value.appliedSources))
  {
  }

  lemma EnterMoves(s: Store, t: Store, base: Library, nextToken: nat, nextOwner: nat, intact: bool, me: Worker)
    requires StoreInv(s, base, nextToken, nextOwner, intact) && WorkerInv(s, base, nextToken, nextOwner, me)
    requires me.verified && me.sealedUpTo == |s.groups| && EnterApply(s, me.fence) == Ok(t)
    ensures StoreInv(t, base, nextToken, nextOwner, intact) && Moves(s, t, nextToken, nextOwner)
    ensures Known(t, nextToken, nextOwner) && t.fence.Some?
    ensures WorkerInv(t, base, nextToken, nextOwner, me.(fence := t.fence.value, ready := true))
  {
    EnterRecord(s, t, me.fence);
    assert s.fence.value.phase != Rollback && EraOk(s, base);
    EnterFence(s, t, base, nextToken, nextOwner);
    DocumentsStand(s, t, base, nextToken, nextOwner, intact);
    WorkerAfterEnter(s, t, base, nextToken, nextOwner, me);
  }

  lemma EnterFence(s: Store, t: Store, base: Library, nextToken: nat, nextOwner: nat)
    requires JobInv(s) && FenceInv(s, base, nextToken, nextOwner) && EraOk(s, base)
    requires SameDocs(s, t) && s.fence.Some? && t.fence.Some? && s.fence.value.phase != Rollback
    requires HoldsLease(s, t.fence.value)
    requires t.fence.value.applied == s.fence.value.applied
    requires t.fence.value.appliedSources == s.fence.value.appliedSources
    requires t == s || (t.fence.value.phase == Apply && s.fence.value.applied == 0
                        && t.job == Job(Apply, t.fence.value.applied, t.fence.value.appliedSources))
    ensures JobInv(t) && FenceInv(t, base, nextToken, nextOwner)
    ensures Moves(s, t, nextToken, nextOwner) && Known(t, nextToken, nextOwner) && t.fence.value.phase != Rollback
  {
  }

  lemma WorkerAfterEnter(s: Store, t: Store, base: Library, nextToken: nat, nextOwner: nat, me: Worker)
    requires WorkerInv(s, base, nextToken, nextOwner, me) && me.verified && EraOk(s, base) && SameDocs(s, t)
    requires s.fence.Some? && t.fence.Some? && HoldsLease(s, me.fence) && HoldsLease(t, me.fence)
    requires s.fence.value.phase != Rollback && t.fence.value.phase != Rollback
    ensures WorkerInv(t, base, nextToken, nextOwner, me.(fence := t.fence.value, ready := true))
  {
  }

  lemma EnterStep(world: World, w: nat, t: Store)
    requires w in world.workers && t.fence.Some?
    requires var me := world.workers[w];
      me.verified && me.sealedUpTo >= |world.store.groups| && EnterApply(world.store, me.fence) == Ok(t)
    ensures Next(world, Enter(w))
         == CommittedWorld(world, t, w, world.workers[w].(fence := t.fence.value, ready := true))
  {
  }

  lemma EnterKeepsInv(world: World, w: nat)
    requires Inv(world) && w in world.workers
    ensures Inv(Next(world, Enter(w)))
  {
    var s, me := world.store, world.workers[w];
    if me.verified && me.sealedUpTo >= |s.groups| && EnterApply(s, me.fence).Ok? {
      var t := EnterApply(s, me.fence).value;
      EnterMoves(s, t, world.baseline, world.nextToken, world.nextOwner, world.intact, me);
      Committed(world, t, w, me.(fence := t.fence.value, ready := true), world.intact);
      EnterStep(world, w, t);
    }
  }

  // ----- applying -----

  /** A worker that may apply and still holds the lease relies on the manifest and the seals. */
  lemma ReadyHolder(s: Store, base: Library, nextToken: nat, nextOwner: nat, me: Worker)
    requires FenceInv(s, base, nextToken, nextOwner) && WorkerInv(s, base, nextToken, nextOwner, me)
    requires me.ready && HoldsLease(s, me.fence)
    ensures s.fence.value.phase != Rollback && EraOk(s, base)
    ensures Live(s.plans) == s.plans.Keys && Inside(s.library, s.groups, s.plans)
  {
  }

  lemma ApplyMoves(s: Store, t: Store, base: Library, nextToken: nat, nextOwner: nat, intact: bool, me: Worker, i: nat)
    requires StoreInv(s, base, nextToken, nextOwner, intact) && WorkerInv(s, base, nextToken, nextOwner, me)
    requires me.ready && i < |s.groups| && i !in s.applied && ApplyGroup(s, me.fence, i) == Ok(t)
    ensures StoreInv(t, base, nextToken, nextOwner, intact) && Moves(s, t, nextToken, nextOwner)
    ensures Known(t, nextToken, nextOwner) && t.fence.Some?
    ensures WorkerInv(t, base, nextToken, nextOwner, me.(fence := t.fence.value))
  {
    ApplyRecord(s, t, me.fence, i);
    ReadyHolder(s, base, nextToken, nextOwner, me);
    JobAfterApply(s, t, base, nextToken, nextOwner, me.fence, i);
    var after := ApplyFacts(s, t, base, me.fence, i);
    AppliedInv(s, t, base, nextToken, nextOwner, intact, i, after);
    WorkerAfterApply(s, t, base, nextToken, nextOwner, me);
  }

  lemma JobAfterApply(s: Store, t: Store, base: Library, nextToken: nat, nextOwner: nat, f: Fence, i: nat)
    requires FenceInv(s, base, nextToken, nextOwner)
    requires i < |s.groups| && i !in s.applied && ApplyGroup(s, f, i) == Ok(t)
    ensures t.job == Job(Apply, s.job.applied + 1, s.job.appliedSources + |s.groups[i].sources|)
  {
    ApplyRecord(s, t, f, i);
  }

  /** What an apply keeps, from what it has established and written. */
  lemma AppliedInv(s: Store, t: Store, base: Library, nextToken: nat, nextOwner: nat, intact: bool, i: nat,
                   after: Patch)
    requires DocInv(s, base) && JobInv(s) && FenceInv(s, base, nextToken, nextOwner)
    requires EraOk(s, base) && Inside(s.library, s.groups, s.plans) && Live(s.plans) == s.plans.Keys
    requires i < |s.groups| && i !in s.applied && i in s.sealed
    requires AppliedTo(s, i, after, t) && AfterShape(s.groups[i], after)
    requires Clean(s.groups, i) && FoundBy(base, s.groups[i], s.sealed[i])
    requires s.fence.Some? && t.fence.Some? && HoldsLease(s, t.fence.value) && s.fence.value.phase != Rollback
    requires t.fence.value.phase == Apply
    requires t.fence.value.applied == t.job.applied && t.fence.value.appliedSources == t.job.appliedSources
    requires t.job == Job(Apply, s.job.applied + 1, s.job.appliedSources + |s.groups[i].sources|)
    ensures StoreInv(t, base, nextToken, nextOwner, intact) && Moves(s, t, nextToken, nextOwner)
    ensures Known(t, nextToken, nextOwner)
  {
    ApplyKeepsParts(s, t, base, i, after);
    ApplyStoreInv(s, t, base, nextToken, nextOwner, intact);
  }

  /** What an apply transaction has established by the time it writes. */
  lemma ApplyFacts(s: Store, t: Store, base: Library, f: Fence, i: nat) returns (after: Patch)
    requires DocInv(s, base) && EraOk(s, base) && Inside(s.library, s.groups, s.plans)
    requires Live(s.plans) == s.plans.Keys
    requires i < |s.groups| && i !in s.applied && ApplyGroup(s, f, i) == Ok(t)
    ensures i in s.sealed && AppliedTo(s, i, after, t) && AfterShape(s.groups[i], after)
    ensures Clean(s.groups, i) && FoundBy(base, s.groups[i], s.sealed[i])
  {
    after := ApplyDocs(s, f, i);
    ApplyIsClean(s, base, f, i);
    ApplyFoundBaseline(s, base, f, i);
  }

  /** The documents and the counters after an apply. */
  lemma ApplyKeepsParts(s: Store, t: Store, base: Library, i: nat, after: Patch)
    requires DocInv(s, base) && JobInv(s) && EraOk(s, base) && Inside(s.library, s.groups, s.plans)
    requires Live(s.plans) == s.plans.Keys && i < |s.groups| && i !in s.applied
    requires i in s.sealed && AppliedTo(s, i, after, t) && AfterShape(s.groups[i], after)
    requires Clean(s.groups, i) && FoundBy(base, s.groups[i], s.sealed[i])
    requires t.job == Job(Apply, s.job.applied + 1, s.job.appliedSources + |s.groups[i].sources|) && t.fence.Some?
    ensures DocInv(t, base) && Inside(t.library, t.groups, t.plans) && Live(t.plans) == t.plans.Keys
    ensures EraOk(t, base) && JobInv(t)
  {
    ApplyKeys(s, i, after, t);
    ApplyAssembles(s, base, i, after, t);
    ApplyCounts(s, t, i);
  }

  lemma ApplyRecord(s: Store, t: Store, f: Fence, i: nat)
    requires i < |s.groups| && i !in s.applied && ApplyGroup(s, f, i) == Ok(t)
    ensures HoldsLease(s, f) && HoldsLease(t, f) && t.groups == s.groups && t.sealed == s.sealed
    ensures t.fence.value.phase == Apply
    ensures t.fence.value.applied == s.fence.value.applied + 1
    ensures t.fence.value.appliedSources == s.fence.value.appliedSources + |s.groups[i].sources|
    ensures t.job == Job(Apply, t.fence.value.applied, t.fence.value.appliedSources)
  {
  }

  lemma ApplyStoreInv(s: Store, t: Store, base: Library, nextToken: nat, nextOwner: nat, intact: bool)
    requires FenceInv(s, base, nextToken, nextOwner) && s.fence.Some? && s.fence.value.phase != Rollback
    requires t.fence.Some? && t.fence.value.phase == Apply && HoldsLease(s, t.fence.value)
    requires t.fence.value.applied == t.job.applied && t.fence.value.appliedSources == t.job.appliedSources
    requires t.groups == s.groups && t.sealed == s.sealed
    requires DocInv(t, base) && JobInv(t) && Inside(t.library, t.groups, t.plans)
    requires Live(t.plans) == t.plans.Keys && EraOk(t, base)
    ensures StoreInv(t, base, nextToken, nextOwner, intact) && Moves(s, t, nextToken, nextOwner)
    ensures Known(t, nextToken, nextOwner)
  {
  }

  lemma ApplyCounts(s: Store, t: Store, i: nat)
    requires JobInv(s) && i < |s.groups| && i !in s.plans && t.fence.Some?
    requires t.groups == s.groups && t.plans.Keys == s.plans.Keys + {i}
    requires t.job == Job(Apply, s.job.applied + 1, s.job.appliedSources + |s.groups[i].sources|)
    ensures JobInv(t)
  {
    TallyAdd(s.groups, s.plans.Keys, i, |s.groups|);
    forall k | k in t.plans ensures k < |t.groups| { assert k in t.plans.Keys; }
  }

  lemma WorkerAfterApply(s: Store, t: Store, base: Library, nextToken: nat, nextOwner: nat, me: Worker)
    requires WorkerInv(s, base, nextToken, nextOwner, me) && me.ready && s.fence.Some? && t.fence.Some?
    requires HoldsLease(s, me.fence) && HoldsLease(t, me.fence) && t.groups == s.groups && t.sealed == s.sealed
    requires s.fence.value.phase != Rollback && t.fence.value.phase != Rollback
    ensures WorkerInv(t, base, nextToken, nextOwner, me.(fence := t.fence.value))
  {
  }

  lemma ApplyKeepsInv(world: World, w: nat, i: nat)
    requires Inv(world) && w in world.workers
    ensures Inv(Next(world, ApplyOne(w, i)))
  {
    var s, me := world.store, world.workers[w];
    if me.ready && i < |s.groups| && ApplyGroup(s, me.fence, i).Ok? {
      var t := ApplyGroup(s, me.fence, i).value;
      if i in s.applied {
        FollowerInv(s, world.baseline, world.nextToken, world.nextOwner, me);
      } else {
        ApplyMoves(s, t, world.baseline, world.nextToken, world.nextOwner, world.intact, me, i);
      }
      Committed(world, t, w, me.(fence := t.fence.value), world.intact);
      ApplyStep(world, w, i, t);
    }
  }

  lemma ApplyStep(world: World, w: nat, i: nat, t: Store)
    requires w in world.workers && world.workers[w].ready && i < |world.store.groups| && t.fence.Some?
    requires ApplyGroup(world.store, world.workers[w].fence, i) == Ok(t)
    ensures Next(world, ApplyOne(w, i)) == CommittedWorld(world, t, w, world.workers[w].(fence := t.fence.value))
  {
    ApplyFollows(world, w, i);
    FollowCommits(world, w, t);
  }

  lemma ApplyFollows(world: World, w: nat, i: nat)
    requires w in world.workers && world.workers[w].ready && i < |world.store.groups|
    ensures Next(world, ApplyOne(w, i)) == Follow(world, w, ApplyGroup(world.store, world.workers[w].fence, i))
  {
    NextIsWorkerStep(world, ApplyOne(w, i));
  }

  lemma NextIsWorkerStep(world: World, step: Step)
    requires !step.OwnerWrite? && !step.Abort? && !step.BeginApply? && !step.BeginRollback?
    requires step.w in world.workers
    ensures Next(world, step) == WorkerStep(world, step, step.w)
  {
  }

  lemma FollowCommits(world: World, w: nat, t: Store)
    requires w in world.workers && t.fence.Some?
    ensures Follow(world, w, Ok(t)) == CommittedWorld(world, t, w, world.workers[w].(fence := t.fence.value))
  {
  }

  // ----- rolling back -----

  lemma PreflightKeepsInv(world: World, w: nat)
    requires Inv(world) && w in world.workers
    ensures Inv(Next(world, Preflight(w)))
  {
    var s, me := world.store, world.workers[w];
    if me.rollback && HoldsLease(s, me.fence) && PreflightPasses(s, me.fence.applied) {
      PreflightFindsIntact(s, world.baseline, me.fence.applied);
    }
  }

  /** What a rollback transaction does to the fence and the counters. */
  lemma RollbackRecord(s: Store, t: Store, f: Fence, i: nat)
    requires i < |s.groups| && RollbackGroup(s, f, i) == Ok(t)
    ensures HoldsLease(s, f) && HoldsLease(t, f) && t.groups == s.groups && t.sealed == s.sealed && t.job == s.job
    ensures t.fence.value.applied == s.fence.value.applied
    ensures t.fence.value.appliedSources == s.fence.value.appliedSources
    ensures i in s.plans && (s.plans[i].rolledBack ==> t == s)
    ensures !s.plans[i].rolledBack ==> t.fence.value.phase == Rollback
  {
  }

  lemma RollbackMoves(s: Store, t: Store, base: Library, nextToken: nat, nextOwner: nat, intact: bool, me: Worker,
                      i: nat)
    requires StoreInv(s, base, nextToken, nextOwner, intact) && WorkerInv(s, base, nextToken, nextOwner, me)
    requires me.preflighted && i < |s.groups| && RollbackGroup(s, me.fence, i) == Ok(t)
    ensures StoreInv(t, base, nextToken, nextOwner, intact) && Moves(s, t, nextToken, nextOwner)
    ensures Known(t, nextToken, nextOwner) && t.fence.Some?
    ensures WorkerInv(t, base, nextToken, nextOwner, me.(fence := t.fence.value, todo := me.todo - {i}))
  {
    RollbackRecord(s, t, me.fence, i);
    PreflightedHolder(s, base, nextToken, nextOwner, me);
    RollbackFacts(s, t, base, me.fence, i);
    RolledBackInv(s, t, base, nextToken, nextOwner, intact, i);
    WorkerAfterRollback(s, t, base, nextToken, nextOwner, me, i);
  }

  /** What a rollback transaction does to the documents and the plans. */
  lemma RollbackFacts(s: Store, t: Store, base: Library, f: Fence, i: nat)
    requires DocInv(s, base) && i < |s.groups| && RollbackGroup(s, f, i) == Ok(t)
    ensures DocInv(t, base) && (Inside(s.library, s.groups, s.plans) ==> Inside(t.library, t.groups, t.plans))
    ensures t.plans.Keys == s.plans.Keys && Live(t.plans) == Live(s.plans) - {i}
  {
    if i in Live(s.plans) {
      RollbackDocs(s, f, i);
      RollbackKeepsDocs(s, base, i, t);
    } else {
      RollbackRecord(s, t, f, i);
      NotAmong(Live(s.plans), i);
    }
  }

  lemma NotAmong(live: set<nat>, i: nat)
    requires i !in live
    ensures live - {i} == live
  {
  }

  lemma PreflightedHolder(s: Store, base: Library, nextToken: nat, nextOwner: nat, me: Worker)
    requires WorkerInv(s, base, nextToken, nextOwner, me) && me.preflighted && HoldsLease(s, me.fence)
    ensures s.fence.value.phase == Rollback && Live(s.plans) <= me.todo
  {
  }

  lemma RolledBackInv(s: Store, t: Store, base: Library, nextToken: nat, nextOwner: nat, intact: bool, i: nat)
    requires JobInv(s) && FenceInv(s, base, nextToken, nextOwner)
    requires DocInv(t, base) && (intact ==> Inside(t.library, t.groups, t.plans))
    requires t.plans.Keys == s.plans.Keys && Live(t.plans) == Live(s.plans) - {i}
    requires t.groups == s.groups && t.sealed == s.sealed && t.job == s.job
    requires s.fence.Some? && t.fence.Some? && HoldsLease(s, t.fence.value)
    requires s.fence.value.phase == Rollback && t.fence.value.phase == Rollback
    requires t.fence.value.applied == s.fence.value.applied
    requires t.fence.value.appliedSources == s.fence.value.appliedSources
    ensures StoreInv(t, base, nextToken, nextOwner, intact) && Moves(s, t, nextToken, nextOwner)
    ensures Known(t, nextToken, nextOwner)
  {
    forall k | k in t.plans ensures k < |t.groups| { assert k in t.plans.Keys; }
    if s.job.phase == Discovered { assert s.plans.Keys == {}; }
  }

  lemma WorkerAfterRollback(s: Store, t: Store, base: Library, nextToken: nat, nextOwner: nat, me: Worker, i: nat)
    requires WorkerInv(s, base, nextToken, nextOwner, me) && me.preflighted
    requires HoldsLease(s, me.fence) && HoldsLease(t, me.fence) && t.groups == s.groups && t.sealed == s.sealed
    requires t.fence.value.phase == Rollback && Live(t.plans) == Live(s.plans) - {i} && Live(s.plans) <= me.todo
    ensures WorkerInv(t, base, nextToken, nextOwner, me.(fence := t.fence.value, todo := me.todo - {i}))
  {
  }

  lemma RollbackKeepsInv(world: World, w: nat, i: nat)
    requires Inv(world) && w in world.workers
    ensures Inv(Next(world, RollbackOne(w, i)))
  {
    var s, me := world.store, world.workers[w];
    if me.preflighted && i < |s.groups| && RollbackGroup(s, me.fence, i).Ok? {
      var t := RollbackGroup(s, me.fence, i).value;
      RollbackMoves(s, t, world.baseline, world.nextToken, world.nextOwner, world.intact, me, i);
      var me' := me.(fence := t.fence.value, todo := me.todo - {i});
      Committed(world, t, w, me', world.intact);
      RollbackStep(world, w, i, t);
    }
  }

  lemma RollbackStep(world: World, w: nat, i: nat, t: Store)
    requires w in world.workers && world.workers[w].preflighted && i < |world.store.groups| && t.fence.Some?
    requires RollbackGroup(world.store, world.workers[w].fence, i) == Ok(t)
    ensures var me := world.workers[w];
      Next(world, RollbackOne(w, i)) == CommittedWorld(world, t, w, me.(fence := t.fence.value, todo := me.todo - {i}))
  {
  }

  // ----- the owner -----

  lemma OwnerWriteKeepsInv(world: World, library: Library)
    requires Inv(world)
    ensures Inv(Next(world, OwnerWrite(library)))
  {
    var s := world.store;
    if s.fence.None? && OwnerMayWrite(s.library, library) {
      OwnerWriteKeepsDocs(world, library);
      var t, base' := s.(library := library), Rebase(world, library);
      forall v | v in world.workers
        ensures WorkerInv(t, base', world.nextToken, world.nextOwner, world.workers[v])
      {
        assert WorkerInv(s, world.baseline, world.nextToken, world.nextOwner, world.workers[v]);
      }
    }
  }

  // ----- every step, every run -----

  lemma NextKeepsInv(world: World, step: Step)
    requires Inv(world)
    ensures Inv(Next(world, step))
  {
    if step.BeginApply? || step.BeginRollback? {
      BeginStepKeepsInv(world, step);
    } else if step.OwnerWrite? {
      OwnerWriteKeepsInv(world, step.library);
    } else if step.Abort? {
      AbortKeepsInv(world);
    } else if step.w in world.workers {
      WorkerStepKeepsInv(world, step);
    } else {
      NobodySteps(world, step);
    }
  }

  lemma NobodySteps(world: World, step: Step)
    requires !step.OwnerWrite? && !step.Abort? && !step.BeginApply? && !step.BeginRollback?
    requires step.w !in world.workers
    ensures Next(world, step) == world
  {
  }

  lemma BeginStepKeepsInv(world: World, step: Step)
    requires Inv(world) && (step.BeginApply? || step.BeginRollback?)
    ensures Inv(Next(world, step))
  {
    match step
    case BeginApply(w, owner, leaseLive, now) =>
      BeginKeepsInv(world, w, if owner.Some? then Operator(owner.value) else Minted(world.nextOwner), false,
                    leaseLive, now);
    case BeginRollback(w, leaseLive, now) =>
      if world.store.root.Some? { BeginKeepsInv(world, w, Minted(world.nextOwner), true, leaseLive, now); }
  }

  lemma WorkerStepKeepsInv(world: World, step: Step)
    requires Inv(world)
    requires !step.OwnerWrite? && !step.Abort? && !step.BeginApply? && !step.BeginRollback?
    requires step.w in world.workers
    ensures Inv(Next(world, step))
  {
    if Preparing(step) {
      PreparingStepKeepsInv(world, step);
    } else if step.ApplyOne? || step.RollbackOne? || step.Enter? {
      MovingStepKeepsInv(world, step);
    } else {
      HoldingStepKeepsInv(world, step);
    }
  }

  predicate Preparing(step: Step) {
    || step.ReadPage? || step.VerifyManifest? || step.Backup? || step.Seal? || step.SkipSealed? || step.Reseal?
    || step.Preflight?
  }

  lemma PreparingStepKeepsInv(world: World, step: Step)
    requires Inv(world) && Preparing(step) && step.w in world.workers
    ensures Inv(Next(world, step))
  {
    match step
    case ReadPage(w, ids) => ReadKeepsInv(world, w, ids);
    case VerifyManifest(w) => VerifyKeepsInv(world, w);
    case Backup(w) => BackupKeepsInv(world, w);
    case Seal(w) => SealKeepsInv(world, w);
    case SkipSealed(w) => SkipKeepsInv(world, w);
    case Reseal(w, i) => ResealKeepsInv(world, w, i);
    case Preflight(w) => PreflightKeepsInv(world, w);
  }

  lemma MovingStepKeepsInv(world: World, step: Step)
    requires Inv(world) && (step.ApplyOne? || step.RollbackOne? || step.Enter?) && step.w in world.workers
    ensures Inv(Next(world, step))
  {
    match step
    case ApplyOne(w, i) => ApplyKeepsInv(world, w, i);
    case RollbackOne(w, i) => RollbackKeepsInv(world, w, i);
    case Enter(w) => EnterKeepsInv(world, w);
  }

  lemma HoldingStepKeepsInv(world: World, step: Step)
    requires step.Renew? || step.Root? || step.Finalize? || step.ClearFence? || step.Finish? || step.Crash?
    requires Inv(world) && step.w in world.workers
    ensures Inv(Next(world, step))
  {
    match step
    case Renew(w) => RenewKeepsInv(world, w);
    case Root(w) => RootKeepsInv(world, w);
    case Finalize(w) => EndingStepKeepsInv(world, w, step);
    case ClearFence(w) => EndingStepKeepsInv(world, w, step);
    case Finish(w) => EndingStepKeepsInv(world, w, step);
    case Crash(w) => CrashKeepsInv(world, w);
  }

  lemma CrashKeepsInv(world: World, w: nat)
    requires Inv(world) && w in world.workers
    ensures Inv(Next(world, Crash(w)))
  {
  }

  lemma {:induction false} RunKeepsInv(world: World, steps: seq<Step>)
    requires Inv(world)
    ensures Inv(Run(world, steps))
    decreases |steps|
  {
    if steps != [] {
      NextKeepsInv(world, steps[0]);
      RunKeepsInv(Next(world, steps[0]), steps[1..]);
    }
  }
}
