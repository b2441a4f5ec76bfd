/**
 What the migration promises over every run that starts from a discovered library: rollback is an
 exact inverse of any partial apply, in any order and across any crashes; the counters are true;
 each group is applied at most once and applied groups never overlap.
 */
module LibraryMigrationTheorems {
  import opened Prelude
  import opened DuplicateCleanup
  import opened LibraryMigration
  import opened LibraryMigrationRuns
  import opened LibraryMigrationProof
  import opened LibraryMigrationSafety

  predicate NoOwnerWrites(steps: seq<Step>) {
    forall k :: 0 <= k < |steps| ==> !steps[k].OwnerWrite?
  }

  lemma InitialRunInv(world: World, steps: seq<Step>)
    requires Initial(world)
    ensures Inv(Run(world, steps))
  {
    InitialInv(world);
    RunKeepsInv(world, steps);
  }

  // ----- counters and footprints -----

  /** At every moment of every run the fence counts exactly the applied groups and their sources, and
      any two applied groups have nothing in common. */
  lemma CountersAndFootprints(world: World, steps: seq<Step>)
    requires Initial(world)
    ensures var s := Run(world, steps).store;
      && (s.fence.Some? ==>
            (s.fence.value.applied, s.fence.value.appliedSources) == Tally(s.groups, s.applied, |s.groups|))
      && (forall i: nat, j: nat :: i in s.applied && j in s.applied && i != j ==>
            i < |s.groups| && j < |s.groups| && Footprint(s.groups[i]) !! Footprint(s.groups[j]))
  {
    InitialRunInv(world, steps);
    var s, base := Run(world, steps).store, Run(world, steps).baseline;
    forall i: nat, j: nat | i in s.applied && j in s.applied && i != j
      ensures i < |s.groups| && j < |s.groups| && Footprint(s.groups[i]) !! Footprint(s.groups[j])
    {
      assert PlanOk(s.groups, s.backups, base, i, s.plans[i]) && PlanOk(s.groups, s.backups, base, j, s.plans[j]);
      FootprintsApart(s.groups, i, j);
    }
  }

  lemma FootprintsApart(groups: seq<Group>, i: nat, j: nat)
    requires WellKeyed(groups) && DisjointSources(groups)
    requires i < |groups| && j < |groups| && i != j && Clean(groups, i) && Clean(groups, j)
    ensures Footprint(groups[i]) !! Footprint(groups[j])
  {
    forall id | id in Footprint(groups[i]) ensures id !in Footprint(groups[j]) {
      PathsDisjoint(groups, i, j, CardPath(id));
    }
  }

  ghost predicate PlansPersist(before: map<nat, PlanDoc>, after: map<nat, PlanDoc>) {
    forall i: nat :: i in before ==>
      && i in after
      && after[i].sealed == before[i].sealed && after[i].after == before[i].after
      && (before[i].rolledBack ==> after[i].rolledBack)
  }

  /** A group is applied at most once, and rolled back at most once: its plan never changes again. */
  lemma NextKeepsPlans(world: World, step: Step)
    requires Inv(world)
    ensures PlansPersist(world.store.plans, Next(world, step).store.plans)
    ensures Next(world, step).store.groups == world.store.groups
  {
    StepKeepsPlans(world, step);
  }

  lemma StepKeepsPlans(world: World, step: Step)
    requires world.store.applied == world.store.plans.Keys
    ensures PlansPersist(world.store.plans, Next(world, step).store.plans)
    ensures Next(world, step).store.groups == world.store.groups
  {
    match step
    case ApplyOne(w, i) => ApplyStepKeepsPlans(world, w, i);
    case RollbackOne(w, i) => RollbackStepKeepsPlans(world, w, i);
    case BeginApply(w, owner, leaseLive, now) => BeginStepsKeepPlans(world, step);
    case BeginRollback(w, leaseLive, now) => BeginStepsKeepPlans(world, step);
    case Renew(w) => FenceStepsKeepPlans(world, step);
    case Root(w) => FenceStepsKeepPlans(world, step);
    case Enter(w) => FenceStepsKeepPlans(world, step);
    case Finalize(w) => FenceStepsKeepPlans(world, step);
    case ClearFence(w) => FenceStepsKeepPlans(world, step);
    case Finish(w) => FenceStepsKeepPlans(world, step);
    case _ => PreparingStepsKeepPlans(world, step);
  }

  lemma BeginStepsKeepPlans(world: World, step: Step)
    requires step.BeginApply? || step.BeginRollback?
    ensures SamePlans(world.store, Next(world, step).store)
  {
    match step
    case BeginApply(w, owner, leaseLive, now) =>
      BeginKeepsPlans(world, w, if owner.Some? then Operator(owner.value) else Minted(world.nextOwner), false,
                      leaseLive, now);
    case BeginRollback(w, leaseLive, now) =>
      BeginKeepsPlans(world, w, Minted(world.nextOwner), true, leaseLive, now);
  }

  lemma ApplyStepKeepsPlans(world: World, w: nat, i: nat)
    requires world.store.applied == world.store.plans.Keys
    ensures PlansPersist(world.store.plans, Next(world, ApplyOne(w, i)).store.plans)
    ensures Next(world, ApplyOne(w, i)).store.groups == world.store.groups
  {
    if w in world.workers && i < |world.store.groups| && ApplyGroup(world.store, world.workers[w].fence, i).Ok? {
      ApplyKeepsPlans(world.store, world.workers[w].fence, i);
    }
  }

  lemma RollbackStepKeepsPlans(world: World, w: nat, i: nat)
    ensures PlansPersist(world.store.plans, Next(world, RollbackOne(w, i)).store.plans)
    ensures Next(world, RollbackOne(w, i)).store.groups == world.store.groups
  {
    if w in world.workers && i < |world.store.groups| && RollbackGroup(world.store, world.workers[w].fence, i).Ok? {
      RollbackKeepsPlans(world.store, world.workers[w].fence, i);
    }
  }

  lemma ApplyKeepsPlans(s: Store, f: Fence, i: nat)
    requires i < |s.groups| && s.applied == s.plans.Keys && ApplyGroup(s, f, i).Ok?
    ensures ApplyGroup(s, f, i).value.groups == s.groups
    ensures PlansPersist(s.plans, ApplyGroup(s, f, i).value.plans)
  {
  }

  lemma RollbackKeepsPlans(s: Store, f: Fence, i: nat)
    requires i < |s.groups| && RollbackGroup(s, f, i).Ok?
    ensures RollbackGroup(s, f, i).value.groups == s.groups
    ensures PlansPersist(s.plans, RollbackGroup(s, f, i).value.plans)
  {
  }

  ghost predicate SamePlans(s: Store, t: Store) {
    t.plans == s.plans && t.groups == s.groups
  }

  lemma BeginKeepsPlans(world: World, w: nat, owner: Owner, rollback: bool, leaseLive: bool, now: nat)
    ensures SamePlans(world.store, Begin(world, w, owner, rollback, leaseLive, now).store)
  {
  }

  lemma FenceStepsKeepPlans(world: World, step: Step)
    requires step.Renew? || step.Root? || step.Enter? || step.Finalize? || step.ClearFence? || step.Finish?
    ensures SamePlans(world.store, Next(world, step).store)
  {
    if step.w in world.workers {
      if step.Finalize? || step.ClearFence? || step.Finish? {
        EndingStep(world, step.w, step);
        EndingKeepsPlans(world.store, world.workers[step.w], step);
      } else {
        HoldingKeepsPlans(world, step);
      }
    }
  }

  lemma EndingKeepsPlans(s: Store, me: Worker, step: Step)
    requires step.Finalize? || step.ClearFence? || step.Finish?
    ensures SamePlans(s, EndedStore(s, me, step))
  {
  }

  lemma HoldingKeepsPlans(world: World, step: Step)
    requires step.Renew? || step.Root? || step.Enter?
    ensures SamePlans(world.store, Next(world, step).store)
  {
  }

  lemma PreparingStepsKeepPlans(world: World, step: Step)
    requires step.ReadPage? || step.VerifyManifest? || step.Backup? || step.Seal? || step.SkipSealed? || step.Reseal?
          || step.Preflight? || step.Crash? || step.Abort? || step.OwnerWrite?
    ensures SamePlans(world.store, Next(world, step).store)
  {
    if step.Backup? || step.Seal? || step.Reseal? || step.Abort? { StoringStepsKeepPlans(world, step); }
  }

  lemma StoringStepsKeepPlans(world: World, step: Step)
    requires step.Backup? || step.Seal? || step.Reseal? || step.Abort?
    ensures SamePlans(world.store, Next(world, step).store)
  {
  }

  lemma {:induction false} RunKeepsPlans(world: World, steps: seq<Step>)
    requires Inv(world)
    ensures PlansPersist(world.store.plans, Run(world, steps).store.plans)
    ensures Run(world, steps).store.groups == world.store.groups
    decreases |steps|
  {
    if steps != [] {
      NextKeepsPlans(world, steps[0]);
      NextKeepsInv(world, steps[0]);
      RunKeepsPlans(Next(world, steps[0]), steps[1..]);
    }
  }

  // ----- completion -----

  lemma {:induction false} FullTally(groups: seq<Group>, marked: set<nat>, n: nat, i: nat)
    requires n <= |groups|
    ensures Tally(groups, marked, n).0 <= n
    ensures Tally(groups, marked, n).0 == n && i < n ==> i in marked
  {
    if n > 0 { FullTally(groups, marked, n - 1, i); }
  }

  ghost predicate Outranks(library: Library, g: Group) {
    var doc := Lookup(library, CardPath(CanonicalOf(g)));
    doc.Some? && doc.value.CardDoc? && forall t :: t in g.sources ==> t.card.revision < doc.value.card.revision
  }

  /** The library holds what a live group recorded, path by path. */
  lemma InsideAt(library: Library, groups: seq<Group>, plans: map<nat, PlanDoc>, i: nat, p: Path)
    requires Inside(library, groups, plans) && i in Live(plans) && i < |groups| && Touches(groups[i], p)
    ensures p in plans[i].after && Lookup(library, p) == plans[i].after[p]
  {
  }

  lemma LoserIsAbsent(g: Group, after: Patch, library: Library, id: CardId)
    requires AfterShape(g, after) && id in SourceIds(g) && id != CanonicalOf(g)
    requires CardPath(id) in after && Lookup(library, CardPath(id)) == after[CardPath(id)]
    ensures CardPath(id) !in library
  {
  }

  lemma CanonicalOutranks(g: Group, after: Patch, library: Library)
    requires AfterShape(g, after) && CardPath(CanonicalOf(g)) in after
    requires Lookup(library, CardPath(CanonicalOf(g))) == after[CardPath(CanonicalOf(g))]
    ensures Outranks(library, g)
  {
  }

  lemma AppliedLooksMerged(s: Store, base: Library, i: nat)
    requires DocInv(s, base) && Inside(s.library, s.groups, s.plans) && i in Live(s.plans) && i < |s.groups|
    ensures LosersAbsent(s, i) && Outranks(s.library, s.groups[i])
  {
    assert PlanOk(s.groups, s.backups, base, i, s.plans[i]);
    GroupLooksMerged(s.library, s.groups, s.plans, i);
  }

  lemma GroupLooksMerged(library: Library, groups: seq<Group>, plans: map<nat, PlanDoc>, i: nat)
    requires Inside(library, groups, plans) && i in Live(plans) && i < |groups|
    requires AfterShape(groups[i], plans[i].after)
    ensures forall id :: id in SourceIds(groups[i]) && id != CanonicalOf(groups[i]) ==> CardPath(id) !in library
    ensures Outranks(library, groups[i])
  {
    var g, after := groups[i], plans[i].after;
    forall id | id in SourceIds(g) && id != CanonicalOf(g) ensures CardPath(id) !in library {
      InsideAt(library, groups, plans, i, CardPath(id));
      LoserIsAbsent(g, after, library, id);
    }
    InsideAt(library, groups, plans, i, CardPath(CanonicalOf(g)));
    CanonicalOutranks(g, after, library);
  }

  /** A fence with all its groups counted has every group applied and merged. */
  lemma FullFenceMerged(s: Store, base: Library, i: nat)
    requires DocInv(s, base) && JobInv(s) && Inside(s.library, s.groups, s.plans) && Live(s.plans) == s.plans.Keys
    requires s.job.applied == |s.groups| && i < |s.groups|
    ensures i in s.applied && LosersAbsent(s, i) && Outranks(s.library, s.groups[i])
  {
    FullTally(s.groups, s.plans.Keys, |s.groups|, i);
    AppliedLooksMerged(s, base, i);
  }

  /** Whatever came before, a finalize step that does anything leaves every group merged: all its losers
      are gone, and its canonical card outranks every card it replaces. */
  lemma FinalizeMergedEverything(world: World, steps: seq<Step>, w: nat, i: nat)
    requires Initial(world)
    requires var before := Run(world, steps); Next(before, Finalize(w)).store != before.store
    requires i < |Run(world, steps).store.groups|
    ensures var after := Next(Run(world, steps), Finalize(w)).store;
      && after.job.phase == Complete && after.fence.None? && i < |after.groups|
      && i in after.applied && LosersAbsent(after, i) && Outranks(after.library, after.groups[i])
  {
    InitialRunInv(world, steps);
    var before := Run(world, steps);
    assert w in before.workers;
    EndingStep(before, w, Finalize(w));
    FinalizeFacts(before.store, before.baseline, before.nextToken, before.nextOwner, before.workers[w]);
    FullFenceMerged(before.store, before.baseline, i);
  }

  /** The worker that finalizes began for an apply, and the fence is still of its era. */
  lemma FinalizeFacts(s: Store, base: Library, nextToken: nat, nextOwner: nat, me: Worker)
    requires FenceInv(s, base, nextToken, nextOwner) && WorkerInv(s, base, nextToken, nextOwner, me)
    requires me.ready && FinalizeMigration(s, me.fence).Ok?
    ensures s.job.applied == |s.groups| && Live(s.plans) == s.plans.Keys && Inside(s.library, s.groups, s.plans)
    ensures SameDocs(s, FinalizeMigration(s, me.fence).value)
    ensures FinalizeMigration(s, me.fence).value.job.phase == Complete
    ensures FinalizeMigration(s, me.fence).value.fence.None?
  {
    ReadyHolder(s, base, nextToken, nextOwner, me);
  }

  /** A job is in a working phase only while its fence stands, so no fence is ever taken over a
      half-finished phase. */
  lemma PhaseNeedsFence(world: World, steps: seq<Step>)
    requires Initial(world)
    ensures var s := Run(world, steps).store;
      s.fence.None? ==> s.job.phase != Verify && s.job.phase != Apply && s.job.phase != Rollback
  {
    InitialRunInv(world, steps);
  }

  // ----- rollback inverts apply -----

  lemma NextKeepsBaseline(world: World, step: Step)
    requires !step.OwnerWrite?
    ensures Next(world, step).baseline == world.baseline
    ensures world.intact ==> Next(world, step).intact
  {
  }

  lemma {:induction false} RunKeepsBaseline(world: World, steps: seq<Step>)
    requires NoOwnerWrites(steps)
    ensures Run(world, steps).baseline == world.baseline
    ensures world.intact ==> Run(world, steps).intact
    decreases |steps|
  {
    if steps != [] {
      NextKeepsBaseline(world, steps[0]);
      RunKeepsBaseline(Next(world, steps[0]), steps[1..]);
    }
  }

  /** With every plan rolled back, the library is the baseline. */
  lemma NothingLive(s: Store, base: Library)
    requires DocInv(s, base) && Live(s.plans) == {}
    ensures s.library == base
  {
    forall p ensures Lookup(s.library, p) == Lookup(base, p) {
      assert !InLiveGroup(s.groups, s.plans, p);
    }
    SameLookups(s.library, base);
  }

  /** The main theorem.  Apply any groups, crash, take over, roll back in any order: once nothing is
      left applied, every card, tombstone and reservation is what it was. */
  lemma RollbackInvertsApply(world: World, steps: seq<Step>)
    requires Initial(world) && NoOwnerWrites(steps)
    requires Live(Run(world, steps).store.plans) == {}
    ensures Run(world, steps).store.library == world.store.library
  {
    InitialRunInv(world, steps);
    RunKeepsBaseline(world, steps);
    NothingLive(Run(world, steps).store, Run(world, steps).baseline);
  }

  /** A job that reports itself rolled back has restored the library. */
  lemma RolledBackJobRestored(world: World, steps: seq<Step>)
    requires Initial(world) && NoOwnerWrites(steps)
    requires Run(world, steps).store.job.phase == RolledBack
    ensures Run(world, steps).store.library == world.store.library
  {
    InitialRunInv(world, steps);
    RollbackInvertsApply(world, steps);
  }

  /** Part-way through, whatever lies outside the groups still applied is already as it was. */
  lemma PartialRollbackRestored(world: World, steps: seq<Step>, p: Path)
    requires Initial(world) && NoOwnerWrites(steps)
    requires var s := Run(world, steps).store; !InLiveGroup(s.groups, s.plans, p)
    ensures Lookup(Run(world, steps).store.library, p) == Lookup(world.store.library, p)
  {
    InitialRunInv(world, steps);
    RunKeepsBaseline(world, steps);
  }

  /** If the owner kept working between the migration and its rollback, rolling back gives the
      owner's library: the writes outside the applied groups stand, those groups are restored. */
  lemma RollbackKeepsOwnersWork(world: World, steps: seq<Step>)
    requires Initial(world) && Live(Run(world, steps).store.plans) == {}
    ensures Run(world, steps).store.library == Run(world, steps).baseline
  {
    InitialRunInv(world, steps);
    NothingLive(Run(world, steps).store, Run(world, steps).baseline);
  }

  // ----- rollback is never blocked -----

  ghost predicate InStep(s: Store, f: Fence) {
    s.fence == Some(f) && s.root == Some(Stamp(f))
  }

  lemma RecordedStateStands(s: Store, base: Library, i: nat)
    requires DocInv(s, base) && Inside(s.library, s.groups, s.plans) && i in Live(s.plans)
    ensures i < |s.groups| && AfterStateMatches(s, i)
  {
    assert PlanOk(s.groups, s.backups, base, i, s.plans[i]);
    forall p | p in Paths(s.groups[i])
      ensures p in s.plans[i].after && Lookup(s.library, p) == s.plans[i].after[p]
    {
      assert Touches(s.groups[i], p);
    }
  }

  lemma RollbackUnobstructed(s: Store, base: Library, f: Fence, i: nat)
    requires DocInv(s, base) && InStep(s, f) && i in Live(s.plans)
    requires i < |s.groups| && AfterStateMatches(s, i)
    ensures RollbackObstacle(s, f, i).None?
  {
    assert PlanOk(s.groups, s.backups, base, i, s.plans[i]);
  }

  /** While nobody has touched an applied group, its holder can roll it back at once, and doing so
      gives exactly its documents their baseline value. */
  lemma RollbackSucceeds(s: Store, base: Library, f: Fence, i: nat) returns (t: Store)
    requires DocInv(s, base) && Inside(s.library, s.groups, s.plans) && InStep(s, f) && i in Live(s.plans)
    ensures i < |s.groups| && RollbackGroup(s, f, i) == Ok(t)
    ensures t.fence.Some? && InStep(t, t.fence.value) && t.groups == s.groups
    ensures Live(t.plans) == Live(s.plans) - {i}
    ensures DocInv(t, base) && Inside(t.library, t.groups, t.plans)
    ensures forall p :: Lookup(t.library, p) == if Touches(s.groups[i], p) then Lookup(base, p)
                                                else Lookup(s.library, p)
  {
    RecordedStateStands(s, base, i);
    RollbackUnobstructed(s, base, f, i);
    t := RollbackGroup(s, f, i).value;
    RollbackDocs(s, f, i);
    RollbackKeepsDocs(s, base, i, t);
    forall p ensures Lookup(t.library, p) == if Touches(s.groups[i], p) then Lookup(base, p)
                                             else Lookup(s.library, p)
    {
      if Touches(s.groups[i], p) { RestoreIsBaseline(s, base, i, p); }
    }
  }

  function RollbackAll(s: Store, f: Fence, order: seq<nat>): Result<Store, Conflict>
    decreases |order|
  {
    if order == [] then Ok(s)
    else if order[0] >= |s.groups| then Err(RollbackConflict)
    else
      var r := RollbackGroup(s, f, order[0]);
      if r.Err? || r.value.fence.None? then r
      else RollbackAll(r.value, r.value.fence.value, order[1..])
  }

  ghost predicate Lists(order: seq<nat>, live: set<nat>) {
    && (forall i :: i in order <==> i in live)
    && forall j, k :: 0 <= j < k < |order| ==> order[j] != order[k]
  }

  lemma RollbackAllStep(s: Store, f: Fence, order: seq<nat>, t: Store)
    requires order != [] && order[0] < |s.groups| && RollbackGroup(s, f, order[0]) == Ok(t) && t.fence.Some?
    ensures RollbackAll(s, f, order) == RollbackAll(t, t.fence.value, order[1..])
  {
  }

  lemma TailLists(order: seq<nat>, live: set<nat>)
    requires order != [] && Lists(order, live)
    ensures order[0] in live && Lists(order[1..], live - {order[0]})
  {
    assert order[0] in order;
    forall i: nat ensures i in order[1..] <==> i in live - {order[0]} {
      if i in live && i != order[0] {
        var k :| 0 <= k < |order| && order[k] == i;
        assert order[1..][k - 1] == i;
      }
    }
  }

  lemma {:induction false} ListLength(order: seq<nat>, live: set<nat>)
    requires Lists(order, live)
    ensures |order| == |live|
    decreases |order|
  {
    if order == [] {
      assert live == {};
    } else {
      TailLists(order, live);
      ListLength(order[1..], live - {order[0]});
    }
  }

  /** One holder rolling back the applied groups in any order is never stopped and ends with the
      baseline. */
  lemma {:induction false} AnyOrderRestores(s: Store, base: Library, f: Fence, order: seq<nat>)
    requires DocInv(s, base) && Inside(s.library, s.groups, s.plans) && InStep(s, f) && Lists(order, Live(s.plans))
    ensures RollbackAll(s, f, order).Ok? && RollbackAll(s, f, order).value.library == base
    decreases |order|
  {
    if order == [] {
      assert Live(s.plans) == {};
      NothingLive(s, base);
    } else {
      TailLists(order, Live(s.plans));
      var t := RollbackSucceeds(s, base, f, order[0]);
      RollbackAllStep(s, f, order, t);
      AnyOrderRestores(t, base, t.fence.value, order[1..]);
    }
  }
}
