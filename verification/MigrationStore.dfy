/**
 The document store the migration updates in place
 (functions/src/legacyLibraryMigrationFirestore.ts:814-1163, 1165-1404, 1906-2063).  Each method is
 one transaction body, or the driver that calls them, proved against the step functions of
 LibraryMigration, so the theorems about runs speak about these methods.
 */
module MigrationStore {
  import opened Prelude
  import opened DuplicateCleanup
  import opened LibraryMigration
  import opened LibraryMigrationRuns
  import opened LibraryMigrationProof
  import opened LibraryMigrationTheorems

  /** Card, tombstone and reservation documents of one group, in the order they are written. */
  function CardIds(g: Group): (ids: seq<CardId>)
    ensures forall id :: id in ids <==> id in Footprint(g)
  {
    [CanonicalOf(g)] + SourceIdList(g.sources)
  }

  function SourceIdList(sources: seq<Source>): (ids: seq<CardId>)
    ensures forall id :: id in ids <==> exists t :: t in sources && t.id == id
  {
    if sources == [] then [] else [sources[0].id] + SourceIdList(sources[1..])
  }

  class MigrationStore {
    const groups: seq<Group>
    var library: Library
    var fence: Option<Fence>
    var job: Job
    var root: Option<RootStamp>
    var sealed: map<nat, Sealed>
    var applied: set<nat>
    var plans: map<nat, PlanDoc>
    var backups: map<CardId, Card>

    ghost function View(): Store
      reads this
    {
      Store(library, groups, fence, job, root, sealed, applied, plans, backups)
    }

    constructor (groups: seq<Group>, library: Library)
      ensures View() == Store(library, groups, None, Job(Discovered, 0, 0), None, map[], {}, map[], map[])
    {
      this.groups, this.library := groups, library;
      fence, job, root := None, Job(Discovered, 0, 0), None;
      sealed, applied, plans, backups := map[], {}, map[], map[];
    }

    /** Set a document, or delete it. */
    method Put(p: Path, doc: Option<Doc>)
      modifies this`library
      ensures forall q :: Lookup(library, q) == if q == p then doc else Lookup(old(library), q)
    {
      library := Write(library, map[p := doc]);
    }

    /** Write the patch to the cards and tombstones of the listed ids. */
    method PutEach(ids: seq<CardId>, patch: Patch)
      requires forall id :: id in ids ==> CardPath(id) in patch && TombstonePath(id) in patch
      modifies this`library
      ensures forall id :: id in ids ==>
        Lookup(library, CardPath(id)) == patch[CardPath(id)]
        && Lookup(library, TombstonePath(id)) == patch[TombstonePath(id)]
      ensures forall id :: id !in ids ==>
        Lookup(library, CardPath(id)) == Lookup(old(library), CardPath(id))
        && Lookup(library, TombstonePath(id)) == Lookup(old(library), TombstonePath(id))
      ensures forall w :: Lookup(library, ReservationPath(w)) == Lookup(old(library), ReservationPath(w))
    {
      var k := 0;
      while k < |ids|
        invariant 0 <= k <= |ids|
        invariant forall id :: id in ids[..k] ==>
          Lookup(library, CardPath(id)) == patch[CardPath(id)]
          && Lookup(library, TombstonePath(id)) == patch[TombstonePath(id)]
        invariant forall id :: id !in ids[..k] ==>
          Lookup(library, CardPath(id)) == Lookup(old(library), CardPath(id))
          && Lookup(library, TombstonePath(id)) == Lookup(old(library), TombstonePath(id))
        invariant forall w :: Lookup(library, ReservationPath(w)) == Lookup(old(library), ReservationPath(w))
      {
        Put(CardPath(ids[k]), patch[CardPath(ids[k])]);
        Put(TombstonePath(ids[k]), patch[TombstonePath(ids[k])]);
        assert ids[..k + 1] == ids[..k] + [ids[k]];
        k := k + 1;
      }
      assert ids[..k] == ids;
    }

    /** Write a patch that covers exactly the documents of one group. */
    method PutGroup(g: Group, patch: Patch)
      requires patch.Keys == Paths(g)
      modifies this`library
      ensures library == Write(old(library), patch)
    {
      PutEach(CardIds(g), patch);
      Put(ReservationPath(g.identity), patch[ReservationPath(g.identity)]);
      forall p ensures Lookup(library, p) == Lookup(Write(old(library), patch), p) {
        assert p in patch <==> Touches(g, p);
      }
      SameLookups(library, Write(old(library), patch));
    }

    method BeginMigrationFence(owner: Owner, rollback: bool, leaseLive: bool, token: nat, now: nat)
      returns (r: Result<Fence, Conflict>)
      modifies this`fence, this`job
      ensures var want := BeginFence(old(View()), owner, rollback, leaseLive, token, now);
        && View() == (if want.Ok? then want.value else old(View()))
        && r == (if want.Ok? then Ok(want.value.fence.value) else Err(want.error))
    {
      if fence.Some? {
        var existing := fence.value;
        if existing.phase == Rollback && !rollback { return Err(StateChanged); }
        if existing.phase != Rollback && rollback && existing.applied == 0 { return Err(StateChanged); }
        if leaseLive && existing.owner != owner { return Err(LeaseLost); }
        var phase := if rollback then Rollback else if existing.applied > 0 then Apply else Verify;
        fence := Some(existing.(phase := phase, owner := owner, revision := existing.revision + 1));
        job := Job(phase, existing.applied, existing.appliedSources);
      } else {
        if !MayBegin(job.phase, rollback) { return Err(StateChanged); }
        var phase := if rollback then Rollback else Verify;
        job := Job(phase, if rollback then job.applied else 0, if rollback then job.appliedSources else 0);
        fence := Some(Fence(token, owner, 1, phase, job.applied, job.appliedSources, 0, now));
      }
      return Ok(fence.value);
    }

    method EnterApplyPhase(f: Fence) returns (r: Result<Fence, Conflict>)
      modifies this`fence, this`job, this`root
      ensures var want := EnterApply(old(View()), f);
        && View() == (if want.Ok? then want.value else old(View()))
        && r == (if want.Ok? then Ok(want.value.fence.value) else Err(want.error))
    {
      if fence.None? { return Err(NoFence); }
      if fence.value.token != f.token || fence.value.owner != f.owner { return Err(LeaseLost); }
      if fence.value.applied > 0 || fence.value.phase == Apply { return Ok(fence.value); }
      if root.None? { return Err(StateChanged); }
      var next := fence.value.(phase := Apply, revision := fence.value.revision + 1);
      fence, root, job := Some(next), Some(Stamp(next)), Job(Apply, next.applied, next.appliedSources);
      return Ok(next);
    }

    /** The checks of an apply transaction. */
    method CheckApply(f: Fence, i: nat) returns (obstacle: Option<Conflict>)
      requires i < |groups|
      ensures obstacle == ApplyObstacle(View(), f, i)
    {
      var g := groups[i];
      if fence.None? { return Some(NoFence); }
      var current := fence.value;
      if current.token != f.token || current.owner != f.owner { return Some(LeaseLost); }
      if current.revision != f.revision { return Some(RevisionMoved); }
      if root.None? { return Some(StateChanged); }
      if root.value != Stamp(current) { return Some(RevisionMoved); }
      if i in applied { return None; }
      if !SourcesLive(library, g) { return Some(SourceConflict); }
      if CanonicalOf(g) !in SourceIds(g) && CardPath(CanonicalOf(g)) in library { return Some(SourceConflict); }
      if i !in sealed { return Some(StateChanged); }
      var found := Capture(library, g);
      if sealed[i].reservation != found.reservation { return Some(ReservationConflict); }
      if sealed[i].tombstones != found.tombstones { return Some(TombstoneConflict); }
      var plan := PlanGroup(g.sources);
      if plan.Err? || plan.value.normalizedWord != g.word || plan.value.primaryId != CanonicalOf(g) {
        return Some(SourceConflict);
      }
      return None;
    }

    method ApplyMigrationGroup(f: Fence, i: nat) returns (r: Result<Fence, Conflict>)
      requires i < |groups|
      modifies this
      ensures var want := ApplyGroup(old(View()), f, i);
        && View() == (if want.Ok? then want.value else old(View()))
        && r == (if want.Ok? then Ok(want.value.fence.value) else Err(want.error))
    {
      var obstacle := CheckApply(f, i);
      if obstacle.Some? { return Err(obstacle.value); }
      var current := fence.value;
      if i in applied { return Ok(current); }
      var g := groups[i];
      var after := After(library, g, PlanGroup(g.sources).value, current.startedAt);
      var next := Advance(current, |g.sources|);
      WriteApplied(i, after, next);
      return Ok(next);
    }

    /** The writes of an apply transaction. */
    method WriteApplied(i: nat, after: Patch, next: Fence)
      requires i < |groups| && i in sealed && after.Keys == Paths(groups[i])
      modifies this
      ensures View() == RecordApplied(old(View()), i, after, next)
    {
      plans := plans[i := PlanDoc(sealed[i], after, false)];
      PutGroup(groups[i], after);
      applied := applied + {i};
      job := Job(Apply, next.applied, next.appliedSources);
      fence, root := Some(next), Some(Stamp(next));
    }

    /** The checks of a rollback transaction. */
    method CheckRollback(f: Fence, i: nat) returns (obstacle: Option<Conflict>)
      requires i < |groups|
      ensures obstacle == RollbackObstacle(View(), f, i)
    {
      if i !in plans { return Some(RollbackConflict); }
      if fence.None? { return Some(NoFence); }
      var current := fence.value;
      if current.token != f.token || current.owner != f.owner { return Some(LeaseLost); }
      if root.None? || root.value != Stamp(current) { return Some(RollbackConflict); }
      if current.revision != f.revision { return Some(RollbackConflict); }
      if plans[i].rolledBack { return None; }
      var s := Snapshot();
      if !AfterStateMatches(s, i) { return Some(RollbackConflict); }
      if plans[i].sealed.tombstones.Keys != Footprint(groups[i]) { return Some(RollbackConflict); }
      if !BackupsMatch(backups, groups[i]) { return Some(RollbackConflict); }
      return None;
    }

    method RollbackOneGroup(f: Fence, i: nat) returns (r: Result<Fence, Conflict>)
      requires i < |groups|
      modifies this
      ensures var want := RollbackGroup(old(View()), f, i);
        && View() == (if want.Ok? then want.value else old(View()))
        && r == (if want.Ok? then Ok(want.value.fence.value) else Err(want.error))
    {
      var obstacle := CheckRollback(f, i);
      if obstacle.Some? { return Err(obstacle.value); }
      var current := fence.value;
      if plans[i].rolledBack { return Ok(current); }
      var next := current.(phase := Rollback, revision := current.revision + 1, rolledBack := current.rolledBack + 1);
      WriteRestored(i, Restore(Snapshot(), i), next);
      return Ok(next);
    }

    /** The writes of a rollback transaction. */
    method WriteRestored(i: nat, restored: Patch, next: Fence)
      requires i < |groups| && i in plans && restored.Keys == Paths(groups[i])
      modifies this
      ensures View() == RecordRestored(old(View()), i, restored, next)
    {
      PutGroup(groups[i], restored);
      plans := plans[i := plans[i].(rolledBack := true)];
      fence, root := Some(next), Some(Stamp(next));
    }

    /** What a transaction reads. */
    function Snapshot(): (s: Store)
      reads this
      ensures s == View()
    {
      Store(library, groups, fence, job, root, sealed, applied, plans, backups)
    }

    /** Compare every group still applied with its recorded after-state, and list those groups. */
    method PreflightRollback(f: Fence) returns (r: Result<seq<nat>, Conflict>)
      ensures r.Ok? <==> PreflightPasses(View(), f.applied)
      ensures r.Ok? ==> Lists(r.value, Live(plans))
    {
      var todo: seq<nat> := [];
      var s := Snapshot();
      if exists i :: i in plans && i >= |groups| { return Err(RollbackConflict); }
      var k := 0;
      while k < |groups|
        invariant 0 <= k <= |groups|
        invariant forall i: nat :: i in todo <==> i < k && i in Live(plans)
        invariant forall a :: 0 <= a < |todo| ==> todo[a] < k
        invariant forall a, b :: 0 <= a < b < |todo| ==> todo[a] != todo[b]
        invariant forall i: nat :: i in todo ==> AfterStateMatches(s, i) && LosersAbsent(s, i)
      {
        if k in plans && !plans[k].rolledBack {
          if !AfterStateMatches(s, k) || !LosersAbsent(s, k) { return Err(RollbackConflict); }
          todo := todo + [k];
        }
        k := k + 1;
      }
      if Tally(groups, plans.Keys, |groups|).0 != f.applied { return Err(RollbackConflict); }
      return Ok(todo);
    }

    /** The rollback driver, when no other worker interferes: it succeeds exactly when preflight does,
        and then the library is the baseline again. */
    method RollbackLegacyLibraryMigration(f: Fence, ghost base: Library) returns (r: Result<nat, Conflict>)
      requires DocInv(View(), base) && InStep(View(), f)
      modifies this
      ensures r.Ok? <==> old(PreflightPasses(View(), f.applied))
      ensures r.Ok? ==> library == base && job.phase == RolledBack && fence.None?
      ensures r.Ok? ==> r.value == |old(Live(plans))|
      ensures r.Err? ==> View() == old(View())
    {
      var plan := PreflightRollback(f);
      if plan.Err? { return Err(plan.error); }
      PreflightFindsIntact(View(), base, f.applied);
      ListLength(plan.value, Live(plans));
      var todo, current, k := plan.value, f, 0;
      while k < |todo|
        invariant 0 <= k <= |todo|
        invariant DocInv(View(), base) && Inside(library, groups, plans) && InStep(View(), current)
        invariant Lists(todo[k..], Live(plans))
      {
        ghost var s := View();
        TailLists(todo[k..], Live(plans));
        ghost var t := RollbackSucceeds(s, base, current, todo[k]);
        var next := RollbackOneGroup(current, todo[k]);
        current := next.value;
        assert todo[k + 1..] == todo[k..][1..];
        k := k + 1;
      }
      ListLength([], Live(plans));
      NothingLive(View(), base);
      fence, job := None, job.(phase := RolledBack);
      return Ok(|todo|);
    }
  }
}
