/**
 The invariant of the library migration and its main theorem: however workers crash, overlap and
 take over, rolling back gives back the library that the migration found.
 */
module LibraryMigrationProof {
  import opened Prelude
  import opened DuplicateCleanup
  import opened LibraryMigration
  import opened LibraryMigrationRuns

  // ----- the documents -----

  ghost predicate Clean(groups: seq<Group>, i: nat)
    requires i < |groups|
  {
    forall j :: 0 <= j < |groups| && j != i ==> CanonicalOf(groups[i]) !in SourceIds(groups[j])
  }

  /** An applied group hides its losers, buries them in this job's name, and outranks its sources. */
  ghost predicate AfterShape(g: Group, after: Patch) {
    && after.Keys == Paths(g)
    && (forall id :: id in SourceIds(g) && id != CanonicalOf(g) ==>
          after[CardPath(id)] == None && !Unstamped(after[TombstonePath(id)]))
    && after[CardPath(CanonicalOf(g))].Some? && after[CardPath(CanonicalOf(g))].value.CardDoc?
    && forall t :: t in g.sources ==> t.card.revision < after[CardPath(CanonicalOf(g))].value.card.revision
  }

  /** The baseline still holds what the group found: its sources, and no foreign canonical card. */
  ghost predicate FoundBy(base: Library, g: Group, sealed: Sealed) {
    && sealed == Capture(base, g)
    && SourcesLive(base, g)
    && (CanonicalOf(g) !in SourceIds(g) ==> CardPath(CanonicalOf(g)) !in base)
  }

  ghost predicate PlanOk(groups: seq<Group>, backups: map<CardId, Card>, base: Library, i: nat, plan: PlanDoc) {
    && i < |groups|
    && Clean(groups, i)
    && AfterShape(groups[i], plan.after)
    && BackupsMatch(backups, groups[i])
    && (!plan.rolledBack ==> FoundBy(base, groups[i], plan.sealed))
  }

  ghost predicate SealedOk(groups: seq<Group>, backups: map<CardId, Card>, i: nat, sealed: Sealed) {
    && i < |groups|
    && sealed.tombstones.Keys == Footprint(groups[i])
    && (forall id :: id in sealed.tombstones ==> Unstamped(sealed.tombstones[id]))
    && BackupsMatch(backups, groups[i])
  }

  ghost predicate BaseUnstamped(base: Library) {
    forall p: Path :: p.TombstonePath? ==> Unstamped(Lookup(base, p))
  }

  ghost predicate Outside(library: Library, groups: seq<Group>, plans: map<nat, PlanDoc>, base: Library) {
    forall p :: !InLiveGroup(groups, plans, p) ==> Lookup(library, p) == Lookup(base, p)
  }

  ghost predicate Inside(library: Library, groups: seq<Group>, plans: map<nat, PlanDoc>) {
    forall i: nat, p :: i in Live(plans) && i < |groups| && Touches(groups[i], p)
      ==> p in plans[i].after && Lookup(library, p) == plans[i].after[p]
  }

  ghost predicate KnownSource(groups: seq<Group>, id: CardId) {
    exists i :: 0 <= i < |groups| && id in SourceIds(groups[i])
  }

  ghost predicate DocInv(s: Store, base: Library) {
    && WellKeyed(s.groups)
    && s.applied == s.plans.Keys
    && (s.plans != map[] ==> DisjointSources(s.groups))
    && (forall i :: i in s.plans ==> PlanOk(s.groups, s.backups, base, i, s.plans[i]))
    && (forall i :: i in s.sealed ==> SealedOk(s.groups, s.backups, i, s.sealed[i]))
    && (forall id :: id in s.backups ==> KnownSource(s.groups, id))
    && BaseUnstamped(base)
    && Outside(s.library, s.groups, s.plans, base)
  }

  /** Transactions on the fence, the job and the root leave the documents alone. */
  ghost predicate SameDocs(s: Store, t: Store) {
    && s.library == t.library && s.groups == t.groups && s.sealed == t.sealed
    && s.applied == t.applied && s.plans == t.plans && s.backups == t.backups
  }

  // ----- disjoint footprints -----

  /** Clean canonical ids and disjoint sources make every pair of footprints disjoint. */
  lemma PathsDisjoint(groups: seq<Group>, i: nat, j: nat, p: Path)
    requires WellKeyed(groups) && DisjointSources(groups)
    requires i < |groups| && j < |groups| && i != j && Clean(groups, i) && Clean(groups, j)
    ensures !(Touches(groups[i], p) && Touches(groups[j], p))
  {
    assert groups[i].identity != groups[j].identity by {
      if i < j { assert groups[i].identity != groups[j].identity; }
      else { assert groups[j].identity != groups[i].identity; }
    }
    assert SourceIds(groups[i]) !! SourceIds(groups[j]) by {
      if i < j { assert SourceIds(groups[i]) !! SourceIds(groups[j]); }
      else { assert SourceIds(groups[j]) !! SourceIds(groups[i]); }
    }
  }

  // ----- rollback restores the baseline -----

  /** What a rollback writes is what the baseline holds, path by path. */
  lemma RestoreIsBaseline(s: Store, base: Library, i: nat, p: Path)
    requires DocInv(s, base) && i in Live(s.plans) && p in Paths(s.groups[i])
    ensures RestoreDoc(s, i, p) == Lookup(base, p)
  {
    var g := s.groups[i];
    assert PlanOk(s.groups, s.backups, base, i, s.plans[i]);
    match p
    case ReservationPath(_) =>
    case TombstonePath(id) =>
    case CardPath(id) =>
      if id in SourceIds(g) {
        var t :| t in g.sources && t.id == id;
        assert s.backups[id] == t.card;
      } else {
        BackedUpIsSource(s, base, i, id);
      }
  }

  /** No other group's source lies in an applied group's footprint, so its backups are its own. */
  lemma BackedUpIsSource(s: Store, base: Library, i: nat, id: CardId)
    requires DocInv(s, base) && i in s.plans && i < |s.groups| && id in Footprint(s.groups[i])
    ensures id in s.backups ==> id in SourceIds(s.groups[i])
  {
    assert PlanOk(s.groups, s.backups, base, i, s.plans[i]);
    forall j: nat | j < |s.groups| && id in SourceIds(s.groups[j]) ensures id in SourceIds(s.groups[i]) {
      if i != j { OwnSourcesOnly(s.groups, i, j, id); }
    }
    assert id in s.backups ==> KnownSource(s.groups, id);
  }

  /** The documents after group i was rolled back. */
  ghost predicate RolledBackTo(s: Store, i: nat, t: Store)
    requires i < |s.groups| && i in s.plans
  {
    && t.library == Write(s.library, Restore(s, i))
    && t.plans == s.plans[i := s.plans[i].(rolledBack := true)]
    && s.groups == t.groups && s.sealed == t.sealed && s.applied == t.applied && s.backups == t.backups
  }

  lemma RollbackDocs(s: Store, f: Fence, i: nat)
    requires i < |s.groups| && i in Live(s.plans) && RollbackGroup(s, f, i).Ok?
    ensures RolledBackTo(s, i, RollbackGroup(s, f, i).value)
  {
  }

  lemma RollbackOutside(s: Store, base: Library, i: nat, t: Store)
    requires DocInv(s, base) && i in Live(s.plans) && i < |s.groups| && RolledBackTo(s, i, t)
    requires Live(t.plans) == Live(s.plans) - {i}
    ensures Outside(t.library, t.groups, t.plans, base)
  {
    forall p | !InLiveGroup(t.groups, t.plans, p) ensures Lookup(t.library, p) == Lookup(base, p) {
      if p in Paths(s.groups[i]) {
        RestoreIsBaseline(s, base, i, p);
      } else {
        NotLiveElsewhere(s, t, i, p);
      }
    }
  }

  lemma RollbackInside(s: Store, base: Library, i: nat, t: Store)
    requires DocInv(s, base) && i in Live(s.plans) && i < |s.groups| && RolledBackTo(s, i, t)
    requires Inside(s.library, s.groups, s.plans)
    requires Live(t.plans) == Live(s.plans) - {i}
    ensures Inside(t.library, t.groups, t.plans)
  {
    forall k, p | k in Live(t.plans) && k < |t.groups| && Touches(t.groups[k], p)
      ensures p in t.plans[k].after && Lookup(t.library, p) == t.plans[k].after[p]
    {
      assert k in Live(s.plans);
      assert PlanOk(s.groups, s.backups, base, k, s.plans[k]) && PlanOk(s.groups, s.backups, base, i, s.plans[i]);
      PathsDisjoint(s.groups, i, k, p);
    }
  }

  lemma RollbackPlans(s: Store, base: Library, i: nat, t: Store, k: nat)
    requires i in s.plans && i < |s.groups| && RolledBackTo(s, i, t)
    requires k in t.plans && PlanOk(s.groups, s.backups, base, k, s.plans[k])
    ensures PlanOk(t.groups, t.backups, base, k, t.plans[k])
  {
  }

  lemma RollbackKeys(s: Store, i: nat, t: Store)
    requires i in s.plans && i < |s.groups| && RolledBackTo(s, i, t)
    ensures t.plans.Keys == s.plans.Keys
    ensures Live(t.plans) == Live(s.plans) - {i}
  {
    assert t.plans.Keys == s.plans.Keys;
  }

  lemma RollbackKeepsDocs(s: Store, base: Library, i: nat, t: Store)
    requires DocInv(s, base) && i in Live(s.plans) && i < |s.groups| && RolledBackTo(s, i, t)
    ensures DocInv(t, base) && t.plans.Keys == s.plans.Keys && Live(t.plans) == Live(s.plans) - {i}
    ensures Inside(s.library, s.groups, s.plans) ==> Inside(t.library, t.groups, t.plans)
  {
    RollbackKeys(s, i, t);
    if Inside(s.library, s.groups, s.plans) { RollbackInside(s, base, i, t); }
    assert DocInv(t, base) by {
      RollbackOutside(s, base, i, t);
      forall k | k in t.plans ensures PlanOk(t.groups, t.backups, base, k, t.plans[k]) {
        RollbackPlans(s, base, i, t, k);
      }
    }
  }

  lemma NotLiveElsewhere(s: Store, t: Store, i: nat, p: Path)
    requires s.groups == t.groups && Live(t.plans) == Live(s.plans) - {i} && i < |s.groups|
    requires !Touches(s.groups[i], p) && !InLiveGroup(t.groups, t.plans, p)
    ensures !InLiveGroup(s.groups, s.plans, p)
  {
    forall k: nat | k in Live(s.plans) && k < |s.groups| ensures !Touches(s.groups[k], p) {
      assert k == i || k in Live(t.plans);
    }
  }

  // ----- applying a group -----

  /** Since the fence was taken: the sources were compared, and every group is sealed. */
  ghost predicate EraOk(s: Store, base: Library) {
    && MatchesManifest(base, s.groups)
    && forall i :: 0 <= i < |s.groups| ==> i in s.sealed
  }

  lemma AfterHasShape(library: Library, g: Group, plan: Plan, startedAt: nat)
    requires PlanGroup(g.sources) == Ok(plan)
    ensures AfterShape(g, After(library, g, plan, startedAt))
  {
    var after := After(library, g, plan, startedAt);
    MergedCardConserves(g.sources);
    assert after.Keys == Paths(g);
    forall id | id in SourceIds(g) && id != CanonicalOf(g)
      ensures after[CardPath(id)] == None && !Unstamped(after[TombstonePath(id)])
    {
      assert CardPath(id) in Paths(g) && TombstonePath(id) in Paths(g);
    }
    assert CardPath(CanonicalOf(g)) in Paths(g);
  }

  /** The heart of the safety argument.  If group i's canonical id were a source of another group h,
      then either h is applied and left its stamp on that id, or h is unapplied and the card is still
      there; either way a check of the apply transaction fails. */
  lemma ApplyIsClean(s: Store, base: Library, f: Fence, i: nat)
    requires DocInv(s, base) && EraOk(s, base) && Inside(s.library, s.groups, s.plans)
    requires Live(s.plans) == s.plans.Keys
    requires i < |s.groups| && i !in s.applied && ApplyObstacle(s, f, i).None?
    ensures Clean(s.groups, i)
  {
    var g, id := s.groups[i], CanonicalOf(s.groups[i]);
    forall h | 0 <= h < |s.groups| && h != i ensures id !in SourceIds(s.groups[h]) {
      if id in SourceIds(s.groups[h]) {
        DistinctGroups(s.groups, i, h);
        OwnSourcesOnly(s.groups, i, h, id);
        if h in s.plans {
          NeighbourLeftItsStamp(s, base, h, id);
          SealedIsUnstamped(s, base, f, i);
        } else {
          NeighbourStillThere(s, base, i, h);
        }
        assert false;
      }
    }
  }

  lemma SealedIsUnstamped(s: Store, base: Library, f: Fence, i: nat)
    requires DocInv(s, base) && i < |s.groups| && i !in s.applied && ApplyObstacle(s, f, i).None?
    ensures Unstamped(Lookup(s.library, TombstonePath(CanonicalOf(s.groups[i]))))
  {
    var id := CanonicalOf(s.groups[i]);
    assert SealedOk(s.groups, s.backups, i, s.sealed[i]);
    assert Unstamped(s.sealed[i].tombstones[id]);
    assert s.sealed[i].tombstones == Capture(s.library, s.groups[i]).tombstones;
  }

  lemma NeighbourLeftItsStamp(s: Store, base: Library, h: nat, id: CardId)
    requires DocInv(s, base) && Inside(s.library, s.groups, s.plans)
    requires h in Live(s.plans) && h < |s.groups| && id in SourceIds(s.groups[h]) && id != CanonicalOf(s.groups[h])
    ensures !Unstamped(Lookup(s.library, TombstonePath(id)))
  {
    assert PlanOk(s.groups, s.backups, base, h, s.plans[h]);
    assert Touches(s.groups[h], TombstonePath(id));
  }

  lemma NeighbourStillThere(s: Store, base: Library, i: nat, h: nat)
    requires DocInv(s, base) && MatchesManifest(base, s.groups) && DisjointSources(s.groups)
    requires i < |s.groups| && i !in s.plans
    requires h < |s.groups| && h !in s.plans && CanonicalOf(s.groups[i]) in SourceIds(s.groups[h])
    ensures CardPath(CanonicalOf(s.groups[i])) in s.library
  {
    var id := CanonicalOf(s.groups[i]);
    forall k: nat | k in Live(s.plans) && k < |s.groups| ensures !Touches(s.groups[k], CardPath(id)) {
      assert PlanOk(s.groups, s.backups, base, k, s.plans[k]);
      DistinctGroups(s.groups, i, k);
      OwnSourcesOnly(s.groups, h, k, id);
    }
    assert !InLiveGroup(s.groups, s.plans, CardPath(id));
    var t :| t in s.groups[h].sources && t.id == id;
    assert SourcesLive(base, s.groups[h]);
    assert Lookup(s.library, CardPath(id)) == Lookup(base, CardPath(id));
  }

  lemma DistinctGroups(groups: seq<Group>, i: nat, j: nat)
    requires WellKeyed(groups) && i < |groups| && j < |groups|
    ensures i != j ==> CanonicalOf(groups[i]) != CanonicalOf(groups[j])
  {
    if i < j { assert groups[i].identity != groups[j].identity; }
    if j < i { assert groups[j].identity != groups[i].identity; }
  }

  lemma OwnSourcesOnly(groups: seq<Group>, i: nat, j: nat, id: CardId)
    requires DisjointSources(groups) && i < |groups| && j < |groups| && i != j
    ensures !(id in SourceIds(groups[i]) && id in SourceIds(groups[j]))
  {
    if i < j { assert SourceIds(groups[i]) !! SourceIds(groups[j]); }
    else { assert SourceIds(groups[j]) !! SourceIds(groups[i]); }
  }

  /** The documents after group i was applied. */
  ghost predicate AppliedTo(s: Store, i: nat, after: Patch, t: Store)
    requires i in s.sealed
  {
    && t.library == Write(s.library, after)
    && t.plans == s.plans[i := PlanDoc(s.sealed[i], after, false)]
    && t.applied == s.applied + {i}
    && s.groups == t.groups && s.sealed == t.sealed && s.backups == t.backups
  }

  lemma ApplyDocs(s: Store, f: Fence, i: nat) returns (after: Patch)
    requires i < |s.groups| && i !in s.applied && ApplyGroup(s, f, i).Ok?
    ensures i in s.sealed && AppliedTo(s, i, after, ApplyGroup(s, f, i).value)
    ensures AfterShape(s.groups[i], after)
  {
    var g := s.groups[i];
    var plan := PlanGroup(g.sources).value;
    AfterHasShape(s.library, g, plan, s.fence.value.startedAt);
    after := After(s.library, g, plan, s.fence.value.startedAt);
  }

  lemma ApplyKeys(s: Store, i: nat, after: Patch, t: Store)
    requires i in s.sealed && AppliedTo(s, i, after, t) && i !in s.plans
    ensures t.plans.Keys == s.plans.Keys + {i} && Live(t.plans) == Live(s.plans) + {i}
  {
    assert t.plans.Keys == s.plans.Keys + {i};
  }

  /** A clean group that is not applied shares no path with the applied ones. */
  lemma ApplyTouchesNothingLive(s: Store, base: Library, i: nat, p: Path)
    requires DocInv(s, base) && DisjointSources(s.groups)
    requires i < |s.groups| && i !in s.plans && Clean(s.groups, i) && Touches(s.groups[i], p)
    ensures !InLiveGroup(s.groups, s.plans, p)
  {
    if InLiveGroup(s.groups, s.plans, p) {
      var k :| k in Live(s.plans) && k < |s.groups| && Touches(s.groups[k], p);
      assert PlanOk(s.groups, s.backups, base, k, s.plans[k]);
      PathsDisjoint(s.groups, i, k, p);
    }
  }

  lemma ApplyFoundBaseline(s: Store, base: Library, f: Fence, i: nat)
    requires DocInv(s, base) && EraOk(s, base) && i < |s.groups| && Clean(s.groups, i)
    requires i !in s.applied && ApplyObstacle(s, f, i).None?
    ensures FoundBy(base, s.groups[i], s.sealed[i])
  {
    var g := s.groups[i];
    forall p | Touches(g, p) ensures Lookup(s.library, p) == Lookup(base, p) {
      ApplyTouchesNothingLive(s, base, i, p);
    }
    CaptureAgrees(s.library, base, g);
    assert Lookup(s.library, CardPath(CanonicalOf(g))) == Lookup(base, CardPath(CanonicalOf(g)));
  }

  lemma CaptureAgrees(a: Library, b: Library, g: Group)
    requires forall p :: Touches(g, p) ==> Lookup(a, p) == Lookup(b, p)
    ensures Capture(a, g) == Capture(b, g)
  {
    assert Touches(g, ReservationPath(g.identity));
    forall id | id in Footprint(g) ensures Lookup(a, TombstonePath(id)) == Lookup(b, TombstonePath(id)) {
      assert Touches(g, TombstonePath(id));
    }
  }

  lemma ApplyOutside(s: Store, base: Library, i: nat, after: Patch, t: Store)
    requires i < |s.groups| && i in s.sealed && AppliedTo(s, i, after, t)
    requires after.Keys == Paths(s.groups[i]) && Live(t.plans) == Live(s.plans) + {i}
    requires Outside(s.library, s.groups, s.plans, base)
    ensures Outside(t.library, t.groups, t.plans, base)
  {
    forall p | !InLiveGroup(t.groups, t.plans, p) ensures Lookup(t.library, p) == Lookup(base, p) {
      assert i in Live(t.plans);
      assert p !in after;
      forall k: nat | k in Live(s.plans) && k < |s.groups| ensures !Touches(s.groups[k], p) {
        assert k in Live(t.plans);
      }
    }
  }

  lemma ApplyInside(s: Store, base: Library, i: nat, after: Patch, t: Store)
    requires DocInv(s, base) && DisjointSources(s.groups) && Inside(s.library, s.groups, s.plans)
    requires i < |s.groups| && i !in s.plans && Clean(s.groups, i)
    requires i in s.sealed && AppliedTo(s, i, after, t)
    requires after.Keys == Paths(s.groups[i]) && Live(t.plans) == Live(s.plans) + {i}
    ensures Inside(t.library, t.groups, t.plans)
  {
    forall k, p | k in Live(t.plans) && k < |t.groups| && Touches(t.groups[k], p)
      ensures p in t.plans[k].after && Lookup(t.library, p) == t.plans[k].after[p]
    {
      if k != i {
        assert k in Live(s.plans);
        assert PlanOk(s.groups, s.backups, base, k, s.plans[k]);
        PathsDisjoint(s.groups, i, k, p);
      }
    }
  }

  lemma ApplyAssembles(s: Store, base: Library, i: nat, after: Patch, t: Store)
    requires DocInv(s, base) && EraOk(s, base) && Inside(s.library, s.groups, s.plans)
    requires i < |s.groups| && i !in s.plans && i in s.sealed && AppliedTo(s, i, after, t)
    requires Clean(s.groups, i) && AfterShape(s.groups[i], after) && FoundBy(base, s.groups[i], s.sealed[i])
    requires t.plans.Keys == s.plans.Keys + {i} && Live(t.plans) == Live(s.plans) + {i}
    ensures DocInv(t, base) && Inside(t.library, t.groups, t.plans) && EraOk(t, base)
  {
    ApplyOutside(s, base, i, after, t);
    ApplyInside(s, base, i, after, t);
    assert SealedOk(s.groups, s.backups, i, s.sealed[i]);
    forall k | k in t.plans ensures PlanOk(t.groups, t.backups, base, k, t.plans[k]) {
      if k != i { assert PlanOk(s.groups, s.backups, base, k, s.plans[k]); }
    }
  }

  // ----- the other writes -----

  /** Sealing captures only tombstones of other operations: it happens before anything is applied,
      or it repeats an earlier capture. */
  lemma SealKeepsDocs(s: Store, base: Library, f: Fence, i: nat)
    requires DocInv(s, base) && i < |s.groups| && SealGroup(s, f, i).Ok?
    requires i in s.sealed || s.plans == map[]
    ensures var t := SealGroup(s, f, i).value;
      DocInv(t, base) && i in t.sealed && s.sealed.Keys <= t.sealed.Keys
      && t.library == s.library && t.plans == s.plans && t.groups == s.groups
  {
    var t := SealGroup(s, f, i).value;
    var captured := Capture(s.library, s.groups[i]);
    if i in s.sealed {
      assert t.sealed == s.sealed;
    } else {
      assert Live(s.plans) == {};
      forall id | id in captured.tombstones ensures Unstamped(captured.tombstones[id]) {
        assert !InLiveGroup(s.groups, s.plans, TombstonePath(id));
        assert Lookup(s.library, TombstonePath(id)) == Lookup(base, TombstonePath(id));
      }
      assert SealedOk(t.groups, t.backups, i, captured);
      forall k | k in t.sealed ensures SealedOk(t.groups, t.backups, k, t.sealed[k]) {
        if k != i { assert SealedOk(s.groups, s.backups, k, s.sealed[k]); }
      }
    }
  }

  lemma BackupsGrow(s: Store, i: nat)
    requires i < |s.groups| && StoreBackups(s, i).Ok?
    ensures var t := StoreBackups(s, i).value;
      && (forall id :: id in s.backups ==> id in t.backups && t.backups[id] == s.backups[id])
      && (forall id :: id in t.backups ==> id in s.backups || id in SourceIds(s.groups[i]))
  {
  }

  ghost predicate Extends(backups: map<CardId, Card>, more: map<CardId, Card>) {
    forall id :: id in backups ==> id in more && more[id] == backups[id]
  }

  lemma MoreBackupsPlan(groups: seq<Group>, backups: map<CardId, Card>, more: map<CardId, Card>, base: Library,
                        i: nat, plan: PlanDoc)
    requires Extends(backups, more) && PlanOk(groups, backups, base, i, plan)
    ensures PlanOk(groups, more, base, i, plan)
  {
  }

  lemma MoreBackupsSealed(groups: seq<Group>, backups: map<CardId, Card>, more: map<CardId, Card>, i: nat,
                          sealed: Sealed)
    requires Extends(backups, more) && SealedOk(groups, backups, i, sealed)
    ensures SealedOk(groups, more, i, sealed)
  {
  }

  lemma BackupKeepsDocs(s: Store, base: Library, i: nat)
    requires DocInv(s, base) && i < |s.groups| && StoreBackups(s, i).Ok?
    ensures DocInv(StoreBackups(s, i).value, base)
  {
    BackupsGrow(s, i);
    MoreBackups(s, base, StoreBackups(s, i).value.backups, i);
    assert StoreBackups(s, i).value == s.(backups := StoreBackups(s, i).value.backups);
  }

  lemma MoreBackups(s: Store, base: Library, more: map<CardId, Card>, i: nat)
    requires DocInv(s, base) && i < |s.groups| && Extends(s.backups, more)
    requires forall id :: id in more ==> id in s.backups || id in SourceIds(s.groups[i])
    ensures DocInv(s.(backups := more), base)
  {
    forall k | k in s.plans ensures PlanOk(s.groups, more, base, k, s.plans[k]) {
      MoreBackupsPlan(s.groups, s.backups, more, base, k, s.plans[k]);
    }
    forall k | k in s.sealed ensures SealedOk(s.groups, more, k, s.sealed[k]) {
      MoreBackupsSealed(s.groups, s.backups, more, k, s.sealed[k]);
    }
    forall id | id in more ensures KnownSource(s.groups, id) {
      if id in s.backups { assert KnownSource(s.groups, id); }
    }
  }

  lemma RebaseLookup(world: World, library: Library, p: Path)
    ensures Lookup(Rebase(world, library), p)
         == if InLiveGroup(world.store.groups, world.store.plans, p) then Lookup(world.baseline, p)
            else Lookup(library, p)
  {
  }

  lemma OwnerWriteKeepsDocs(world: World, library: Library)
    requires DocInv(world.store, world.baseline) && OwnerMayWrite(world.store.library, library)
    ensures DocInv(world.store.(library := library), Rebase(world, library))
  {
    var s, base := world.store, world.baseline;
    var base' := Rebase(world, library);
    forall p
      ensures Lookup(base', p) == if InLiveGroup(s.groups, s.plans, p) then Lookup(base, p) else Lookup(library, p)
    {
      RebaseLookup(world, library, p);
    }
    RebaseUnstamped(world, library);
    forall i | i in s.plans ensures PlanOk(s.groups, s.backups, base', i, s.plans[i]) {
      PlanRebased(s, base, base', i);
    }
  }

  lemma RebaseUnstamped(world: World, library: Library)
    requires BaseUnstamped(world.baseline) && DocInv(world.store, world.baseline)
    requires OwnerMayWrite(world.store.library, library)
    ensures BaseUnstamped(Rebase(world, library))
  {
    forall p: Path | p.TombstonePath? ensures Unstamped(Lookup(Rebase(world, library), p)) {
      RebaseLookup(world, library, p);
      assert Unstamped(Lookup(world.baseline, p));
    }
  }

  /** A rebased baseline agrees with the old one on what the applied groups touch. */
  lemma PlanRebased(s: Store, base: Library, base': Library, i: nat)
    requires i in s.plans && PlanOk(s.groups, s.backups, base, i, s.plans[i])
    requires forall p :: InLiveGroup(s.groups, s.plans, p) ==> Lookup(base', p) == Lookup(base, p)
    ensures PlanOk(s.groups, s.backups, base', i, s.plans[i])
  {
    if !s.plans[i].rolledBack {
      assert i in Live(s.plans);
      forall p | Touches(s.groups[i], p) ensures Lookup(base', p) == Lookup(base, p) {
        assert InLiveGroup(s.groups, s.plans, p);
      }
      FoundByAgrees(base, base', s.groups[i], s.plans[i].sealed);
    }
  }

  lemma FoundByAgrees(a: Library, b: Library, g: Group, sealed: Sealed)
    requires forall p :: Touches(g, p) ==> Lookup(a, p) == Lookup(b, p)
    requires FoundBy(a, g, sealed)
    ensures FoundBy(b, g, sealed)
  {
    CaptureAgrees(a, b, g);
    forall t | t in g.sources ensures Lookup(b, CardPath(t.id)) == Some(CardDoc(t.card)) {
      assert t.id in SourceIds(g);
      assert Touches(g, CardPath(t.id));
    }
    assert Touches(g, CardPath(CanonicalOf(g)));
  }

  /** Preflight compares everything a rollback will rely on. */
  lemma PreflightFindsIntact(s: Store, base: Library, tallied: nat)
    requires DocInv(s, base) && PreflightPasses(s, tallied)
    ensures Inside(s.library, s.groups, s.plans)
  {
    forall i: nat, p | i in Live(s.plans) && i < |s.groups| && Touches(s.groups[i], p)
      ensures p in s.plans[i].after && Lookup(s.library, p) == s.plans[i].after[p]
    {
      assert PlanOk(s.groups, s.backups, base, i, s.plans[i]);
      PreflightComparesPath(s, i, p);
    }
  }

  lemma PreflightComparesPath(s: Store, i: nat, p: Path)
    requires i < |s.groups| && i in s.plans && AfterShape(s.groups[i], s.plans[i].after)
    requires AfterStateMatches(s, i) && LosersAbsent(s, i) && Touches(s.groups[i], p)
    ensures p in s.plans[i].after && Lookup(s.library, p) == s.plans[i].after[p]
  {
    assert p in Paths(s.groups[i]);
    if p.CardPath? && p.id != CanonicalOf(s.groups[i]) {
      assert p.id in SourceIds(s.groups[i]);
    }
  }

  /** What was read and is as digested is so in the baseline. */
  ghost predicate ReadIsBase(base: Library, groups: seq<Group>, read: map<CardId, Card>) {
    DisjointSources(groups) ==>
      forall g, t :: 0 <= g < |groups| && t in groups[g].sources && Lookup(read, t.id) == Some(t.card) ==>
        Lookup(base, CardPath(t.id)) == Some(CardDoc(t.card))
  }

  /** A card as digested can be found only while no group is applied over it. */
  lemma CardShowsBaseline(s: Store, base: Library, g: nat, t: Source)
    requires DocInv(s, base) && Inside(s.library, s.groups, s.plans) && DisjointSources(s.groups)
    requires g < |s.groups| && t in s.groups[g].sources && Lookup(s.library, CardPath(t.id)) == Some(CardDoc(t.card))
    ensures Lookup(base, CardPath(t.id)) == Some(CardDoc(t.card))
  {
    var p := CardPath(t.id);
    if InLiveGroup(s.groups, s.plans, p) {
      var k :| k in Live(s.plans) && k < |s.groups| && Touches(s.groups[k], p);
      AppliedCardDiffers(s, base, g, k, t);
      assert false;
    }
  }

  /** Whatever is applied or rolled back between the pages, each page shows the baseline where it shows a
      card as digested. */
  lemma PageShowsBaseline(s: Store, base: Library, read: map<CardId, Card>, ids: set<CardId>)
    requires DocInv(s, base) && Inside(s.library, s.groups, s.plans) && ReadIsBase(base, s.groups, read)
    ensures ReadIsBase(base, s.groups, read - ids + CardsAt(s.library, ids))
  {
    if DisjointSources(s.groups) {
      var now := read - ids + CardsAt(s.library, ids);
      forall g, t | 0 <= g < |s.groups| && t in s.groups[g].sources && Lookup(now, t.id) == Some(t.card)
        ensures Lookup(base, CardPath(t.id)) == Some(CardDoc(t.card))
      {
        if t.id in ids { CardShowsBaseline(s, base, g, t); }
      }
    }
  }

  /** If all pages together match the manifest, so does the baseline. */
  lemma VerifiedBaseline(base: Library, groups: seq<Group>, read: map<CardId, Card>)
    requires ReadIsBase(base, groups, read) && ReadMatches(read, groups)
    ensures MatchesManifest(base, groups)
  {
    forall g | 0 <= g < |groups| ensures SourcesLive(base, groups[g]) {
      assert ReadAsDigested(read, groups[g]);
    }
  }

  lemma AppliedCardDiffers(s: Store, base: Library, g: nat, k: nat, t: Source)
    requires DocInv(s, base) && Inside(s.library, s.groups, s.plans) && DisjointSources(s.groups)
    requires g < |s.groups| && t in s.groups[g].sources
    requires k in Live(s.plans) && k < |s.groups| && t.id in Footprint(s.groups[k])
    ensures Lookup(s.library, CardPath(t.id)) != Some(CardDoc(t.card))
  {
    assert PlanOk(s.groups, s.backups, base, k, s.plans[k]);
    assert t.id in SourceIds(s.groups[g]);
    assert Touches(s.groups[k], CardPath(t.id));
  }
}
