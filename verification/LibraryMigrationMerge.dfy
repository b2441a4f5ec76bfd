/**
 What an apply leaves in the library (functions/src/legacyLibraryMigrationFirestore.ts:1280-1369), document by
 document and in terms of the cards and tombstones it found.
 */
module LibraryMigrationMerge {
  import opened Prelude
  import opened DuplicateCleanup
  import opened LibraryMigration
  import opened LibraryMigrationRuns

  /** The canonical card is merged from the sources, under the manifest's word, with the job's time. */
  ghost predicate CanonicalMerged(library: Library, g: Group, startedAt: nat) {
    exists c: Card :: Lookup(library, CardPath(CanonicalOf(g))) == Some(CardDoc(c))
      && Merges(c, g.sources) && c.word == Some(g.word) && CardIdentity(c) == Some(g.identity)
      && c.updatedAt == startedAt
  }

  /** One above the loser's revision, or the revision of the tombstone found there if that is higher. */
  ghost predicate BurialRevision(revision: nat, loser: Card, found: Option<Doc>) {
    && loser.revision + 1 <= revision
    && (found.Some? && found.value.TombstoneDoc? ==> found.value.revision <= revision)
    && (revision == loser.revision + 1
        || (found.Some? && found.value.TombstoneDoc? && revision == found.value.revision))
  }

  /** The loser is gone, and buried in this job's name. */
  ghost predicate Buried(before: Library, after: Library, x: Source, startedAt: nat) {
    && CardPath(x.id) !in after
    && exists revision: nat ::
         Lookup(after, TombstonePath(x.id)) == Some(TombstoneDoc(CleanupOperation(x.id), revision, startedAt))
         && BurialRevision(revision, x.card, Lookup(before, TombstonePath(x.id)))
  }

  /** The whole library after an apply, in terms of the library before it. */
  ghost predicate MergedLibrary(before: Library, after: Library, g: Group, startedAt: nat) {
    && SourcesLive(before, g)
    && CanonicalMerged(after, g, startedAt)
    && TombstonePath(CanonicalOf(g)) !in after
    && Lookup(after, ReservationPath(g.identity)) == Some(ReservationDoc(CanonicalOf(g), 0))
    && (forall x :: x in g.sources && x.id != CanonicalOf(g) ==> Buried(before, after, x, startedAt))
    && forall p :: !Touches(g, p) ==> Lookup(after, p) == Lookup(before, p)
  }

  lemma OneCardPerId(library: Library, g: Group, x: Source, y: Source)
    requires SourcesLive(library, g) && x in g.sources && y in g.sources && x.id == y.id
    ensures x.card == y.card
  {
    assert Lookup(library, CardPath(x.id)) == Some(CardDoc(x.card));
    assert Lookup(library, CardPath(y.id)) == Some(CardDoc(y.card));
  }

  lemma {:induction false} PlannedFromLosers(losers: seq<Source>, x: Source)
    requires x in losers && forall y :: y in losers && y.id == x.id ==> y.card == x.card
    ensures PlannedRevision(Tombstones(losers), x.id) == x.card.revision + 1
  {
    assert losers[0] in losers;
    var planned := Tombstones(losers);
    assert planned[0] == PlannedTombstone(losers[0].id, losers[0].card.revision + 1);
    if losers[0].id != x.id {
      assert planned[1..] == Tombstones(losers[1..]);
      PlannedFromLosers(losers[1..], x);
    }
  }

  lemma PlansTombstones(sources: seq<Source>)
    requires PlanGroup(sources).Ok?
    ensures PlanGroup(sources).value.tombstones == Tombstones(Losers(sources, PlanGroup(sources).value.primaryId))
  {
  }

  /** Sources of one id are one card, because all of them are in the library. */
  lemma PlannedForLoser(library: Library, g: Group, p: Plan, x: Source)
    requires SourcesLive(library, g) && PlanGroup(g.sources) == Ok(p) && x in g.sources && x.id != p.primaryId
    ensures PlannedRevision(p.tombstones, x.id) == x.card.revision + 1
  {
    var losers := Losers(g.sources, p.primaryId);
    PlansTombstones(g.sources);
    LoserMembers(g.sources, p.primaryId);
    forall y | y in losers && y.id == x.id ensures y.card == x.card { OneCardPerId(library, g, x, y); }
    PlannedFromLosers(losers, x);
  }

  lemma TimeIsNotMerged(c: Card, cards: seq<Source>, time: nat)
    requires Merges(c, cards)
    ensures Merges(c.(updatedAt := time), cards)
  {
    var x :| Unbeaten(x, cards) && CarriesProgress(c, x.card);
    TimeIsNotProgress(c, x.card, time);
  }

  lemma TimeIsNotProgress(c: Card, from: Card, time: nat)
    requires CarriesProgress(c, from)
    ensures CarriesProgress(c.(updatedAt := time), from) && CardIdentity(c.(updatedAt := time)) == CardIdentity(c)
  {
  }

  lemma MergedInPlace(library: Library, g: Group, p: Plan, startedAt: nat, after: Library)
    requires PlanGroup(g.sources) == Ok(p) && p.primaryId == CanonicalOf(g) && p.normalizedWord == g.word
    requires after == Write(library, After(library, g, p, startedAt))
    ensures CanonicalMerged(after, g, startedAt)
  {
    PlanMerges(g.sources, p);
    TimeIsNotMerged(p.merged, g.sources, startedAt);
    var c := p.merged.(updatedAt := startedAt);
    assert CardPath(CanonicalOf(g)) in Paths(g);
    assert CardIdentity(c) == CardIdentity(p.merged);
    assert Lookup(after, CardPath(CanonicalOf(g))) == Some(CardDoc(c));
  }

  lemma BuriedInPlace(library: Library, g: Group, p: Plan, startedAt: nat, after: Library, x: Source)
    requires SourcesLive(library, g) && PlanGroup(g.sources) == Ok(p) && p.primaryId == CanonicalOf(g)
    requires after == Write(library, After(library, g, p, startedAt))
    requires x in g.sources && x.id != CanonicalOf(g)
    ensures Buried(library, after, x, startedAt)
  {
    PlannedForLoser(library, g, p, x);
    assert x.id in SourceIds(g);
    assert CardPath(x.id) in Paths(g) && TombstonePath(x.id) in Paths(g);
    var found := Lookup(library, TombstonePath(x.id));
    var revision := Max(x.card.revision + 1, TombstoneRevision(found));
    assert BurialRevision(revision, x.card, found);
  }

  /** An apply that writes: the group's documents are merged from what it found, the counters grow by one
      group and its sources, and everything else stays. */
  lemma AppliedMerges(s: Store, f: Fence, i: nat, t: Store)
    requires i < |s.groups| && i !in s.applied && ApplyGroup(s, f, i) == Ok(t)
    ensures s.fence.Some? && t.fence.Some? && MergedLibrary(s.library, t.library, s.groups[i], s.fence.value.startedAt)
    ensures t.applied == s.applied + {i} && t.groups == s.groups && t.sealed == s.sealed && t.backups == s.backups
    ensures t.fence.value.applied == s.fence.value.applied + 1
    ensures t.fence.value.appliedSources == s.fence.value.appliedSources + |s.groups[i].sources|
    ensures t.job == Job(Apply, t.fence.value.applied, t.fence.value.appliedSources)
    ensures HoldsLease(s, f) && HoldsLease(t, f) && t.fence.value.startedAt == s.fence.value.startedAt
  {
    var g, p, startedAt := s.groups[i], PlanGroup(s.groups[i].sources).value, s.fence.value.startedAt;
    MergedInPlace(s.library, g, p, startedAt, t.library);
    forall x | x in g.sources && x.id != CanonicalOf(g) ensures Buried(s.library, t.library, x, startedAt) {
      BuriedInPlace(s.library, g, p, startedAt, t.library, x);
    }
    assert TombstonePath(CanonicalOf(g)) in Paths(g) && ReservationPath(g.identity) in Paths(g);
  }

  /** In any run: an apply step that changes the library leaves it so. */
  lemma ApplyStepMerges(world: World, w: nat, i: nat)
    requires Next(world, ApplyOne(w, i)).store.library != world.store.library
    ensures i < |world.store.groups| && world.store.fence.Some?
    ensures MergedLibrary(world.store.library, Next(world, ApplyOne(w, i)).store.library, world.store.groups[i],
                          world.store.fence.value.startedAt)
  {
    AppliedMerges(world.store, world.workers[w].fence, i, Next(world, ApplyOne(w, i)).store);
  }
}
