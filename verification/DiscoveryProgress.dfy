/**
 When paged discovery reaches the end of a library that nobody changes meanwhile: pages of one size are
 read in id order (functions/src/legacyLibraryMigrationFirestore.ts:1738-1761), by any number of workers,
 and a page commits only if it touches no group but those of the page before it.
 */
module DiscoveryProgress {
  import opened Prelude
  import opened StableSort
  import opened Discovery

  // ----- reading a library that does not change -----

  /** The whole library, in id order. */
  ghost predicate IsLibrary(s: State, all: seq<Source>) {
    && AscendingIds(all) && SourcesUnchanged(s, all)
    && forall id :: id in s.library ==> s.library[id] in all && s.library[id].id == id
  }

  /** The cards after the cursor are those from `start` on. */
  predicate StartsAfter(all: seq<Source>, start: nat, cursor: Option<nat>) {
    && start <= |all|
    && forall i: nat :: i < |all| ==> (i < start <==> cursor.Some? && all[i].id <= cursor.value)
  }

  function PageEnd(all: seq<Source>, size: nat, start: nat): (end: nat)
    requires start <= |all|
    ensures start <= end <= |all|
  {
    Min(start + size, |all|)
  }

  /** A page is terminal when it is short. */
  function PageFrom(all: seq<Source>, size: nat, start: nat, cursor: Option<nat>, epoch: nat): Page
    requires start <= |all|
  {
    var end := PageEnd(all, size, start);
    Page(all[start..end], if start < end then Some(all[end - 1].id) else cursor, end - start < size, epoch)
  }

  ghost predicate ReadsLibrary(all: seq<Source>, size: nat, cursor: Option<nat>, page: Page, epoch: nat) {
    exists start: nat :: StartsAfter(all, start, cursor) && page == PageFrom(all, size, start, cursor, epoch)
  }

  /** Workers may come and go, lose leases and block the job; but what they read is the library, and it stays. */
  ghost predicate Undisturbed(world: World, step: Step, all: seq<Source>, size: nat) {
    match step
    case ReadPage(w, page) =>
      w in world.workers ==> ReadsLibrary(all, size, world.workers[w].existing.cursor, page, world.state.epoch)
    case ChangeLibrary(_, _) => false
    case _ => true
  }

  ghost predicate UndisturbedRun(world: World, steps: seq<Step>, all: seq<Source>, size: nat)
    decreases |steps|
  {
    steps == []
    || (Undisturbed(world, steps[0], all, size) && UndisturbedRun(Next(world, steps[0]), steps[1..], all, size))
  }

  // ----- the libraries that can be discovered -----

  function PageStart(j: nat, size: nat): (start: nat)
    requires size > 0
    ensures start <= j
  {
    j - j % size
  }

  /** No card of the identity comes before the page, or one is on the page before it. */
  predicate Follows(all: seq<Source>, size: nat, start: nat, k: nat)
    requires start <= |all|
  {
    k in Identities(all[..start]) ==> start >= size && k in Identities(all[start - size..start])
  }

  /** What the page of card j needs for that card. */
  predicate CardFits(all: seq<Source>, size: nat, j: nat)
    requires size > 0 && j < |all|
  {
    var start := PageStart(j, size);
    && Follows(all, size, start, all[j].identity)
    && GroupFits(Filter(Of(all[j].identity), all[..j + 1]))
    && Bytes(all[start..PageEnd(all, size, start)]) <= MAX_PAGE_BYTES
  }

  /** The cards of each identity lie on consecutive pages, and groups and pages are within their limits. */
  predicate Fits(all: seq<Source>, size: nat)
    requires size > 0
  {
    forall j: nat :: j < |all| ==> CardFits(all, size, j)
  }

  // ----- what undisturbed runs keep -----

  ghost predicate WorkerReads(w: Worker, all: seq<Source>, size: nat, epoch: nat) {
    w.page.Some? ==> ReadsLibrary(all, size, w.existing.cursor, w.page.value, epoch)
  }

  function CursorAt(all: seq<Source>, start: nat): Option<nat>
    requires start <= |all|
  {
    if start == 0 then None else Some(all[start - 1].id)
  }

  /** While discovery goes on, it is at the start of a page, and the page before it was committed last. */
  ghost predicate AtPage(job: Job, all: seq<Source>, size: nat, start: nat)
    requires start <= |all| && size > 0
  {
    && (job.phase == Discover ==> start % size == 0 && (start > 0 ==>
          start >= size && job.lastPage.Some? && job.lastPage.value.page.documents == all[start - size..start]))
    && (job.phase == Discovered ==> start == |all|)
  }

  /** The committed cards are the first of the library, and all of them fitted. */
  ghost predicate Position(s: State, committed: seq<Source>, all: seq<Source>, size: nat) {
    && IsLibrary(s, all) && 1 <= size <= MAX_PAGE_DOCUMENTS
    && |committed| <= |all| && committed == all[..|committed|]
    && s.job.cursor == CursorAt(all, |committed|)
    && (s.job.epoch.Some? ==> s.job.epoch.value == s.epoch)
    && (forall j: nat :: j < |committed| ==> CardFits(all, size, j))
    && AtPage(s.job, all, size, |committed|)
  }

  ghost predicate Tracks(world: World, all: seq<Source>, size: nat) {
    && Inv(world) && Position(world.state, world.committed, all, size)
    && forall w :: w in world.workers ==> WorkerReads(world.workers[w], all, size, world.state.epoch)
  }

  /** A multiple of the size that is smaller than the size is zero. */
  lemma SmallMultiple(d: int, size: int)
    requires -size < size * d < size
    ensures d == 0
  {
    assert d >= 1 ==> size * d >= size * 1;
    assert d <= -1 ==> size * d <= size * -1;
  }

  lemma PageStartOf(start: nat, j: nat, size: nat)
    requires size > 0 && start % size == 0 && start <= j < start + size
    ensures PageStart(j, size) == start
  {
    var q, p := start / size, j / size;
    assert start == size * q && j == size * p + j % size;
    assert size * (p - q) == size * p - size * q;
    SmallMultiple(p - q, size);
  }

  lemma NextPageStart(start: nat, size: nat)
    requires size > 0 && start % size == 0
    ensures (start + size) % size == 0
  {
    var q, p := start / size, (start + size) / size;
    assert start == size * q && start + size == size * p + (start + size) % size;
    assert size * (q + 1 - p) == size * q + size - size * p;
    SmallMultiple(q + 1 - p, size);
  }

  lemma StartCuts(all: seq<Source>, start: nat, cursor: Option<nat>, i: nat)
    requires StartsAfter(all, start, cursor) && i < |all|
    ensures i < start <==> cursor.Some? && all[i].id <= cursor.value
  {
    assert all[i] in all;
  }

  lemma StartIsUnique(all: seq<Source>, a: nat, b: nat, cursor: Option<nat>)
    requires StartsAfter(all, a, cursor) && StartsAfter(all, b, cursor)
    ensures a == b
  {
    if a < |all| {
      StartCuts(all, a, cursor, a);
      StartCuts(all, b, cursor, a);
    }
    if b < |all| {
      StartCuts(all, a, cursor, b);
      StartCuts(all, b, cursor, b);
    }
  }

  lemma CursorStarts(all: seq<Source>, start: nat, cursor: Option<nat>)
    requires AscendingIds(all) && start <= |all|
    requires cursor == CursorAt(all, start)
    ensures StartsAfter(all, start, cursor)
  {
    if start > 0 {
      forall i: nat | i < |all| ensures i < start <==> all[i].id <= all[start - 1].id {
        if i < start - 1 { assert all[i].id < all[start - 1].id; }
        if i > start - 1 { assert all[start - 1].id < all[i].id; }
      }
    }
  }

  /** The page that comes next fits card by card. */
  predicate PageFits(all: seq<Source>, size: nat, start: nat)
    requires start <= |all| && size > 0
  {
    forall j: nat :: start <= j < PageEnd(all, size, start) ==> CardFits(all, size, j)
  }

  lemma LastPageIs(job: Job, all: seq<Source>, size: nat, start: nat, k: nat)
    requires start <= |all| && size > 0 && AtPage(job, all, size, start) && job.phase == Discover
    ensures (k in Identities(all[..start]) ==> OnLastPage(job, k)) <==> Follows(all, size, start, k)
  {
    if start == 0 { assert all[..start] == []; }
  }

  lemma TouchesExactly(s: State, committed: seq<Source>, all: seq<Source>, size: nat, end: nat)
    requires |committed| <= end <= |all|
    requires Partition(SourcesOf(s.groups), committed) && |committed| <= |all| && committed == all[..|committed|]
    requires size > 0 && AtPage(s.job, all, size, |committed|) && s.job.phase == Discover
    ensures TouchesOnlyLastPage(s, all[|committed|..end]) <==> AllFollow(all, size, |committed|, end)
  {
    var seen, docs := Identities(committed), all[|committed|..end];
    assert s.groups.Keys == SourcesOf(s.groups).Keys == seen;
    forall k: nat ensures (k in s.groups ==> OnLastPage(s.job, k)) <==> Follows(all, size, |committed|, k) {
      LastPageIs(s.job, all, size, |committed|, k);
    }
    forall j: nat | |committed| <= j < end ensures all[j].identity in Identities(docs) {
      assert docs[j - |committed|] == all[j];
    }
  }

  /** The k-th document, added with those before it to the groups read, joins all earlier cards of its identity. */
  lemma ProjectedGroup(groups: map<nat, seq<Source>>, committed: seq<Source>, touched: map<nat, seq<Source>>,
                       docs: seq<Source>, k: nat)
    requires Partition(groups, committed) && 0 < k <= |docs|
    requires touched == map i | i in Identities(docs) && i in groups :: groups[i]
    ensures var d := docs[k - 1];
      d.identity in Project(touched, docs[..k])
      && Project(touched, docs[..k])[d.identity] == Filter(Of(d.identity), committed + docs[..k])
  {
    var front, ids, d := docs[..k], Identities(docs), docs[k - 1];
    assert front[k - 1] == d;
    assert d in docs && d in front;
    forall e | e in front ensures e.identity in ids { assert e in docs; }
    ProjectTouched(groups, touched, front, ids);
    ProjectKeepsPartition(groups, committed, front);
    assert d.identity in Identities(committed + front) by { assert (committed + front)[|committed| + k - 1] == d; }
    assert Lookup(Project(groups, front), d.identity) == Lookup(Project(touched, front), d.identity);
  }

  lemma GroupsFitExactly(groups: map<nat, seq<Source>>, touched: map<nat, seq<Source>>,
                         all: seq<Source>, start: nat, end: nat)
    requires start <= end <= |all| && Partition(groups, all[..start])
    requires touched == map i | i in Identities(all[start..end]) && i in groups :: groups[i]
    ensures (exists k: nat :: GroupTooLarge(touched, all[start..end], k))
       <==> exists j: nat :: start <= j < end && !GroupFits(Filter(Of(all[j].identity), all[..j + 1]))
  {
    var docs := all[start..end];
    forall k: nat | 0 < k <= |docs|
      ensures GroupTooLarge(touched, docs, k)
         <==> !GroupFits(Filter(Of(all[start + k - 1].identity), all[..start + k]))
    {
      assert all[..start] + docs[..k] == all[..start + k];
      ProjectedGroup(groups, all[..start], touched, docs, k);
    }
    if j: nat :| start <= j < end && !GroupFits(Filter(Of(all[j].identity), all[..j + 1])) {
      assert GroupTooLarge(touched, docs, j + 1 - start);
    }
  }

  /** What an up-to-date worker has read is the next page. */
  lemma NextPage(all: seq<Source>, size: nat, start: nat, cursor: Option<nat>, page: Page, epoch: nat)
    requires AscendingIds(all) && start <= |all| && cursor == CursorAt(all, start)
    requires ReadsLibrary(all, size, cursor, page, epoch)
    ensures page == PageFrom(all, size, start, cursor, epoch)
  {
    var read: nat :| StartsAfter(all, read, cursor) && page == PageFrom(all, size, read, cursor, epoch);
    CursorStarts(all, start, cursor);
    StartIsUnique(all, start, read, cursor);
  }

  // ----- which pages are committed -----

  predicate GroupsFit(all: seq<Source>, start: nat, end: nat) {
    forall j: nat :: start <= j < end && j < |all| ==> GroupFits(Filter(Of(all[j].identity), all[..j + 1]))
  }

  predicate AllFollow(all: seq<Source>, size: nat, start: nat, end: nat)
    requires start <= end <= |all|
  {
    forall j: nat :: start <= j < end ==> Follows(all, size, start, all[j].identity)
  }

  lemma CardFitsAt(all: seq<Source>, size: nat, start: nat, end: nat, j: nat)
    requires size > 0 && start <= j < end && start % size == 0 && start <= |all| && end == PageEnd(all, size, start)
    ensures CardFits(all, size, j)
       <==> Follows(all, size, start, all[j].identity) && GroupFits(Filter(Of(all[j].identity), all[..j + 1]))
            && Bytes(all[start..end]) <= MAX_PAGE_BYTES
  {
    PageStartOf(start, j, size);
  }

  lemma PageFitsIs(all: seq<Source>, size: nat, start: nat, end: nat)
    requires size > 0 && start <= |all| && start % size == 0 && end == PageEnd(all, size, start)
    ensures PageFits(all, size, start)
       <==> AllFollow(all, size, start, end) && GroupsFit(all, start, end) && Bytes(all[start..end]) <= MAX_PAGE_BYTES
  {
    forall j: nat | start <= j < end
      ensures CardFits(all, size, j)
         <==> Follows(all, size, start, all[j].identity) && GroupFits(Filter(Of(all[j].identity), all[..j + 1]))
              && Bytes(all[start..end]) <= MAX_PAGE_BYTES
    {
      CardFitsAt(all, size, start, end, j);
    }
    if start < end {
      assert PageFits(all, size, start) ==> CardFits(all, size, start);
    }
  }

  lemma UsableExactly(all: seq<Source>, size: nat, start: nat, cursor: Option<nat>, epoch: nat)
    requires AscendingIds(all) && 1 <= size <= MAX_PAGE_DOCUMENTS && start <= |all|
    requires cursor == CursorAt(all, start)
    ensures PageUsable(PageFrom(all, size, start, cursor, epoch), cursor)
       <==> Bytes(all[start..PageEnd(all, size, start)]) <= MAX_PAGE_BYTES
  {
  }

  /** A worker that has read the job, the next page and its groups as they are. */
  ghost predicate UpToDate(s: State, w: Worker, all: seq<Source>, size: nat) {
    && s.job.phase == Discover && WorkerInv(s, w) && WorkerReads(w, all, size, s.epoch)
    && w.page.Some? && w.previous.Some? && SameAsRead(s.job, w.existing)
  }

  lemma UpToDateReads(s: State, committed: seq<Source>, all: seq<Source>, size: nat, w: Worker)
    requires Position(s, committed, all, size) && UpToDate(s, w, all, size)
    ensures w.page.value == PageFrom(all, size, |committed|, s.job.cursor, s.epoch)
  {
    NextPage(all, size, |committed|, s.job.cursor, w.page.value, s.epoch);
  }

  lemma TouchedSources(groups: map<nat, Group>, touched: map<nat, Group>, ids: set<nat>)
    requires touched == map k | k in ids && k in groups :: groups[k]
    ensures SourcesOf(touched) == map k | k in ids && k in SourcesOf(groups) :: SourcesOf(groups)[k]
  {
  }

  lemma GroupsSendable(groups: map<nat, Group>, touched: map<nat, Group>, all: seq<Source>, start: nat, end: nat)
    requires start <= end <= |all| && Partition(SourcesOf(groups), all[..start])
    requires touched == map k | k in Identities(all[start..end]) && k in groups :: groups[k]
    ensures (exists k: nat :: GroupTooLarge(SourcesOf(touched), all[start..end], k)) <==> !GroupsFit(all, start, end)
  {
    TouchedSources(groups, touched, Identities(all[start..end]));
    GroupsFitExactly(SourcesOf(groups), SourcesOf(touched), all, start, end);
  }

  lemma SendableExactly(s: State, committed: seq<Source>, all: seq<Source>, size: nat, w: Worker, end: nat)
    requires Position(s, committed, all, size) && UpToDate(s, w, all, size)
    requires Partition(SourcesOf(s.groups), committed) && end == PageEnd(all, size, |committed|)
    requires w.page.value == PageFrom(all, size, |committed|, s.job.cursor, s.epoch)
    ensures Sendable(w) <==> GroupsFit(all, |committed|, end) && Bytes(all[|committed|..end]) <= MAX_PAGE_BYTES
  {
    UsableExactly(all, size, |committed|, s.job.cursor, s.epoch);
    GroupsSendable(s.groups, w.previous.value, all, |committed|, end);
  }

  /** Its page is sent, and would be committed, exactly when each card on it fits. */
  lemma CommitsExactly(s: State, committed: seq<Source>, all: seq<Source>, size: nat, w: Worker)
    requires Position(s, committed, all, size) && UpToDate(s, w, all, size)
    requires Partition(SourcesOf(s.groups), committed)
    ensures w.page.value == PageFrom(all, size, |committed|, s.job.cursor, s.epoch)
    ensures Sendable(w) && TouchesOnlyLastPage(s, w.page.value.documents) <==> PageFits(all, size, |committed|)
  {
    UpToDateReads(s, committed, all, size, w);
    SendableExactly(s, committed, all, size, w, PageEnd(all, size, |committed|));
    TouchesExactly(s, committed, all, size, PageEnd(all, size, |committed|));
    PageFitsIs(all, size, |committed|, PageEnd(all, size, |committed|));
  }

  lemma FitSoFar(all: seq<Source>, size: nat, start: nat, end: nat)
    requires size > 0 && start <= |all| && end == PageEnd(all, size, start)
    requires (forall j: nat :: j < start ==> CardFits(all, size, j)) && PageFits(all, size, start)
    ensures forall j: nat :: j < end ==> CardFits(all, size, j)
  {
  }

  lemma NextJobAtPage(all: seq<Source>, size: nat, start: nat, end: nat, w: Worker, epoch: nat)
    requires 1 <= size && start <= |all| && end == PageEnd(all, size, start) && w.page.Some? && w.previous.Some?
    requires w.page.value == PageFrom(all, size, start, CursorAt(all, start), epoch) && start % size == 0
    ensures AtPage(NextJob(w), all, size, end) && NextJob(w).cursor == CursorAt(all, end)
  {
    if end == start + size { NextPageStart(start, size); }
  }

  lemma CommitMovesOn(s: State, committed: seq<Source>, all: seq<Source>, size: nat, w: Worker)
    requires Position(s, committed, all, size) && s.job.phase == Discover && w.page.Some? && w.previous.Some?
    requires w.page.value == PageFrom(all, size, |committed|, s.job.cursor, s.epoch) && PageFits(all, size, |committed|)
    ensures var docs := w.page.value.documents;
      Position(Commit(s, w), committed + docs, all, size) && |committed + docs| == PageEnd(all, size, |committed|)
  {
    var start := |committed|;
    var end := PageEnd(all, size, start);
    assert all[..start] + all[start..end] == all[..end];
    FitSoFar(all, size, start, end);
    NextJobAtPage(all, size, start, end, w, s.epoch);
  }

  lemma NextIsAfterCommit(world: World, w: nat, me: Worker, leaseLive: bool)
    requires w in world.workers && me == world.workers[w] && me.page.Some? && me.previous.Some?
    ensures Next(world, CommitPage(w, leaseLive)) == AfterCommit(world, me, leaseLive)
  {
  }

  lemma CommittedNext(world: World, w: nat, me: Worker, leaseLive: bool)
    requires w in world.workers && me == world.workers[w] && me.page.Some? && me.previous.Some?
    requires Sendable(me) && CommitOutcome(world.state, me, leaseLive).Committed?
    ensures Next(world, CommitPage(w, leaseLive)).state == Commit(world.state, me)
    ensures Next(world, CommitPage(w, leaseLive)).committed == world.committed + me.page.value.documents
  {
    NextIsAfterCommit(world, w, me, leaseLive);
  }

  lemma CommitKeepsTracks(world: World, all: seq<Source>, size: nat, w: nat, leaseLive: bool)
    requires Tracks(world, all, size) && w in world.workers
    requires world.workers[w].page.Some? && world.workers[w].previous.Some? && Sendable(world.workers[w])
    requires CommitOutcome(world.state, world.workers[w], leaseLive).Committed?
    ensures var next := Next(world, CommitPage(w, leaseLive));
      Position(next.state, next.committed, all, size) && |next.committed| == PageEnd(all, size, |world.committed|)
  {
    var me, s := world.workers[w], world.state;
    CommitsExactly(s, world.committed, all, size, me);
    FreshCommits(s, me, leaseLive);
    CommitMovesOn(s, world.committed, all, size, me);
    CommittedNext(world, w, me, leaseLive);
  }

  lemma NextKeepsPosition(world: World, all: seq<Source>, size: nat, step: Step)
    requires Tracks(world, all, size) && Undisturbed(world, step, all, size)
    ensures Position(Next(world, step).state, Next(world, step).committed, all, size)
  {
    if step.CommitPage? && step.w in world.workers {
      var me := world.workers[step.w];
      if me.page.Some? && me.previous.Some? && Sendable(me)
         && CommitOutcome(world.state, me, step.leaseLive).Committed?
      {
        CommitKeepsTracks(world, all, size, step.w, step.leaseLive);
      }
    }
  }

  lemma NextKeepsReading(world: World, all: seq<Source>, size: nat, step: Step)
    requires Undisturbed(world, step, all, size)
    requires forall w :: w in world.workers ==> WorkerReads(world.workers[w], all, size, world.state.epoch)
    ensures var next := Next(world, step);
      forall w :: w in next.workers ==> WorkerReads(next.workers[w], all, size, next.state.epoch)
  {
  }

  lemma NextKeepsTracks(world: World, all: seq<Source>, size: nat, step: Step)
    requires Tracks(world, all, size) && Undisturbed(world, step, all, size)
    ensures Tracks(Next(world, step), all, size)
  {
    NextKeepsInv(world, step);
    NextKeepsPosition(world, all, size, step);
    NextKeepsReading(world, all, size, step);
  }

  lemma {:induction false} RunKeepsTracks(world: World, all: seq<Source>, size: nat, steps: seq<Step>)
    requires Tracks(world, all, size) && UndisturbedRun(world, steps, all, size)
    ensures Tracks(Run(world, steps), all, size)
    decreases |steps|
  {
    if steps != [] {
      NextKeepsTracks(world, all, size, steps[0]);
      RunKeepsTracks(Next(world, steps[0]), all, size, steps[1..]);
    }
  }

  lemma InitiallyTracks(world: World, all: seq<Source>, size: nat)
    requires Initially(world) && IsLibrary(world.state, all) && 1 <= size <= MAX_PAGE_DOCUMENTS
    ensures Tracks(world, all, size)
  {
    InitialInv(world);
  }

  // ----- going on to the end -----

  lemma RunCons(world: World, step: Step, rest: seq<Step>, all: seq<Source>, size: nat)
    ensures Run(world, [step] + rest) == Run(Next(world, step), rest)
    ensures UndisturbedRun(world, [step] + rest, all, size)
       <==> Undisturbed(world, step, all, size) && UndisturbedRun(Next(world, step), rest, all, size)
  {
    assert ([step] + rest)[0] == step && ([step] + rest)[1..] == rest;
  }

  lemma {:induction false} RunConcat(world: World, a: seq<Step>, b: seq<Step>, all: seq<Source>, size: nat)
    requires UndisturbedRun(world, a, all, size) && UndisturbedRun(Run(world, a), b, all, size)
    ensures UndisturbedRun(world, a + b, all, size) && Run(world, a + b) == Run(Run(world, a), b)
    decreases |a|
  {
    if a == [] {
      assert a + b == b;
    } else {
      RunConcat(Next(world, a[0]), a[1..], b, all, size);
      RunCons(world, a[0], a[1..] + b, all, size);
      assert a + b == [a[0]] + (a[1..] + b);
    }
  }

  /** One worker takes the lease when the old one has run out, and reads the job, a page and its groups. */
  function Reading(page: Page): seq<Step> {
    [Acquire(0, 0, false), ReadPage(0, page), ReadGroups(0)]
  }

  /** The worker holds the lease, has read the job as it is, the next page and its groups. */
  ghost predicate ReadyToCommit(world: World, all: seq<Source>, size: nat) {
    && |world.committed| <= |all| && 0 in world.workers
    && var me, s := world.workers[0], world.state;
       && s.job.phase == Discover && me.owner == 0 && s.job.lease == Some(0) && me.existing == s.job
       && me.page == Some(PageFrom(all, size, |world.committed|, s.job.cursor, s.epoch)) && me.previous.Some?
  }

  lemma LeaseTaken(world: World)
    requires world.state.job.phase == Discover
    ensures var job := world.state.job.(lease := Some(0));
      Next(world, Acquire(0, 0, false))
      == world.(state := world.state.(job := job), workers := world.workers[0 := Worker(0, job, None, None)])
  {
  }

  lemma PageTaken(world: World, page: Page, all: seq<Source>, size: nat)
    requires 0 in world.workers && world.workers[0].existing.cursor == world.state.job.cursor
    requires |world.committed| <= |all| && AscendingIds(all)
    requires world.state.job.cursor == CursorAt(all, |world.committed|)
    requires page == PageFrom(all, size, |world.committed|, world.state.job.cursor, world.state.epoch)
    ensures Undisturbed(world, ReadPage(0, page), all, size)
    ensures var me := world.workers[0].(page := Some(page), previous := None);
      Next(world, ReadPage(0, page)) == world.(workers := world.workers[0 := me])
  {
    CursorStarts(all, |world.committed|, world.state.job.cursor);
  }

  lemma GroupsTaken(world: World, page: Page, all: seq<Source>, size: nat)
    requires |world.committed| <= |all| && world.state.job.phase == Discover && world.state.job.lease == Some(0)
    requires 0 in world.workers && world.workers[0] == Worker(0, world.state.job, Some(page), None)
    requires page == PageFrom(all, size, |world.committed|, world.state.job.cursor, world.state.epoch)
    ensures ReadyToCommit(Next(world, ReadGroups(0)), all, size)
    ensures Next(world, ReadGroups(0)).committed == world.committed
  {
  }

  lemma ReadingRuns(world: World, page: Page, all: seq<Source>, size: nat)
    requires Tracks(world, all, size) && world.state.job.phase == Discover
    requires page == PageFrom(all, size, |world.committed|, world.state.job.cursor, world.state.epoch)
    ensures UndisturbedRun(world, Reading(page), all, size)
    ensures ReadyToCommit(Run(world, Reading(page)), all, size)
    ensures Run(world, Reading(page)).committed == world.committed
  {
    var leased := Next(world, Acquire(0, 0, false));
    LeaseTaken(world);
    PageTaken(leased, page, all, size);
    var read := Next(leased, ReadPage(0, page));
    GroupsTaken(read, page, all, size);
    RunCons(read, ReadGroups(0), [], all, size);
    RunCons(leased, ReadPage(0, page), [ReadGroups(0)], all, size);
    RunCons(world, Acquire(0, 0, false), [ReadPage(0, page), ReadGroups(0)], all, size);
  }

  lemma ReadyIsFresh(world: World, all: seq<Source>, size: nat)
    requires Tracks(world, all, size) && ReadyToCommit(world, all, size) && PageFits(all, size, |world.committed|)
    ensures Sendable(world.workers[0]) && CommitOutcome(world.state, world.workers[0], true).Committed?
  {
    var me, s := world.workers[0], world.state;
    CommitsExactly(s, world.committed, all, size, me);
    assert SourcesUnchanged(s, me.page.value.documents);
    FreshCommits(s, me, true);
  }

  /** One page further on, or at the end. */
  ghost predicate PageFurther(before: World, after: World, all: seq<Source>, size: nat) {
    && |before.committed| <= |all|
    && var end := PageEnd(all, size, |before.committed|);
       && |after.committed| == end
       && after.state.job.phase == if end - |before.committed| < size then Discovered else Discover
  }

  lemma ReadyCommits(world: World, all: seq<Source>, size: nat)
    requires Tracks(world, all, size) && ReadyToCommit(world, all, size) && PageFits(all, size, |world.committed|)
    ensures PageFurther(world, Next(world, CommitPage(0, true)), all, size)
  {
    ReadyIsFresh(world, all, size);
    CommitKeepsTracks(world, all, size, 0, true);
    CommittedNext(world, 0, world.workers[0], true);
  }

  /** A page whose cards fit can be committed; discovery is then at the next page, or at the end. */
  lemma PageCanCommit(world: World, all: seq<Source>, size: nat) returns (steps: seq<Step>)
    requires Tracks(world, all, size) && world.state.job.phase == Discover && PageFits(all, size, |world.committed|)
    ensures UndisturbedRun(world, steps, all, size)
    ensures Tracks(Run(world, steps), all, size) && PageFurther(world, Run(world, steps), all, size)
  {
    var page := PageFrom(all, size, |world.committed|, world.state.job.cursor, world.state.epoch);
    steps := Reading(page);
    ReadingRuns(world, page, all, size);
    var ready := Run(world, steps);
    RunKeepsTracks(world, all, size, steps);
    steps := ReadyRuns(world, steps, ready, all, size);
  }

  lemma ReadyRuns(world: World, reading: seq<Step>, ready: World, all: seq<Source>, size: nat)
    returns (steps: seq<Step>)
    requires UndisturbedRun(world, reading, all, size) && ready == Run(world, reading)
    requires Tracks(ready, all, size) && ReadyToCommit(ready, all, size) && PageFits(all, size, |ready.committed|)
    ensures UndisturbedRun(world, steps, all, size)
    ensures Tracks(Run(world, steps), all, size) && PageFurther(ready, Run(world, steps), all, size)
  {
    ReadyCommits(ready, all, size);
    NextKeepsTracks(ready, all, size, CommitPage(0, true));
    RunCons(ready, CommitPage(0, true), [], all, size);
    RunConcat(world, reading, [CommitPage(0, true)], all, size);
    steps := reading + [CommitPage(0, true)];
  }

  lemma FinishesIfFits(world: World, all: seq<Source>, size: nat) returns (steps: seq<Step>)
    requires Tracks(world, all, size) && world.state.job.phase == Discover && Fits(all, size)
    ensures UndisturbedRun(world, steps, all, size) && Run(world, steps).state.job.phase == Discovered
    decreases |all| - |world.committed|
  {
    steps := PageCanCommit(world, all, size);
    var next := Run(world, steps);
    if next.state.job.phase == Discover {
      var more := FinishesIfFits(next, all, size);
      RunConcat(world, steps, more, all, size);
      steps := steps + more;
    }
  }

  ghost predicate CanFinish(world: World, all: seq<Source>, size: nat) {
    exists steps: seq<Step> ::
      UndisturbedRun(world, steps, all, size) && Run(world, steps).state.job.phase == Discovered
  }

  /** However far discovery has come in a library that nobody changes, it can still reach the end exactly when
      every card fits: no identity skips a page between two of its cards, and groups and pages are within
      their limits.  And when it has reached the end, it has taken in the whole library. */
  lemma DiscoveryEndsExactly(world: World, steps: seq<Step>, all: seq<Source>, size: nat)
    requires Initially(world) && IsLibrary(world.state, all) && 1 <= size <= MAX_PAGE_DOCUMENTS
    requires UndisturbedRun(world, steps, all, size)
    ensures Run(world, steps).state.job.phase == Discover ==>
      (CanFinish(Run(world, steps), all, size) <==> Fits(all, size))
    ensures Run(world, steps).state.job.phase == Discovered ==> Run(world, steps).committed == all && Fits(all, size)
  {
    InitiallyTracks(world, all, size);
    RunKeepsTracks(world, all, size, steps);
    var now := Run(world, steps);
    assert all[..|all|] == all;
    if now.state.job.phase == Discover {
      if CanFinish(now, all, size) {
        var more :| UndisturbedRun(now, more, all, size) && Run(now, more).state.job.phase == Discovered;
        RunKeepsTracks(now, all, size, more);
      } else if Fits(all, size) {
        var more := FinishesIfFits(now, all, size);
        assert CanFinish(now, all, size);
      }
    }
  }

  /** Discovery never gets past a card that does not fit. */
  lemma NeverPast(world: World, steps: seq<Step>, all: seq<Source>, size: nat, j: nat)
    requires Initially(world) && IsLibrary(world.state, all) && 1 <= size <= MAX_PAGE_DOCUMENTS
    requires UndisturbedRun(world, steps, all, size) && j < |all| && !CardFits(all, size, j)
    ensures Run(world, steps).committed <= all[..j]
  {
    InitiallyTracks(world, all, size);
    RunKeepsTracks(world, all, size, steps);
    assert Run(world, steps).committed == all[..|Run(world, steps).committed|];
  }

  // ----- a library that is never discovered -----

  /** Three small cards, in id order; the first and the last belong together, the one between them does not. */
  predicate Split(a: Source, b: Source, c: Source) {
    a.id < b.id < c.id && a.identity == c.identity != b.identity && a.bytes == b.bytes == c.bytes == 1
  }

  lemma OneCard(d: Source)
    requires d.bytes == 1
    ensures Bytes([d]) == 1 && GroupFits([d])
  {
    assert [d][..0] == [];
  }

  lemma FirstOfItsGroup(all: seq<Source>, j: nat, k: nat)
    requires j < |all| && all[j].identity == k && k !in Identities(all[..j])
    ensures Filter(Of(k), all[..j + 1]) == [all[j]]
  {
    NoneOf(all[..j], k);
    FilterOfSnoc(Of(k), all[..j], all[j]);
    assert all[..j] + [all[j]] == all[..j + 1];
  }

  lemma AloneFits(all: seq<Source>, size: nat, j: nat)
    requires size == 1 && j < |all| && all[j].bytes == 1 && all[j].identity !in Identities(all[..j])
    ensures CardFits(all, size, j)
  {
    PageStartOf(j, j, size);
    OneCard(all[j]);
    FirstOfItsGroup(all, j, all[j].identity);
    assert all[j..j + 1] == [all[j]];
    CardFitsAt(all, size, j, j + 1, j);
  }

  lemma ThirdDoesNotFit(all: seq<Source>, size: nat, j: nat)
    requires size == 1 && |all| == 3 && j == 2 && Split(all[0], all[1], all[2])
    ensures !CardFits(all, size, j)
  {
    PageStartOf(j, j, size);
    assert all[..j][0] == all[0];
    assert all[j - size..j] == [all[1]];
  }

  lemma SplitFits(all: seq<Source>, size: nat, j: nat)
    requires size == 1 && |all| == 3 && j < 3 && Split(all[0], all[1], all[2])
    ensures CardFits(all, size, j) <==> j < 2
  {
    if j == 2 {
      ThirdDoesNotFit(all, size, j);
    } else {
      forall d | d in all[..j] ensures d.identity != all[j].identity {
        assert d == all[0] && j == 1;
      }
      AloneFits(all, size, j);
    }
  }

  /** Whatever any worker does from here, no further page is committed, and the end is not reached. */
  ghost predicate Stands(world: World, all: seq<Source>, size: nat) {
    forall more :: UndisturbedRun(world, more, all, size) ==>
      Run(world, more).state.job.phase != Discovered && Run(world, more).committed == world.committed
  }

  lemma StandsBefore(world: World, all: seq<Source>, size: nat)
    requires Tracks(world, all, size) && |world.committed| < |all| && !CardFits(all, size, |world.committed|)
    ensures Stands(world, all, size)
  {
    forall more | UndisturbedRun(world, more, all, size)
      ensures Run(world, more).state.job.phase != Discovered && Run(world, more).committed == world.committed
    {
      RunKeepsTracks(world, all, size, more);
      RunOnlyAdds(world, more);
    }
  }

  lemma TwoPages(world: World, all: seq<Source>, size: nat) returns (steps: seq<Step>)
    requires Tracks(world, all, size) && size == 1 && |all| == 3
    requires world.committed == [] && world.state.job.phase == Discover
    requires PageFits(all, size, 0) && PageFits(all, size, 1)
    ensures UndisturbedRun(world, steps, all, size)
    ensures Tracks(Run(world, steps), all, size) && |Run(world, steps).committed| == 2
    ensures Run(world, steps).state.job.phase == Discover
  {
    var first := PageCanCommit(world, all, size);
    var second := PageCanCommit(Run(world, first), all, size);
    RunConcat(world, first, second, all, size);
    steps := first + second;
  }

  /** With one card to a page, discovery of these three takes in the first two and then stands for good, with
      the third card still unread. */
  lemma ThirdPageNeverCommits(world: World, all: seq<Source>, size: nat) returns (steps: seq<Step>)
    requires Initially(world) && IsLibrary(world.state, all)
    requires size == 1 && |all| == 3 && Split(all[0], all[1], all[2])
    ensures UndisturbedRun(world, steps, all, size)
    ensures Run(world, steps).state.job.phase == Discover && Run(world, steps).committed == all[..2]
    ensures Stands(Run(world, steps), all, size)
  {
    forall j: nat | j < 3 ensures CardFits(all, size, j) <==> j < 2 { SplitFits(all, size, j); }
    InitiallyTracks(world, all, size);
    steps := TwoPages(world, all, size);
    StandsBefore(Run(world, steps), all, size);
  }

  lemma {:induction false} RunOnlyAdds(world: World, steps: seq<Step>)
    ensures world.committed <= Run(world, steps).committed
    decreases |steps|
  {
    if steps != [] {
      var next := Next(world, steps[0]);
      assert world.committed <= next.committed;
      RunOnlyAdds(next, steps[1..]);
    }
  }
}
