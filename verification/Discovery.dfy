/**
 Paged discovery of the legacy library (functions/src/legacyLibraryMigration.ts:244-398;
 functions/src/legacyLibraryMigrationFirestore.ts:490-651, 1700-1739): each worker reads the job, a
 page of cards and the groups it touches at different moments, and commits them in one transaction.
 Leases are taken, lost and taken over; the owner may change cards in between.
 */
module Discovery {
  import opened Prelude
  import opened StableSort

  const MAX_PAGE_DOCUMENTS: nat := 100
  const MAX_PAGE_BYTES: nat := 8 * 1024 * 1024
  const MAX_GROUP_SOURCES: nat := 100
  const MAX_GROUP_BYTES: nat := 4 * 1024 * 1024

  /** A card as discovery sees it: its id, its word identity, its digest and its size. */
  datatype Source = Source(id: nat, identity: nat, digest: nat, bytes: nat)

  datatype Page = Page(documents: seq<Source>, cursor: Option<nat>, terminal: bool, epoch: nat)

  datatype PageDigest = PageDigest(before: Option<nat>, page: Page)

  /** The revision chain: each committed page is digested onto the one before. */
  datatype Revision = Initial(scan: nat, epoch: nat) | Chained(previous: Revision, digest: PageDigest)

  datatype Phase = Discover | Discovered | Blocked

  datatype Job = Job(
    scan: nat, phase: Phase, cursor: Option<nat>, epoch: Option<nat>, revision: Option<Revision>,
    sourceCount: nat, groupCount: int, lastPage: Option<PageDigest>, lease: Option<nat>)

  datatype Group = Group(sources: seq<Source>, scan: nat, epoch: nat, revision: Revision)

  datatype State = State(job: Job, groups: map<nat, Group>, library: map<nat, Source>, epoch: nat)

  /** One discovery process: what it has read so far. */
  datatype Worker = Worker(owner: nat, existing: Job, page: Option<Page>, previous: Option<map<nat, Group>>)

  // ----- building the projected groups -----

  function Identities(docs: seq<Source>): set<nat> {
    set d | d in docs :: d.identity
  }

  function WithSource(groups: map<nat, seq<Source>>, d: Source): map<nat, seq<Source>> {
    groups[d.identity := (if d.identity in groups then groups[d.identity] else []) + [d]]
  }

  /** Each document joins the group of its identity, in page order. */
  function Project(groups: map<nat, seq<Source>>, docs: seq<Source>): map<nat, seq<Source>> {
    if docs == [] then groups else WithSource(Project(groups, docs[..|docs| - 1]), docs[|docs| - 1])
  }

  function SourcesOf(groups: map<nat, Group>): map<nat, seq<Source>> {
    map k | k in groups :: groups[k].sources
  }

  function Stamped(groups: map<nat, seq<Source>>, scan: nat, epoch: nat, revision: Revision): map<nat, Group> {
    map k | k in groups :: Group(groups[k], scan, epoch, revision)
  }

  function Bytes(docs: seq<Source>): nat {
    if docs == [] then 0 else Bytes(docs[..|docs| - 1]) + docs[|docs| - 1].bytes
  }

  predicate GroupFits(sources: seq<Source>) {
    |sources| <= MAX_GROUP_SOURCES && Bytes(sources) <= MAX_GROUP_BYTES
  }

  /** The k-th document takes the group of its identity over a limit. */
  predicate GroupTooLarge(groups: map<nat, seq<Source>>, docs: seq<Source>, k: nat) {
    0 < k <= |docs| && docs[k - 1].identity in Project(groups, docs[..k])
    && !GroupFits(Project(groups, docs[..k])[docs[k - 1].identity])
  }

  lemma ProjectOneMore(groups: map<nat, seq<Source>>, docs: seq<Source>, k: nat)
    requires k < |docs|
    ensures Project(groups, docs[..k + 1]) == WithSource(Project(groups, docs[..k]), docs[k])
    ensures var grown := WithSource(Project(groups, docs[..k]), docs[k]);
      GroupTooLarge(groups, docs, k + 1) <==> !GroupFits(grown[docs[k].identity])
  {
    assert docs[..k + 1][..k] == docs[..k];
  }

  ghost predicate NoneTooLarge(groups: map<nat, seq<Source>>, docs: seq<Source>, n: nat) {
    forall k: nat :: k <= n ==> !GroupTooLarge(groups, docs, k)
  }

  lemma NoneTooLargeSoFar(groups: map<nat, seq<Source>>, docs: seq<Source>, n: nat)
    requires n < |docs| && NoneTooLarge(groups, docs, n) && !GroupTooLarge(groups, docs, n + 1)
    ensures NoneTooLarge(groups, docs, n + 1)
  {
  }

  method BuildProjectedGroups(docs: seq<Source>, previous: map<nat, Group>, scan: nat, epoch: nat, revision: Revision)
    returns (r: Option<map<nat, Group>>)
    ensures r.None? <==> exists k: nat :: GroupTooLarge(SourcesOf(previous), docs, k)
    ensures r.Some? ==> r.value == Stamped(Project(SourcesOf(previous), docs), scan, epoch, revision)
  {
    var groups := SourcesOf(previous);
    var k := 0;
    assert docs[..0] == [];
    ghost var before := SourcesOf(previous);
    while k < |docs|
      invariant 0 <= k <= |docs| && groups == Project(before, docs[..k])
      invariant NoneTooLarge(before, docs, k)
    {
      ProjectOneMore(before, docs, k);
      groups := WithSource(groups, docs[k]);
      k := k + 1;
      if !GroupFits(groups[docs[k - 1].identity]) {
        assert GroupTooLarge(before, docs, k);
        return None;
      }
      NoneTooLargeSoFar(before, docs, k - 1);
    }
    assert docs[..k] == docs;
    return Some(Stamped(groups, scan, epoch, revision));
  }

  // ----- the transactions -----

  predicate AscendingIds(docs: seq<Source>) {
    forall i, j :: 0 <= i < j < |docs| ==> docs[i].id < docs[j].id
  }

  /** The checks a worker makes of its page as soon as it has read it; a failure blocks the job. */
  predicate PageUsable(page: Page, cursor: Option<nat>) {
    && |page.documents| <= MAX_PAGE_DOCUMENTS
    && (!page.terminal ==> page.documents != [])
    && (page.documents != [] ==> page.cursor == Some(page.documents[|page.documents| - 1].id))
    && AscendingIds(page.documents)
    && (page.documents != [] && cursor.Some? ==> cursor.value < page.documents[0].id)
    && Bytes(page.documents) <= MAX_PAGE_BYTES
  }

  /** All a worker checks before it commits, on what it has read; a failure blocks the job. */
  ghost predicate Sendable(w: Worker)
    requires w.page.Some? && w.previous.Some?
  {
    && PageUsable(w.page.value, w.existing.cursor)
    && (w.existing.epoch.Some? ==> w.existing.epoch.value == w.page.value.epoch)
    && !exists k: nat :: GroupTooLarge(SourcesOf(w.previous.value), w.page.value.documents, k)
  }

  function RevisionBefore(job: Job, epoch: nat): Revision {
    if job.revision.Some? then job.revision.value else Initial(job.scan, epoch)
  }

  function NextRevision(job: Job, page: Page): Revision {
    Chained(RevisionBefore(job, page.epoch), PageDigest(job.cursor, page))
  }

  /** The groups a worker sends: those it read, with its page added, all under the next revision. */
  function Projected(w: Worker): map<nat, Group>
    requires w.page.Some? && w.previous.Some?
  {
    Stamped(Project(SourcesOf(w.previous.value), w.page.value.documents), w.existing.scan,
            w.page.value.epoch, NextRevision(w.existing, w.page.value))
  }

  function NextJob(w: Worker): Job
    requires w.page.Some? && w.previous.Some?
  {
    var page := w.page.value;
    Job(w.existing.scan, if page.terminal then Discovered else Discover, page.cursor, Some(page.epoch),
        Some(NextRevision(w.existing, page)), w.existing.sourceCount + |page.documents|,
        w.existing.groupCount + |Projected(w)| - |w.previous.value|,
        Some(PageDigest(w.existing.cursor, page)), None)
  }

  predicate SameAsRead(current: Job, existing: Job) {
    current.cursor == existing.cursor && current.revision == existing.revision && current.scan == existing.scan
  }

  /** Every group that already exists must carry the current revision, that is, the page before must have
      touched it; and it may only grow. */
  predicate GroupsAgree(s: State, sent: map<nat, Group>) {
    forall k :: k in sent && k in s.groups ==>
      && s.groups[k].scan == s.job.scan && Some(s.groups[k].epoch) == s.job.epoch
      && Some(s.groups[k].revision) == s.job.revision
      && s.groups[k].sources <= sent[k].sources
  }

  predicate SourcesUnchanged(s: State, docs: seq<Source>) {
    forall d :: d in docs ==> Lookup(s.library, d.id) == Some(d)
  }

  datatype Outcome = Refused | Unchanged | BlockedNow | Committed

  function CommitOutcome(s: State, w: Worker, leaseLive: bool): Outcome
    requires w.page.Some? && w.previous.Some?
  {
    var page := w.page.value;
    if s.job.phase != Discover then Unchanged
    else if s.job.lease != Some(w.owner) || !leaseLive then Refused
    else if s.job.lastPage == Some(PageDigest(w.existing.cursor, page)) && s.job.cursor == page.cursor then Unchanged
    else if !SameAsRead(s.job, w.existing) then Refused
    else if page.epoch != s.epoch then BlockedNow
    else if !SourcesUnchanged(s, page.documents) || !GroupsAgree(s, Projected(w)) then Refused
    else Committed
  }

  function Commit(s: State, w: Worker): State
    requires w.page.Some? && w.previous.Some?
  {
    s.(job := NextJob(w), groups := s.groups + Projected(w))
  }

  // ----- runs -----

  /** `committed` and `found` are history: the sources of all committed pages, in order, and for each of them
      the library as it was when its page was committed. */
  datatype World = World(
    state: State, workers: map<nat, Worker>, committed: seq<Source>, found: seq<map<nat, Source>>)

  datatype Step =
    | Acquire(w: nat, owner: nat, leaseLive: bool)
    | ReadPage(w: nat, page: Page)
    | ReadGroups(w: nat)
    | CommitPage(w: nat, leaseLive: bool)
    | BlockPage(w: nat, leaseLive: bool)
    | Crash(w: nat)
    | ChangeLibrary(library: map<nat, Source>, epoch: nat)

  /** The library, once for each document of a page. */
  function ForEach(docs: seq<Source>, library: map<nat, Source>): (r: seq<map<nat, Source>>)
    ensures |r| == |docs| && forall k :: 0 <= k < |r| ==> r[k] == library
  {
    if docs == [] then [] else ForEach(docs[1..], library) + [library]
  }

  ghost function AfterCommit(world: World, me: Worker, leaseLive: bool): World
    requires me.page.Some? && me.previous.Some?
  {
    var s := world.state;
    if !Sendable(me) then world
    else
      match CommitOutcome(s, me, leaseLive)
      case Committed =>
        world.(state := Commit(s, me), committed := world.committed + me.page.value.documents,
               found := world.found + ForEach(me.page.value.documents, s.library))
      case BlockedNow => world.(state := s.(job := s.job.(phase := Blocked, lease := None)))
      case _ => world
  }

  ghost function Next(world: World, step: Step): World {
    var s := world.state;
    match step
    case Acquire(w, owner, leaseLive) =>
      if s.job.phase != Discover || (s.job.lease.Some? && s.job.lease.value != owner && leaseLive) then world
      else
        var job := s.job.(lease := Some(owner));
        world.(state := s.(job := job), workers := world.workers[w := Worker(owner, job, None, None)])
    case ReadPage(w, page) =>
      if w !in world.workers || (page.documents == [] && page.cursor != world.workers[w].existing.cursor) then world
      else world.(workers := world.workers[w := world.workers[w].(page := Some(page), previous := None)])
    case ReadGroups(w) =>
      if w !in world.workers || world.workers[w].page.None? then world
      else
        var me := world.workers[w];
        var read := map k | k in Identities(me.page.value.documents) && k in s.groups :: s.groups[k];
        world.(workers := world.workers[w := me.(previous := Some(read))])
    case CommitPage(w, leaseLive) =>
      if w !in world.workers || world.workers[w].page.None? || world.workers[w].previous.None? then world
      else AfterCommit(world, world.workers[w], leaseLive)
    case BlockPage(w, leaseLive) =>
      if w !in world.workers || s.job.phase != Discover || s.job.lease != Some(world.workers[w].owner) || !leaseLive
         || !SameAsRead(s.job, world.workers[w].existing)
      then world
      else world.(state := s.(job := s.job.(phase := Blocked, lease := None)))
    case Crash(w) => world.(workers := world.workers - {w})
    case ChangeLibrary(library, epoch) => world.(state := s.(library := library, epoch := epoch))
  }

  ghost function Run(world: World, steps: seq<Step>): World
    decreases steps
  {
    if steps == [] then world else Run(Next(world, steps[0]), steps[1..])
  }

  predicate Initially(world: World) {
    && world.state.job.cursor == None && world.state.job.epoch == None && world.state.job.revision == None
    && world.state.job.phase == Discover
    && world.state.job.sourceCount == 0 && world.state.job.groupCount == 0 && world.state.job.lastPage == None
    && world.state.groups == map[] && world.workers == map[] && world.committed == [] && world.found == []
  }

  // ----- the invariant -----

  function Of(identity: nat): Source -> bool {
    (d: Source) => d.identity == identity
  }

  /** The groups are the committed sources, sorted out by identity. */
  ghost predicate Partition(groups: map<nat, seq<Source>>, committed: seq<Source>) {
    && groups.Keys == Identities(committed)
    && forall k :: k in groups ==> groups[k] == Filter(Of(k), committed)
  }

  /** How many pages a revision has taken in. */
  function PagesIn(r: Revision): nat {
    match r
    case Initial(_, _) => 0
    case Chained(previous, _) => 1 + PagesIn(previous)
  }

  function Depth(r: Option<Revision>): nat {
    if r.None? then 0 else PagesIn(r.value)
  }

  ghost predicate JobInv(world: World) {
    var job := world.state.job;
    && AscendingIds(world.committed)
    && (world.committed != [] ==> job.cursor == Some(world.committed[|world.committed| - 1].id))
    && job.sourceCount == |world.committed| && job.groupCount == |world.state.groups|
    && Partition(SourcesOf(world.state.groups), world.committed)
  }

  predicate OnLastPage(job: Job, k: nat) {
    job.lastPage.Some? && k in Identities(job.lastPage.value.page.documents)
  }

  /** A group touched by the page committed last carries the job's revision; any other carries an older one. */
  predicate GroupCurrent(job: Job, k: nat, g: Group) {
    && g.scan == job.scan && Some(g.epoch) == job.epoch
    && (if OnLastPage(job, k) then Some(g.revision) == job.revision else PagesIn(g.revision) < Depth(job.revision))
  }

  ghost predicate GroupsCurrent(s: State) {
    && (s.job.revision.None? ==> s.job.lastPage.None? && s.job.epoch.None? && s.groups == map[])
    && (s.job.phase == Discover && s.job.lastPage.Some? ==> s.job.lastPage.value.before != s.job.cursor)
    && forall k :: k in s.groups ==> GroupCurrent(s.job, k, s.groups[k])
  }

  /** While the revision has not moved, what a worker read is what is stored. */
  ghost predicate WorkerInv(s: State, w: Worker) {
    && Depth(w.existing.revision) <= Depth(s.job.revision)
    && (w.page.Some? && w.page.value.documents == [] ==> w.page.value.cursor == w.existing.cursor)
    && (w.previous.Some? ==> w.page.Some?)
    && (w.existing.revision == s.job.revision ==>
          && w.existing.cursor == s.job.cursor && w.existing.epoch == s.job.epoch
          && w.existing.sourceCount == s.job.sourceCount
          && w.existing.groupCount == s.job.groupCount
          && (w.previous.Some? ==>
                w.previous.value == map k | k in Identities(w.page.value.documents) && k in s.groups :: s.groups[k]))
  }

  ghost predicate Inv(world: World) {
    JobInv(world) && GroupsCurrent(world.state) && forall w :: w in world.workers ==>
      WorkerInv(world.state, world.workers[w])
  }

  lemma InitialInv(world: World)
    requires Initially(world)
    ensures Inv(world)
  {
  }

  // ----- projecting keeps the partition -----

  lemma AddKeepsPartition(groups: map<nat, seq<Source>>, committed: seq<Source>, d: Source)
    requires Partition(groups, committed)
    ensures Partition(WithSource(groups, d), committed + [d])
  {
    var added := WithSource(groups, d);
    assert added.Keys == Identities(committed + [d]) by {
      forall k ensures k in added <==> k in Identities(committed + [d]) {
        assert d in committed + [d];
        if k in Identities(committed) { var c :| c in committed && c.identity == k; assert c in committed + [d]; }
      }
    }
    forall k | k in added ensures added[k] == Filter(Of(k), committed + [d]) {
      FilterOfSnoc(Of(k), committed, d);
      if k == d.identity && k !in groups { NoneOf(committed, k); }
      assert Filter(Of(k), committed) + [] == Filter(Of(k), committed);
    }
  }

  lemma {:induction false} NoneOf(s: seq<Source>, k: nat)
    requires k !in Identities(s)
    ensures Filter(Of(k), s) == []
  {
    if s != [] {
      assert s[0] in s;
      forall d | d in s[1..] ensures d.identity != k { assert d in s; }
      NoneOf(s[1..], k);
    }
  }

  lemma {:induction false} ProjectKeepsPartition(groups: map<nat, seq<Source>>, committed: seq<Source>,
                                                 docs: seq<Source>)
    requires Partition(groups, committed)
    ensures Partition(Project(groups, docs), committed + docs)
    decreases |docs|
  {
    if docs == [] {
      assert committed + docs == committed;
    } else {
      var front, last := docs[..|docs| - 1], docs[|docs| - 1];
      ProjectKeepsPartition(groups, committed, front);
      AddKeepsPartition(Project(groups, front), committed + front, last);
      LastAppended(committed, docs);
    }
  }

  lemma LastAppended(a: seq<Source>, b: seq<Source>)
    requires b != []
    ensures (a + b[..|b| - 1]) + [b[|b| - 1]] == a + b
  {
  }

  /** Projecting only the groups a page touches, and storing the result over the rest, projects them all. */
  lemma {:induction false} ProjectTouched(groups: map<nat, seq<Source>>, touched: map<nat, seq<Source>>,
                                          docs: seq<Source>, ids: set<nat>)
    requires forall k :: k in ids ==> Lookup(touched, k) == Lookup(groups, k)
    requires touched.Keys <= ids && Identities(docs) <= ids
    ensures forall k: nat ::
      Lookup(Project(groups, docs), k) == if k in ids then Lookup(Project(touched, docs), k) else Lookup(groups, k)
    ensures Project(touched, docs).Keys <= ids
    decreases |docs|
  {
    if docs != [] {
      var front, last := docs[..|docs| - 1], docs[|docs| - 1];
      assert last in docs;
      forall d | d in front ensures d.identity in ids { assert d in docs; }
      ProjectTouched(groups, touched, front, ids);
      assert Lookup(Project(groups, front), last.identity) == Lookup(Project(touched, front), last.identity);
    }
  }

  lemma StoredIsProjected(s: State, w: Worker)
    requires w.page.Some?
    requires w.previous == Some(map k | k in Identities(w.page.value.documents) && k in s.groups :: s.groups[k])
    ensures SourcesOf(Commit(s, w).groups) == Project(SourcesOf(s.groups), w.page.value.documents)
    ensures |Commit(s, w).groups| == |s.groups| + |Projected(w)| - |w.previous.value|
  {
    var docs, touched := w.page.value.documents, w.previous.value;
    StampedSources(Project(SourcesOf(touched), docs), w.existing.scan, w.page.value.epoch,
                   NextRevision(w.existing, w.page.value));
    ProjectCovers(SourcesOf(touched), docs);
    StoredSources(s.groups, touched, Projected(w), docs);
    CountStored(s.groups, touched, Projected(w), Identities(docs));
  }

  lemma StampedSources(groups: map<nat, seq<Source>>, scan: nat, epoch: nat, revision: Revision)
    ensures SourcesOf(Stamped(groups, scan, epoch, revision)) == groups
  {
  }

  lemma StoredSources(groups: map<nat, Group>, touched: map<nat, Group>, sent: map<nat, Group>, docs: seq<Source>)
    requires touched == map k | k in Identities(docs) && k in groups :: groups[k]
    requires SourcesOf(sent) == Project(SourcesOf(touched), docs)
    ensures SourcesOf(groups + sent) == Project(SourcesOf(groups), docs)
  {
    forall k: nat ensures Lookup(SourcesOf(groups + sent), k) == Lookup(Project(SourcesOf(groups), docs), k) {
      SentOrStored(groups, sent, k);
      TouchedLookup(SourcesOf(groups), SourcesOf(touched), docs, k);
    }
    SameGroups(SourcesOf(groups + sent), Project(SourcesOf(groups), docs));
  }

  lemma SentOrStored(groups: map<nat, Group>, sent: map<nat, Group>, k: nat)
    ensures Lookup(SourcesOf(groups + sent), k)
         == if k in SourcesOf(sent) then Some(SourcesOf(sent)[k]) else Lookup(SourcesOf(groups), k)
  {
  }

  lemma TouchedLookup(groups: map<nat, seq<Source>>, touched: map<nat, seq<Source>>, docs: seq<Source>, k: nat)
    requires forall i :: i in Identities(docs) ==> Lookup(touched, i) == Lookup(groups, i)
    requires touched.Keys <= Identities(docs)
    ensures Lookup(Project(groups, docs), k)
         == if k in Project(touched, docs) then Some(Project(touched, docs)[k]) else Lookup(groups, k)
  {
    ProjectTouched(groups, touched, docs, Identities(docs));
    ProjectCovers(touched, docs);
  }

  lemma {:induction false} ProjectCovers(groups: map<nat, seq<Source>>, docs: seq<Source>)
    ensures Project(groups, docs).Keys == groups.Keys + Identities(docs)
    decreases |docs|
  {
    if docs != [] {
      var front, last := docs[..|docs| - 1], docs[|docs| - 1];
      ProjectCovers(groups, front);
      assert docs == front + [last];
    }
  }

  lemma SameGroups(a: map<nat, seq<Source>>, b: map<nat, seq<Source>>)
    requires forall k: nat :: Lookup(a, k) == Lookup(b, k)
    ensures a == b
  {
    forall k: nat ensures k in a <==> k in b { assert Lookup(a, k) == Lookup(b, k); }
    forall k: nat | k in a ensures a[k] == b[k] { assert Lookup(a, k) == Lookup(b, k); }
  }

  lemma CountStored(groups: map<nat, Group>, previous: map<nat, Group>, sent: map<nat, Group>, ids: set<nat>)
    requires previous == map k | k in ids && k in groups :: groups[k]
    requires previous.Keys <= sent.Keys && sent.Keys <= ids
    ensures |groups + sent| == |groups| + |sent| - |previous|
  {
    var all := groups + sent;
    assert all.Keys == groups.Keys + sent.Keys;
    assert groups.Keys * sent.Keys == previous.Keys;
    assert |groups.Keys + sent.Keys| == |groups.Keys| + |sent.Keys| - |groups.Keys * sent.Keys|;
    assert |all| == |all.Keys| && |groups| == |groups.Keys| && |sent| == |sent.Keys| && |previous| == |previous.Keys|;
  }

  // ----- every step, every run -----

  lemma CommitKeepsJob(world: World, w: Worker, leaseLive: bool, next: World)
    requires JobInv(world) && WorkerInv(world.state, w) && w.page.Some? && w.previous.Some?
    requires Sendable(w) && CommitOutcome(world.state, w, leaseLive).Committed?
    requires next.state == Commit(world.state, w) && next.committed == world.committed + w.page.value.documents
    ensures JobInv(next)
  {
    StoredIsProjected(world.state, w);
    ProjectKeepsPartition(SourcesOf(world.state.groups), world.committed, w.page.value.documents);
    CommittedStayAscending(world, w);
  }

  lemma CommittedStayAscending(world: World, w: Worker)
    requires JobInv(world) && w.page.Some? && PageUsable(w.page.value, world.state.job.cursor)
    ensures AscendingIds(world.committed + w.page.value.documents)
  {
    var docs: seq<Source>, committed: seq<Source> := w.page.value.documents, world.committed;
    forall i, j | 0 <= i < j < |committed + docs| ensures (committed + docs)[i].id < (committed + docs)[j].id {
      if i < |committed| <= j {
        assert committed[i].id <= committed[|committed| - 1].id;
        assert docs[0].id <= docs[j - |committed|].id;
      }
    }
  }

  /** After a commit no worker's reading is current: the revision has grown. */
  lemma CommitOutdatesWorkers(s: State, w: Worker, other: Worker)
    requires WorkerInv(s, other) && w.page.Some? && w.previous.Some? && SameAsRead(s.job, w.existing)
    ensures WorkerInv(Commit(s, w), other)
  {
    var before := RevisionBefore(w.existing, w.page.value.epoch);
    assert PagesIn(before) == Depth(s.job.revision);
    assert PagesIn(NextRevision(w.existing, w.page.value)) == PagesIn(before) + 1;
  }

  lemma ProjectedIdentities(s: State, w: Worker)
    requires w.page.Some?
    requires w.previous == Some(map k | k in Identities(w.page.value.documents) && k in s.groups :: s.groups[k])
    ensures Projected(w).Keys == Identities(w.page.value.documents)
  {
    ProjectCovers(SourcesOf(w.previous.value), w.page.value.documents);
  }

  /** A commit brings the groups on its page to the new revision, and leaves all others behind it. */
  lemma CommitKeepsGroups(s: State, w: Worker, leaseLive: bool)
    requires GroupsCurrent(s) && WorkerInv(s, w) && w.page.Some? && w.previous.Some?
    requires Sendable(w) && CommitOutcome(s, w, leaseLive).Committed?
    ensures GroupsCurrent(Commit(s, w))
  {
    var next, docs := Commit(s, w), w.page.value.documents;
    ProjectedIdentities(s, w);
    var revision := NextRevision(w.existing, w.page.value);
    assert PagesIn(revision) == Depth(s.job.revision) + 1;
    forall k | k in next.groups ensures GroupCurrent(next.job, k, next.groups[k]) {
      if k !in Identities(docs) { assert GroupCurrent(s.job, k, s.groups[k]); }
    }
    if docs != [] && w.existing.cursor.Some? { assert docs[0].id <= docs[|docs| - 1].id; }
  }

  lemma CommitStepKeepsInv(world: World, w: nat, leaseLive: bool)
    requires Inv(world)
    ensures Inv(Next(world, CommitPage(w, leaseLive)))
  {
    if w in world.workers && world.workers[w].page.Some? && world.workers[w].previous.Some? {
      AfterCommitKeepsInv(world, world.workers[w], leaseLive);
    }
  }

  lemma AfterCommitKeepsInv(world: World, me: Worker, leaseLive: bool)
    requires Inv(world) && WorkerInv(world.state, me) && me.page.Some? && me.previous.Some?
    ensures Inv(AfterCommit(world, me, leaseLive))
  {
    if Sendable(me) && CommitOutcome(world.state, me, leaseLive).Committed? {
      CommittedKeepsInv(world, me, leaseLive, AfterCommit(world, me, leaseLive));
    } else {
      BlockingKeepsInv(world);
    }
  }

  lemma BlockingKeepsInv(world: World)
    requires Inv(world)
    ensures Inv(world.(state := world.state.(job := world.state.job.(phase := Blocked, lease := None))))
  {
    var next := world.(state := world.state.(job := world.state.job.(phase := Blocked, lease := None)));
    forall v | v in next.workers ensures WorkerInv(next.state, next.workers[v]) {
      assert WorkerInv(world.state, world.workers[v]);
    }
  }

  lemma CommittedKeepsInv(world: World, me: Worker, leaseLive: bool, next: World)
    requires Inv(world) && WorkerInv(world.state, me) && me.page.Some? && me.previous.Some? && Sendable(me)
    requires CommitOutcome(world.state, me, leaseLive).Committed? && next.workers == world.workers
    requires next.state == Commit(world.state, me) && next.committed == world.committed + me.page.value.documents
    ensures Inv(next)
  {
    CommitKeepsJob(world, me, leaseLive, next);
    CommitKeepsGroups(world.state, me, leaseLive);
    forall v | v in next.workers ensures WorkerInv(next.state, next.workers[v]) {
      CommitOutdatesWorkers(world.state, me, world.workers[v]);
    }
  }

  lemma NextKeepsInv(world: World, step: Step)
    requires Inv(world)
    ensures Inv(Next(world, step))
  {
    match step
    case CommitPage(w, leaseLive) => CommitStepKeepsInv(world, w, leaseLive);
    case _ => OtherStepKeepsInv(world, step);
  }

  lemma OtherStepKeepsInv(world: World, step: Step)
    requires Inv(world) && !step.CommitPage?
    ensures Inv(Next(world, step))
  {
    match step
    case Acquire(w, _, _) => AcquireKeepsInv(world, step);
    case ReadPage(w, _) => ReadStepKeepsInv(world, step);
    case ReadGroups(w) => ReadStepKeepsInv(world, step);
    case BlockPage(w, _) => WorkersKeep(world, Next(world, step), w);
    case Crash(w) => WorkersKeep(world, Next(world, step), w);
    case ChangeLibrary(_, _) => WorkersKeep(world, Next(world, step), 0);
  }

  lemma AcquireKeepsInv(world: World, step: Step)
    requires Inv(world) && step.Acquire?
    ensures Inv(Next(world, step))
  {
    WorkersKeep(world, Next(world, step), step.w);
  }

  lemma ReadStepKeepsInv(world: World, step: Step)
    requires Inv(world) && (step.ReadPage? || step.ReadGroups?)
    ensures Inv(Next(world, step))
  {
    if step.w in world.workers { assert WorkerInv(world.state, world.workers[step.w]); }
    WorkersKeep(world, Next(world, step), step.w);
  }

  /** A step that leaves the groups, the history and what the job has counted, and changes one worker at most. */
  lemma WorkersKeep(world: World, next: World, w: nat)
    requires Inv(world)
    requires next.committed == world.committed && next.state.groups == world.state.groups
    requires next.state.job.(phase := world.state.job.phase, lease := world.state.job.lease) == world.state.job
    requires next.state.job.phase == world.state.job.phase || next.state.job.phase == Blocked
    requires forall v :: v in next.workers && v != w ==> v in world.workers && next.workers[v] == world.workers[v]
    requires w in next.workers ==> WorkerInv(world.state, next.workers[w])
    ensures Inv(next)
  {
    forall v | v in next.workers ensures WorkerInv(next.state, next.workers[v]) {
      if v != w { assert WorkerInv(world.state, world.workers[v]); }
    }
  }

  lemma {:induction false} RunKeepsInv(world: World, steps: seq<Step>)
    requires Inv(world)
    ensures Inv(Run(world, steps))
    decreases |steps|
  {
    if steps != [] {
      NextKeepsInv(world, steps[0]);
      RunKeepsInv(Next(world, steps[0]), steps[1..]);
    }
  }

  /** Over any run of competing workers with lost leases, repeated commits and a changing library: the
      stored groups are the committed sources sorted by identity, each source once and in id order; no
      source id lies beyond the cursor; and both counters are the real totals. */
  lemma DiscoveryIsAPartition(world: World, steps: seq<Step>)
    requires Initially(world)
    ensures var end := Run(world, steps);
      && Partition(SourcesOf(end.state.groups), end.committed) && AscendingIds(end.committed)
      && end.state.job.sourceCount == |end.committed| && end.state.job.groupCount == |end.state.groups|
      && (forall d :: d in end.committed ==> end.state.job.cursor.Some? && d.id <= end.state.job.cursor.value)
  {
    InitialInv(world);
    RunKeepsInv(world, steps);
    var committed := Run(world, steps).committed;
    forall d | d in committed ensures d.id <= committed[|committed| - 1].id {
      var i :| 0 <= i < |committed| && committed[i] == d;
    }
  }

  lemma {:induction false} FilterAscending(s: seq<Source>, k: nat)
    requires AscendingIds(s)
    ensures AscendingIds(Filter(Of(k), s))
    ensures forall d :: d in Filter(Of(k), s) ==> d in s
  {
    if s != [] {
      assert AscendingIds(s[1..]);
      FilterAscending(s[1..], k);
      forall d | d in Filter(Of(k), s[1..]) ensures s[0].id < d.id {
        assert d in s[1..];
        var i :| 0 <= i < |s[1..]| && s[1..][i] == d;
        assert s[i + 1] == d;
      }
    }
  }

  /** In each stored group the ids are strictly ascending; and a committed source is in exactly one group,
      that of its identity. */
  lemma EachSourceOnce(world: World, steps: seq<Step>, k: nat, d: Source)
    requires Initially(world) && k in Run(world, steps).state.groups
    ensures var end := Run(world, steps);
      && AscendingIds(end.state.groups[k].sources)
      && (d in end.state.groups[k].sources <==> d in end.committed && d.identity == k)
  {
    InitialInv(world);
    RunKeepsInv(world, steps);
    var end := Run(world, steps);
    FilterAscending(end.committed, k);
    assert SourcesOf(end.state.groups)[k] == Filter(Of(k), end.committed);
  }

  // ----- what is committed was there -----

  /** Each committed source was the stored card of its id when its page was committed. */
  ghost predicate FoundAsRead(world: World) {
    && |world.found| == |world.committed|
    && forall k :: 0 <= k < |world.committed| ==>
         Lookup(world.found[k], world.committed[k].id) == Some(world.committed[k])
  }

  lemma CommitKeepsFound(world: World, w: Worker, leaseLive: bool)
    requires FoundAsRead(world) && w.page.Some? && w.previous.Some?
    ensures FoundAsRead(AfterCommit(world, w, leaseLive))
  {
    var next := AfterCommit(world, w, leaseLive);
    if next.committed != world.committed {
      var n, docs := |world.committed|, w.page.value.documents;
      forall k | 0 <= k < |next.committed|
        ensures Lookup(next.found[k], next.committed[k].id) == Some(next.committed[k])
      {
        if k >= n {
          assert next.committed[k] == docs[k - n] && next.found[k] == world.state.library;
        }
      }
    }
  }

  lemma {:induction false} RunKeepsFound(world: World, steps: seq<Step>)
    requires FoundAsRead(world)
    ensures FoundAsRead(Run(world, steps))
    decreases |steps|
  {
    if steps != [] {
      var step := steps[0];
      if step.CommitPage? && step.w in world.workers
         && world.workers[step.w].page.Some? && world.workers[step.w].previous.Some?
      {
        CommitKeepsFound(world, world.workers[step.w], step.leaseLive);
      }
      RunKeepsFound(Next(world, step), steps[1..]);
    }
  }

  /** Over any run, with the library changing under it: every source that was ever committed was, with its
      digest and size, the stored card of its id at the moment its page was committed. */
  lemma CommittedWereStored(world: World, steps: seq<Step>, k: nat)
    requires Initially(world) && k < |Run(world, steps).committed|
    ensures var end := Run(world, steps);
      |end.found| == |end.committed| && Lookup(end.found[k], end.committed[k].id) == Some(end.committed[k])
  {
    RunKeepsFound(world, steps);
  }

  /** A page with a card that was changed or removed since it was read adds nothing: groups, counters, cursor
      and revision stay; and so does the whole state, unless the library's epoch has moved, which blocks the job. */
  lemma StalePageAddsNothing(world: World, w: nat, leaseLive: bool, d: Source)
    requires w in world.workers && world.workers[w].page.Some? && d in world.workers[w].page.value.documents
    requires Lookup(world.state.library, d.id) != Some(d)
    ensures var s, t := world.state, Next(world, CommitPage(w, leaseLive)).state;
      && t.groups == s.groups && t.library == s.library && t.job == s.job.(phase := t.job.phase, lease := t.job.lease)
      && (world.workers[w].page.value.epoch == s.epoch ==> t == s)
  {
  }

  /** Only the holder of a live lease, whose reading of the job is still right, changes anything by a commit;
      and of the job it then changes what the page accounts for. */
  lemma CommitNeedsLease(world: World, w: nat, leaseLive: bool)
    requires Next(world, CommitPage(w, leaseLive)).state != world.state
    ensures w in world.workers && world.workers[w].page.Some? && world.state.job.phase == Discover && leaseLive
    ensures var me, job := world.workers[w], world.state.job;
      && job.lease == Some(me.owner) && job.cursor == me.existing.cursor && job.revision == me.existing.revision
      && job.scan == me.existing.scan
    ensures var page, t := world.workers[w].page.value, Next(world, CommitPage(w, leaseLive)).state;
      if page.epoch == world.state.epoch
      then t.job.cursor == page.cursor && t.job.epoch == Some(page.epoch) && t.job.lease.None?
           && t.job.phase == (if page.terminal then Discovered else Discover)
      else t.job.phase == Blocked && t.job.lease.None? && t.groups == world.state.groups
  {
  }

  // ----- which pages commit -----

  /** In every reachable state a group carries the job's revision exactly when its identity is on the page
      that was committed last; every other group carries an older one. */
  lemma GroupsAreCurrentExactly(world: World, steps: seq<Step>, k: nat)
    requires Initially(world) && k in Run(world, steps).state.groups
    ensures var end := Run(world, steps).state;
      && (Some(end.groups[k].revision) == end.job.revision <==> OnLastPage(end.job, k))
      && (!OnLastPage(end.job, k) ==> PagesIn(end.groups[k].revision) < Depth(end.job.revision))
  {
    InitialInv(world);
    RunKeepsInv(world, steps);
    assert GroupCurrent(Run(world, steps).state.job, k, Run(world, steps).state.groups[k]);
  }

  lemma {:induction false} ProjectExtends(groups: map<nat, seq<Source>>, docs: seq<Source>, k: nat)
    requires k in groups
    ensures k in Project(groups, docs) && groups[k] <= Project(groups, docs)[k]
    decreases |docs|
  {
    if docs != [] { ProjectExtends(groups, docs[..|docs| - 1], k); }
  }

  /** A worker whose reading is all up to date, whose lease is live, and whose page passes its own checks. */
  ghost predicate Fresh(s: State, w: Worker, leaseLive: bool) {
    && w.page.Some? && w.previous.Some? && Sendable(w)
    && s.job.phase == Discover && s.job.lease == Some(w.owner) && leaseLive
    && SameAsRead(s.job, w.existing) && w.page.value.epoch == s.epoch && SourcesUnchanged(s, w.page.value.documents)
  }

  /** Every identity on the page that has a group already was on the page before. */
  predicate TouchesOnlyLastPage(s: State, docs: seq<Source>) {
    forall k :: k in Identities(docs) && k in s.groups ==> OnLastPage(s.job, k)
  }

  lemma FreshCommits(s: State, w: Worker, leaseLive: bool)
    requires GroupsCurrent(s) && WorkerInv(s, w) && Fresh(s, w, leaseLive)
    ensures CommitOutcome(s, w, leaseLive).Committed? <==> TouchesOnlyLastPage(s, w.page.value.documents)
  {
    var docs := w.page.value.documents;
    ProjectedIdentities(s, w);
    forall k | k in Projected(w) && k in s.groups
      ensures GroupCurrent(s.job, k, s.groups[k]) && s.groups[k].sources <= Projected(w)[k].sources
    {
      ProjectExtends(SourcesOf(w.previous.value), docs, k);
    }
    assert GroupsAgree(s, Projected(w)) <==> TouchesOnlyLastPage(s, docs);
  }

  /** Whatever a worker has read, and however long ago: a page that is committed touches no existing group
      but those of the page committed before it. */
  lemma CommitTouchesLastPage(world: World, steps: seq<Step>, w: Worker, leaseLive: bool)
    requires Initially(world) && w.page.Some? && w.previous.Some?
    requires CommitOutcome(Run(world, steps).state, w, leaseLive).Committed?
    ensures TouchesOnlyLastPage(Run(world, steps).state, w.page.value.documents)
  {
    InitialInv(world);
    RunKeepsInv(world, steps);
    var s, docs := Run(world, steps).state, w.page.value.documents;
    ProjectCovers(SourcesOf(w.previous.value), docs);
    forall k | k in Identities(docs) && k in s.groups ensures OnLastPage(s.job, k) {
      assert k in Projected(w);
      assert GroupCurrent(s.job, k, s.groups[k]);
    }
  }

  /** Discovery is safe, and not live: in any reachable state, a page that was freshly read, and against which
      nothing else speaks, is committed exactly when each identity on it that has a group already was on the
      page committed last. */
  lemma FreshPageCommitsExactly(world: World, steps: seq<Step>, w: nat, leaseLive: bool)
    requires Initially(world) && w in Run(world, steps).workers
    requires Fresh(Run(world, steps).state, Run(world, steps).workers[w], leaseLive)
    ensures var end := Run(world, steps);
      var s, me := end.state, end.workers[w];
      && (CommitOutcome(s, me, leaseLive).Committed? <==> TouchesOnlyLastPage(s, me.page.value.documents))
      && (!CommitOutcome(s, me, leaseLive).Committed? ==> CommitOutcome(s, me, leaseLive).Refused?)
  {
    InitialInv(world);
    RunKeepsInv(world, steps);
    FreshCommits(Run(world, steps).state, Run(world, steps).workers[w], leaseLive);
  }
}
