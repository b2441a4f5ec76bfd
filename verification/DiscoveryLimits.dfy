/**
 The limits and the commits of discovery (functions/src/legacyLibraryMigration.ts:244-398,
 functions/src/legacyLibraryMigrationFirestore.ts:490-651): exactly which pages a worker refuses before it
 commits, that no stored group ever exceeds the limits, and exactly which commits act and what they leave.
 */
module DiscoveryLimits {
  import opened Prelude
  import opened StableSort
  import opened Discovery

  /** The total size of the cards. */
  function SizeOf(docs: seq<Source>): nat {
    if docs == [] then 0 else docs[0].bytes + SizeOf(docs[1..])
  }

  /** At most 100 cards, of at most 4 MiB together. */
  predicate WithinLimits(sources: seq<Source>) {
    |sources| <= 100 && SizeOf(sources) <= 4194304
  }

  /** The group of an identity once the page has joined it. */
  function Joined(groups: map<nat, seq<Source>>, docs: seq<Source>, identity: nat): seq<Source> {
    (if identity in groups then groups[identity] else []) + Filter(Of(identity), docs)
  }

  // ----- sizes -----

  lemma {:induction false} SizeOfTwo(a: seq<Source>, b: seq<Source>)
    ensures SizeOf(a + b) == SizeOf(a) + SizeOf(b)
  {
    if a == [] {
      assert a + b == b;
    } else {
      assert (a + b)[0] == a[0] && (a + b)[1..] == a[1..] + b;
      SizeOfTwo(a[1..], b);
    }
  }

  lemma {:induction false} BytesIsSize(docs: seq<Source>)
    ensures Bytes(docs) == SizeOf(docs)
  {
    if docs != [] {
      var front, last := docs[..|docs| - 1], docs[|docs| - 1];
      BytesIsSize(front);
      SizeOfTwo(front, [last]);
      assert docs == front + [last] && [last][1..] == [];
    }
  }

  lemma FitsWithinLimits(sources: seq<Source>)
    ensures GroupFits(sources) <==> WithinLimits(sources)
  {
    BytesIsSize(sources);
  }

  // ----- what projecting gives -----

  lemma {:induction false} ProjectJoins(groups: map<nat, seq<Source>>, docs: seq<Source>, identity: nat)
    ensures identity in Project(groups, docs) <==> identity in groups || identity in Identities(docs)
    ensures identity in Project(groups, docs) ==> Project(groups, docs)[identity] == Joined(groups, docs, identity)
  {
    if docs != [] {
      var front, last := docs[..|docs| - 1], docs[|docs| - 1];
      assert docs == front + [last];
      ProjectJoins(groups, front, identity);
      FilterOfSnoc(Of(identity), front, last);
      OneMoreIdentity(front, last, identity);
      if identity !in groups && identity !in Identities(front) { NoneOf(front, identity); }
    }
  }

  lemma OneMoreIdentity(front: seq<Source>, last: Source, identity: nat)
    ensures identity in Identities(front + [last]) <==> identity in Identities(front) || identity == last.identity
  {
    assert last in front + [last];
    if identity in Identities(front) {
      var d :| d in front && d.identity == identity;
      assert d in front + [last];
    }
  }

  lemma {:induction false} FilterOfTwo(p: Source -> bool, a: seq<Source>, b: seq<Source>)
    ensures Filter(p, a + b) == Filter(p, a) + Filter(p, b)
  {
    if b == [] {
      assert a + b == a && Filter(p, a) + [] == Filter(p, a);
    } else {
      var front, last := b[..|b| - 1], b[|b| - 1];
      assert b == front + [last] && a + b == (a + front) + [last];
      FilterOfTwo(p, a, front);
      FilterOfSnoc(p, a + front, last);
      FilterOfSnoc(p, front, last);
    }
  }

  // ----- which pages are refused -----

  /** A document that takes its group over a limit leaves it over the limit to the end of the page. */
  lemma TooLargeToTheEnd(groups: map<nat, seq<Source>>, docs: seq<Source>, k: nat)
    requires GroupTooLarge(groups, docs, k)
    ensures var identity := docs[k - 1].identity;
      identity in Identities(docs) && !WithinLimits(Joined(groups, docs, identity))
  {
    var identity, front, rest := docs[k - 1].identity, docs[..k], docs[k..];
    assert docs[k - 1] in docs;
    assert docs == front + rest;
    ProjectJoins(groups, front, identity);
    FitsWithinLimits(Joined(groups, front, identity));
    LimitsOfJoined(groups, front, rest, identity);
  }

  lemma LimitsOfJoined(groups: map<nat, seq<Source>>, a: seq<Source>, b: seq<Source>, identity: nat)
    requires !WithinLimits(Joined(groups, a, identity))
    ensures !WithinLimits(Joined(groups, a + b, identity))
  {
    FilterOfTwo(Of(identity), a, b);
    assert Joined(groups, a + b, identity) == Joined(groups, a, identity) + Filter(Of(identity), b);
    SizeOfTwo(Joined(groups, a, identity), Filter(Of(identity), b));
  }

  /** And if a group ends over a limit, its last document finds it so. */
  lemma {:induction false} LastFindsItTooLarge(groups: map<nat, seq<Source>>, docs: seq<Source>, identity: nat)
      returns (k: nat)
    requires identity in Identities(docs) && !WithinLimits(Joined(groups, docs, identity))
    ensures GroupTooLarge(groups, docs, k)
  {
    var front, last := docs[..|docs| - 1], docs[|docs| - 1];
    assert docs == front + [last];
    if last.identity == identity {
      k := |docs|;
      assert docs[..k] == docs;
      ProjectJoins(groups, docs, identity);
      FitsWithinLimits(Joined(groups, docs, identity));
    } else {
      OneMoreIdentity(front, last, identity);
      FilterOfSnoc(Of(identity), front, last);
      assert Filter(Of(identity), front) + [] == Filter(Of(identity), front);
      k := LastFindsItTooLarge(groups, front, identity);
      assert docs[..k] == front[..k];
    }
  }

  lemma TooLargeExactly(groups: map<nat, seq<Source>>, docs: seq<Source>)
    ensures (exists k: nat :: GroupTooLarge(groups, docs, k))
       <==> exists identity :: identity in Identities(docs) && !WithinLimits(Joined(groups, docs, identity))
  {
    if k: nat :| GroupTooLarge(groups, docs, k) { TooLargeToTheEnd(groups, docs, k); }
    if identity :| identity in Identities(docs) && !WithinLimits(Joined(groups, docs, identity)) {
      var k := LastFindsItTooLarge(groups, docs, identity);
    }
  }

  /** A worker goes on to commit exactly a page of at most 100 cards and 8 MiB, in ascending order behind its
      cursor and ending at the page's own, empty only at the end, of the job's epoch, with which every group
      stays within the limits. */
  lemma SendableExactly(w: Worker)
    requires w.page.Some? && w.previous.Some?
    ensures var page, docs := w.page.value, w.page.value.documents;
      Sendable(w) <==>
        && |docs| <= 100 && SizeOf(docs) <= 8388608
        && (forall i, j :: 0 <= i < j < |docs| ==> docs[i].id < docs[j].id)
        && (docs == [] ==> page.terminal)
        && (docs != [] ==> page.cursor == Some(docs[|docs| - 1].id)
                           && (w.existing.cursor.Some? ==> w.existing.cursor.value < docs[0].id))
        && (w.existing.epoch.Some? ==> w.existing.epoch.value == page.epoch)
        && forall identity :: identity in Identities(docs) ==>
             WithinLimits(Joined(SourcesOf(w.previous.value), docs, identity))
  {
    BytesIsSize(w.page.value.documents);
    TooLargeExactly(SourcesOf(w.previous.value), w.page.value.documents);
  }

  // ----- over runs -----

  /** Every stored group keeps the limits, and every worker has read only groups of its page. */
  ghost predicate LimitsInv(world: World) {
    && (forall k :: k in world.state.groups ==> WithinLimits(world.state.groups[k].sources))
    && forall w :: w in world.workers && world.workers[w].previous.Some? ==>
         world.workers[w].page.Some? && world.workers[w].previous.value.Keys
           <= Identities(world.workers[w].page.value.documents)
  }

  lemma SentWithinLimits(w: Worker, k: nat)
    requires w.page.Some? && w.previous.Some? && Sendable(w) && k in Projected(w)
    requires w.previous.value.Keys <= Identities(w.page.value.documents)
    ensures WithinLimits(Projected(w)[k].sources)
  {
    SendableExactly(w);
    ProjectJoins(SourcesOf(w.previous.value), w.page.value.documents, k);
  }

  lemma NextKeepsLimits(world: World, step: Step)
    requires LimitsInv(world)
    ensures LimitsInv(Next(world, step))
  {
    if step.CommitPage? && Next(world, step).state.groups != world.state.groups {
      var me := world.workers[step.w];
      forall k | k in Projected(me) ensures WithinLimits(Projected(me)[k].sources) { SentWithinLimits(me, k); }
      StoredWithinLimits(world.state, me);
    }
  }

  lemma StoredWithinLimits(s: State, w: Worker)
    requires w.page.Some? && w.previous.Some?
    requires forall k :: k in s.groups ==> WithinLimits(s.groups[k].sources)
    requires forall k :: k in Projected(w) ==> WithinLimits(Projected(w)[k].sources)
    ensures forall k :: k in Commit(s, w).groups ==> WithinLimits(Commit(s, w).groups[k].sources)
  {
  }

  /** In every reachable state no stored group has more than 100 cards or more than 4 MiB. */
  lemma {:induction false} GroupsKeepLimits(world: World, steps: seq<Step>)
    requires LimitsInv(world)
    ensures LimitsInv(Run(world, steps))
    decreases |steps|
  {
    if steps != [] {
      NextKeepsLimits(world, steps[0]);
      GroupsKeepLimits(Next(world, steps[0]), steps[1..]);
    }
  }

  lemma GroupsStayWithinLimits(world: World, steps: seq<Step>, k: nat)
    requires Initially(world) && k in Run(world, steps).state.groups
    ensures WithinLimits(Run(world, steps).state.groups[k].sources)
  {
    GroupsKeepLimits(world, steps);
  }

  // ----- which commits act -----

  /** The page is the one that was committed last: an answer to it was lost. */
  predicate SentBefore(s: State, w: Worker)
    requires w.page.Some?
  {
    s.job.lastPage == Some(PageDigest(w.existing.cursor, w.page.value)) && s.job.cursor == w.page.value.cursor
  }

  /** The job still discovers, under the worker's live lease, and not behind this very page. */
  predicate Outstanding(s: State, w: Worker, leaseLive: bool)
    requires w.page.Some?
  {
    s.job.phase == Discover && s.job.lease == Some(w.owner) && leaseLive && !SentBefore(s, w)
  }

  predicate JobAsRead(s: State, w: Worker) {
    s.job.cursor == w.existing.cursor && s.job.revision == w.existing.revision && s.job.scan == w.existing.scan
  }

  /** A stored group that the page touches carries the job's scan, epoch and revision, and only grows. */
  predicate TouchedIsCurrent(s: State, w: Worker, k: nat)
    requires w.page.Some? && w.previous.Some? && k in s.groups
  {
    var g := s.groups[k];
    && g.scan == s.job.scan && Some(g.epoch) == s.job.epoch && Some(g.revision) == s.job.revision
    && g.sources <= Joined(SourcesOf(w.previous.value), w.page.value.documents, k)
  }

  /** Every card is stored as read, and every stored group that is sent is current. */
  predicate NothingMoved(s: State, w: Worker)
    requires w.page.Some? && w.previous.Some?
  {
    && (forall d :: d in w.page.value.documents ==> d.id in s.library && s.library[d.id] == d)
    && forall k :: k in s.groups && (k in w.previous.value || k in Identities(w.page.value.documents)) ==>
         TouchedIsCurrent(s, w, k)
  }

  lemma SentGroups(w: Worker, k: nat)
    requires w.page.Some? && w.previous.Some?
    ensures k in Projected(w) <==> k in w.previous.value || k in Identities(w.page.value.documents)
    ensures k in Projected(w) ==> Projected(w)[k] == Group(
      Joined(SourcesOf(w.previous.value), w.page.value.documents, k), w.existing.scan, w.page.value.epoch,
      Chained(if w.existing.revision.Some? then w.existing.revision.value
              else Initial(w.existing.scan, w.page.value.epoch),
              PageDigest(w.existing.cursor, w.page.value)))
  {
    ProjectJoins(SourcesOf(w.previous.value), w.page.value.documents, k);
  }

  lemma GroupsAgreeExactly(s: State, w: Worker)
    requires w.page.Some? && w.previous.Some?
    ensures SourcesUnchanged(s, w.page.value.documents) && GroupsAgree(s, Projected(w)) <==> NothingMoved(s, w)
  {
    forall k ensures k in Projected(w) <==> k in w.previous.value || k in Identities(w.page.value.documents)
             ensures k in Projected(w) ==>
               Projected(w)[k].sources == Joined(SourcesOf(w.previous.value), w.page.value.documents, k)
    {
      SentGroups(w, k);
    }
  }

  /** A page is committed exactly while it is outstanding, on a job as read, in the library's epoch, when nothing
      has moved; it blocks the job exactly if only the epoch has moved; sent again, or to a job that no longer
      discovers, it is acknowledged without a change. */
  lemma CommitDecides(s: State, w: Worker, leaseLive: bool)
    requires w.page.Some? && w.previous.Some?
    ensures var outcome, going := CommitOutcome(s, w, leaseLive), Outstanding(s, w, leaseLive) && JobAsRead(s, w);
      && (outcome.Committed? <==> going && w.page.value.epoch == s.epoch && NothingMoved(s, w))
      && (outcome.BlockedNow? <==> going && w.page.value.epoch != s.epoch)
      && (outcome.Unchanged? <==>
            s.job.phase != Discover || (s.job.lease == Some(w.owner) && leaseLive && SentBefore(s, w)))
  {
    GroupsAgreeExactly(s, w);
  }

  /** A commit stores each touched group with the page's cards behind what was read, under the next revision,
      leaves every other group, and moves the job by the page. */
  lemma CommitLeaves(s: State, w: Worker, k: nat)
    requires w.page.Some? && w.previous.Some?
    ensures var page, t := w.page.value, Commit(s, w);
      var digest := PageDigest(w.existing.cursor, page);
      var revision := Chained(if w.existing.revision.Some? then w.existing.revision.value
                              else Initial(w.existing.scan, page.epoch), digest);
      && t.library == s.library && t.epoch == s.epoch
      && t.job.scan == w.existing.scan && t.job.phase == (if page.terminal then Discovered else Discover)
      && t.job.cursor == page.cursor && t.job.epoch == Some(page.epoch) && t.job.revision == Some(revision)
      && t.job.sourceCount == w.existing.sourceCount + |page.documents| && t.job.lastPage == Some(digest)
      && t.job.lease == None
      && Lookup(t.groups, k)
         == if k in w.previous.value || k in Identities(page.documents)
            then Some(Group(Joined(SourcesOf(w.previous.value), page.documents, k), w.existing.scan, page.epoch,
                            revision))
            else Lookup(s.groups, k)
  {
    SentGroups(w, k);
  }
}
