/**
 When each step of the shared-deck migration acts (functions/src/legacySharedDeckMigration.ts:2050-2086,
 2416-2430, 2455-2987): exactly which entries an apply takes, which pages a scan reads, and when each
 transaction goes through.
 */
module SharedDeckActs {
  import opened Prelude
  import opened SharedDeckMigration

  // ----- one entry -----

  /** A pair that apply can rewrite: the sealed sources, with a payload, a public creation time and an expiry. */
  predicate Rewritable(e: Entry, h: Held) {
    && h.pub == e.publicSource && h.priv == e.privateSource
    && h.pub.Some? && e.payload.Some? && h.pub.value.payload == e.payload && h.pub.value.createdAt.Some?
    && (e.existingExpiresAt.Some? || e.proposedExpiresAt.Some?)
  }

  ghost predicate InFinalForm(inv: Inventory, e: Entry, h: Held) {
    exists millis :: FinalPair(inv, e, h, millis)
  }

  predicate Filed(e: Entry, h: Held) {
    h.copy == Some(Copy(e.shareId, e.publicSource, e.privateSource, e.publicSource, e.privateSource))
  }

  lemma FinalFormExactly(inv: Inventory, e: Entry, h: Held)
    ensures AppliedPair(inv, e, h) <==> InFinalForm(inv, e, h)
  {
    if SourceExpiresAt(e, inv.scanStartedAt).Some? {
      var millis := Millis(SourceExpiresAt(e, inv.scanStartedAt).value);
      ExpiryIs(e, inv.scanStartedAt, millis);
      AppliedPairIs(inv, e, h, millis);
      assert AppliedPair(inv, e, h) <==> FinalPair(inv, e, h, millis);
    }
    if millis :| FinalPair(inv, e, h, millis) { AppliedPairIs(inv, e, h, millis); }
  }

  /** An apply takes an entry exactly when it is in its final form or can be brought into it: a deck to set
      aside while it is as sealed, any other deck in final form or rewritable. */
  lemma ApplyTakesExactly(inv: Inventory, e: Entry, h: Held)
    ensures ApplyEntry(inv, e, h, false).Some? <==>
      if e.action == SetAside then h.pub == e.publicSource && h.priv == e.privateSource
      else InFinalForm(inv, e, h) || Rewritable(e, h)
  {
    FinalFormExactly(inv, e, h);
  }

  /** A validation passes exactly what an apply would leave as it is, and changes nothing. */
  lemma ValidationPassesExactly(inv: Inventory, e: Entry, h: Held)
    ensures ApplyEntry(inv, e, h, true) ==
      if (if e.action == SetAside then h.pub == e.publicSource && h.priv == e.privateSource && Filed(e, h)
          else InFinalForm(inv, e, h)) then Some(h) else None
  {
    FinalFormExactly(inv, e, h);
  }

  /** A blocked deck and one set aside have no share. */
  lemma NoShare(inv: Inventory, e: Entry)
    requires e.action == Block || e.action == SetAside
    ensures ShareOf(inv, e) == None
  {
  }

  // ----- the pages of a scan -----

  predicate Behind(after: Option<nat>, id: nat) {
    after.Some? ==> after.value < id
  }

  /** The page holds the next ids behind the cursor: two of them in order, or all that are left. */
  ghost predicate NextIds(keys: set<nat>, after: Option<nat>, page: seq<nat>) {
    && (forall k :: 0 <= k < |page| ==> page[k] in keys && Behind(after, page[k]))
    && match |page|
       case 0 => forall id :: id in keys ==> !Behind(after, id)
       case 1 => forall id :: id in keys && Behind(after, id) ==> id == page[0]
       case 2 => page[0] < page[1]
                 && forall id :: id in keys && Behind(after, id) ==> id == page[0] || id == page[1] || page[1] < id
       case _ => false
  }

  lemma PageIsNextIds(keys: set<nat>, after: Option<nat>, page: seq<nat>)
    ensures IsPage(keys, after, page) <==> NextIds(keys, after, page)
  {
    if NextIds(keys, after, page) {
      assert forall k :: 0 <= k < |page| ==> page[k] in page;
    }
    if IsPage(keys, after, page) {
      forall id | id in keys && Behind(after, id)
        ensures id in page || (|page| == 2 && page[1] < id)
      {
      }
    }
  }

  /** So a cursor has one page. */
  lemma OnePage(keys: set<nat>, after: Option<nat>, page: seq<nat>, other: seq<nat>)
    requires IsPage(keys, after, page) && IsPage(keys, after, other)
    ensures page == other
  {
    PageIsNextIds(keys, after, page);
    PageIsNextIds(keys, after, other);
    SamePage(keys, after, page, other);
    SamePage(keys, after, other, page);
  }

  lemma SamePage(keys: set<nat>, after: Option<nat>, page: seq<nat>, other: seq<nat>)
    requires NextIds(keys, after, page) && NextIds(keys, after, other)
    ensures |page| <= |other| && forall k :: 0 <= k < |page| ==> page[k] == other[k]
  {
    assert |page| > 0 ==> page[0] in keys && Behind(after, page[0]);
    assert |page| > 1 ==> page[1] in keys && Behind(after, page[1]);
    assert |other| > 0 ==> other[0] in keys && Behind(after, other[0]);
    assert |other| > 1 ==> other[1] in keys && Behind(after, other[1]);
  }

  // ----- the transactions -----

  predicate Complete(s: Store) {
    s.state.phase == Applied || s.state.phase == Verified
  }

  predicate Scanning(s: Store) {
    s.state.scan.Some? && s.state.scan.value.active
  }

  /** An apply transaction is refused while a verification runs before the apply is complete. */
  predicate Blocked(s: Store) {
    Scanning(s) && !Complete(s)
  }

  /** The verification runs over a complete apply with its ledger. */
  predicate Verifying(s: Store) {
    Scanning(s) && Complete(s) && s.state.ledgerReady
  }

  lemma StartActsExactly(inv: Inventory, s: Store)
    ensures Next(inv, s, StartApply) ==
      if s.state.phase == Sealed && !Blocked(s)
      then s.(state := State(Applying, 0, false, s.state.scan)) else s
  {
  }

  /** Entry i is applied exactly as the next one of an apply under way that can take it. */
  lemma BatchActsExactly(inv: Inventory, s: Store, i: nat)
    ensures Next(inv, s, ApplyBatch(i)) != s <==>
      && i < |inv.entries| && s.state.phase == Applying && s.state.nextEntry == i && !Blocked(s)
      && ApplyEntry(inv, inv.entries[i], At(s, inv.entries[i].shareId), false).Some?
  {
    if i < |inv.entries| && s.state.phase == Applying && s.state.nextEntry == i
       && ApplyEntry(inv, inv.entries[i], At(s, inv.entries[i].shareId), false).Some?
    {
      BatchMoves(inv, s, i);
    }
  }

  lemma BatchMoves(inv: Inventory, s: Store, i: nat)
    requires i < |inv.entries|
    requires s.state.phase == Applying && s.state.nextEntry == i
    requires ApplyEntry(inv, inv.entries[i], At(s, inv.entries[i].shareId), false).Some?
    ensures ApplyBatchStep(inv, s, i).state == State(Applying, i + 1, false, s.state.scan)
  {
  }

  /** The apply ends exactly past its last entry, with the expected ledger, unless another one stands. */
  lemma FinishActsExactly(inv: Inventory, s: Store)
    ensures Next(inv, s, FinishApply) ==
      if s.state.phase == Applying && s.state.nextEntry == |inv.entries| && !Blocked(s)
         && (s.usage.None? || s.usage.value == ExpectedUsage(inv))
      then s.(usage := Some(ExpectedUsage(inv)), state := State(Applied, s.state.nextEntry, true, s.state.scan)) else s
  {
  }

  /** A verification begins afresh exactly over a complete apply with its ledger, while none runs. */
  lemma BeginVerifyActsExactly(inv: Inventory, s: Store)
    ensures Next(inv, s, BeginVerify) ==
      if Complete(s) && s.state.ledgerReady && !Scanning(s)
      then s.(state := s.state.(scan := Some(Scan(true, None, None, false, false, 0)))) else s
  {
  }

  /** A scan moves past exactly the page behind its cursor, when each deck on it is a sealed entry that
      verifies; and reaches the end with a page that is not full. */
  lemma PublicPageActsExactly(inv: Inventory, s: Store, after: Option<nat>, page: seq<nat>)
    ensures Next(inv, s, PublicPage(after, page)) ==
      if Verifying(s) && s.state.scan.value.publicCursor == after && NextIds(s.publicDocs.Keys, after, page)
         && DecksVerify(inv, s, page)
      then WithScan(s, s.state.scan.value.(
        publicCursor := if page == [] then after else Some(page[|page| - 1]), publicTerminal := |page| < 2)) else s
  {
    PageIsNextIds(s.publicDocs.Keys, after, page);
    PageVerifies(inv, s, page);
  }

  lemma PrivatePageActsExactly(inv: Inventory, s: Store, after: Option<nat>, page: seq<nat>)
    ensures Next(inv, s, PrivatePage(after, page)) ==
      if Verifying(s) && s.state.scan.value.privateCursor == after && NextIds(s.privateDocs.Keys, after, page)
         && DecksVerify(inv, s, page)
      then WithScan(s, s.state.scan.value.(
        privateCursor := if page == [] then after else Some(page[|page| - 1]), privateTerminal := |page| < 2)) else s
  {
    PageIsNextIds(s.privateDocs.Keys, after, page);
    PageVerifies(inv, s, page);
  }

  ghost predicate DeckVerifies(inv: Inventory, s: Store, id: nat) {
    exists i: nat :: EntryAt(inv, i, id) && Verifies(inv, inv.entries[i], At(s, id))
  }

  ghost predicate DecksVerify(inv: Inventory, s: Store, page: seq<nat>) {
    forall k :: 0 <= k < |page| ==> DeckVerifies(inv, s, page[k])
  }

  lemma DeckVerifiesExactly(inv: Inventory, s: Store, id: nat)
    ensures SourceAccepted(inv, s, id) <==> DeckVerifies(inv, s, id)
  {
    if i: nat :| EntryAt(inv, i, id) && Accepted(inv, inv.entries[i], At(s, id)) {
      AcceptedMeans(inv, inv.entries[i], At(s, id));
    }
    if i: nat :| EntryAt(inv, i, id) && Verifies(inv, inv.entries[i], At(s, id)) {
      AcceptedMeans(inv, inv.entries[i], At(s, id));
      assert SourceAccepted(inv, s, id);
    }
  }

  lemma PageVerifies(inv: Inventory, s: Store, page: seq<nat>)
    ensures PageAccepted(inv, s, page) <==> DecksVerify(inv, s, page)
  {
    forall k | 0 <= k < |page| ensures SourceAccepted(inv, s, page[k]) <==> DeckVerifies(inv, s, page[k]) {
      DeckVerifiesExactly(inv, s, page[k]);
    }
  }

  /** The pass over the sealed entries moves by the next two that verify. */
  lemma SealedPageActsExactly(inv: Inventory, s: Store, offset: nat)
    ensures var to := if offset + 2 < |inv.entries| then offset + 2 else |inv.entries|;
      Next(inv, s, SealedPage(offset)) ==
      if Verifying(s) && offset < |inv.entries| && s.state.scan.value.sealedCursor == offset
         && (forall i: nat :: offset <= i < to ==> Verifies(inv, inv.entries[i], At(s, inv.entries[i].shareId)))
      then WithScan(s, s.state.scan.value.(sealedCursor := to)) else s
  {
    forall i: nat | i < |inv.entries|
      ensures Accepted(inv, inv.entries[i], At(s, inv.entries[i].shareId))
         <==> Verifies(inv, inv.entries[i], At(s, inv.entries[i].shareId))
    {
      AcceptedMeans(inv, inv.entries[i], At(s, inv.entries[i].shareId));
    }
  }

  /** And the verification ends exactly when all three scans have, over the expected ledger. */
  lemma FinishVerifyActsExactly(inv: Inventory, s: Store)
    ensures Next(inv, s, FinishVerify) ==
      if Verifying(s) && s.state.scan.value.publicTerminal && s.state.scan.value.privateTerminal
         && s.state.scan.value.sealedCursor == |inv.entries| && s.usage == Some(ExpectedUsage(inv))
      then s.(state := s.state.(phase := Verified, scan := Some(s.state.scan.value.(active := false)))) else s
  {
  }
}
