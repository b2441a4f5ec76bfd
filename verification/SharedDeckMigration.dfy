/**
 Applying and verifying the sealed shared-deck inventory
 (functions/src/legacySharedDeckMigration.ts:2050-2086, 2412-2724, 2733-2987).  Every transaction is
 one atomic step that re-reads the stored state, so a run of any workers, crashed and restarted
 anywhere, is a sequence of such steps.  A digest stands for the digested document.
 */
module SharedDeckMigration {
  import opened Prelude

  const TTL_MILLIS: int := 30 * 24 * 60 * 60 * 1000
  const MAX_VERIFY_ENTRIES: nat := 2

  // ----- documents -----

  /** An instant is a number of nanoseconds. */
  function Millis(instant: int): int { instant / 1000000 }

  function FromMillis(millis: int): int { millis * 1000000 }

  datatype Payload = Payload(content: nat, bytes: nat)

  /** `extra` is everything else a document holds: 0 means no other key, and native timestamps.
      A payload is None when it is not exactly a deck payload. */
  datatype PublicDoc = PublicDoc(
    schema: nat, payload: Option<Payload>, createdAt: Option<int>, expiresAt: Option<int>, extra: nat)

  datatype PrivateDoc = PrivateDoc(
    schema: nat, owner: nat, payloadBytes: Option<nat>, createdAt: Option<int>, expiresAt: Option<int>, extra: nat)

  /** A quarantine envelope: the copied documents and the digests it was filed under. */
  datatype Copy = Copy(
    shareId: nat, publicData: Option<PublicDoc>, privateData: Option<PrivateDoc>,
    publicDigest: Option<PublicDoc>, privateDigest: Option<PrivateDoc>)

  datatype Action = Keep | Migrate | SetAside | Block

  datatype Entry = Entry(
    shareId: nat, action: Action,
    publicSource: Option<PublicDoc>, privateSource: Option<PrivateDoc>,
    payload: Option<Payload>,
    publicCreatedAt: Option<int>, privateCreatedAt: Option<int>,
    existingExpiresAt: Option<int>, proposedExpiresAt: Option<int>)

  datatype Inventory = Inventory(owner: nat, scanStartedAt: int, entries: seq<Entry>)

  predicate Ascending(entries: seq<Entry>) {
    forall i, j :: 0 <= i < j < |entries| ==> entries[i].shareId < entries[j].shareId
  }

  /** The documents stored under one share id. */
  datatype Held = Held(pub: Option<PublicDoc>, priv: Option<PrivateDoc>, copy: Option<Copy>)

  // ----- the final form of a pair -----

  /** The expiry a pair is given: its own or the proposed one, no later than the scan plus 30 days. */
  function SourceExpiresAt(e: Entry, scan: int): Option<int> {
    var candidate := if e.existingExpiresAt.Some? then e.existingExpiresAt
                     else if e.proposedExpiresAt.Some? then Some(FromMillis(e.proposedExpiresAt.value))
                     else None;
    if candidate.None? then None else Some(FromMillis(Min(Millis(candidate.value), scan + TTL_MILLIS)))
  }

  predicate AppliedPair(inv: Inventory, e: Entry, h: Held) {
    && h.pub.Some? && h.priv.Some?
    && var pub, priv := h.pub.value, h.priv.value;
    && pub.extra == 0 && priv.extra == 0 && pub.schema == 2 && priv.schema == 2
    && priv.owner == inv.owner
    && e.payload.Some? && priv.payloadBytes == Some(e.payload.value.bytes) && pub.payload == e.payload
    && var expiry := SourceExpiresAt(e, inv.scanStartedAt);
    && var privateCreatedAt := if e.privateCreatedAt.Some? then e.privateCreatedAt else e.publicCreatedAt;
    && e.publicCreatedAt.Some? && pub.createdAt == e.publicCreatedAt
    && privateCreatedAt.Some? && priv.createdAt == privateCreatedAt
    && expiry.Some? && priv.expiresAt.Some? && pub.expiresAt.Some?
    && Millis(priv.expiresAt.value) == Millis(expiry.value)
    && Millis(pub.expiresAt.value) == Millis(expiry.value)
  }

  predicate CopyMatches(copy: Option<Copy>, e: Entry) {
    copy.Some? && copy.value == Copy(e.shareId, e.publicSource, e.privateSource, e.publicSource, e.privateSource)
  }

  predicate AsSealed(e: Entry, h: Held) {
    h.pub == e.publicSource && h.priv == e.privateSource
  }

  /** The pair that apply writes for a copyable entry. */
  predicate WrittenPair(inv: Inventory, e: Entry, h: Held) {
    && e.publicSource.Some? && e.payload.Some?
    && var expiry := SourceExpiresAt(e, inv.scanStartedAt);
    && e.publicSource.value.createdAt.Some? && expiry.Some?
    && e.publicSource.value.payload == e.payload
    && var createdAt := e.publicSource.value.createdAt;
    && h.pub == Some(PublicDoc(2, e.payload, createdAt, expiry, 0))
    && h.priv == Some(PrivateDoc(2, inv.owner, Some(e.payload.value.bytes), createdAt, expiry, 0))
  }

  /** What the entry's documents are once apply has passed it. */
  predicate Final(inv: Inventory, e: Entry, h: Held) {
    if e.action == SetAside then AsSealed(e, h) && CopyMatches(h.copy, e)
    else AppliedPair(inv, e, h) || WrittenPair(inv, e, h)
  }

  /** What the verifying scan accepts. */
  predicate Accepted(inv: Inventory, e: Entry, h: Held) {
    if e.action == Block then false
    else if e.action == SetAside then AsSealed(e, h) && CopyMatches(h.copy, e)
    else AppliedPair(inv, e, h)
  }

  // ----- one entry of an apply transaction -----

  /** None refuses; otherwise the documents to hold from now on. */
  function ApplyEntry(inv: Inventory, e: Entry, h: Held, validationOnly: bool): Option<Held> {
    if e.action == SetAside then
      if !AsSealed(e, h) then None
      else if CopyMatches(h.copy, e) then Some(h)
      else if validationOnly then None
      else Some(h.(copy := Some(Copy(e.shareId, h.pub, h.priv, e.publicSource, e.privateSource))))
    else if AppliedPair(inv, e, h) then Some(h)
    else if validationOnly then None
    else if !AsSealed(e, h) then None
    else if h.pub.None? || e.payload.None? then None
    else
      var createdAt, expiry := h.pub.value.createdAt, SourceExpiresAt(e, inv.scanStartedAt);
      if createdAt.None? || expiry.None? || h.pub.value.payload != e.payload then None
      else Some(Held(Some(PublicDoc(2, e.payload, createdAt, expiry, 0)),
                     Some(PrivateDoc(2, inv.owner, Some(e.payload.value.bytes), createdAt, expiry, 0)),
                     h.copy))
  }

  lemma ApplyEntryIsFinal(inv: Inventory, e: Entry, h: Held, validationOnly: bool)
    requires ApplyEntry(inv, e, h, validationOnly).Some?
    ensures Final(inv, e, ApplyEntry(inv, e, h, validationOnly).value)
    ensures validationOnly ==> ApplyEntry(inv, e, h, validationOnly) == Some(h)
  {
  }

  /** The inventory copies each source's creation time into the entry. */
  predicate CopiesTimes(e: Entry) {
    && e.publicCreatedAt == (if e.publicSource.Some? then e.publicSource.value.createdAt else None)
    && e.privateCreatedAt == (if e.privateSource.Some? then e.privateSource.value.createdAt else None)
  }

  /** Applying an entry again changes nothing, exactly when the entry's private creation time is
      absent or equal to the public one.  A private time that agrees only to the millisecond makes
      the retry refuse its own result. */
  lemma RetryIsIdempotentExactly(inv: Inventory, e: Entry, h: Held)
    requires e.action != SetAside && CopiesTimes(e) && !AppliedPair(inv, e, h)
    requires ApplyEntry(inv, e, h, false).Some?
    ensures var t := ApplyEntry(inv, e, h, false).value;
      && WrittenPair(inv, e, t)
      && (AppliedPair(inv, e, t) <==> e.privateCreatedAt.None? || e.privateCreatedAt == e.publicCreatedAt)
      && (ApplyEntry(inv, e, t, false) == Some(t) <==>
            e.privateCreatedAt.None? || e.privateCreatedAt == e.publicCreatedAt)
  {
  }

  /** Such an entry: both times fall in the same millisecond, as the classification requires, and the
      pair written for it is neither recognised as applied nor as the sealed source. */
  lemma SubMillisecondTimeIsStuck()
    ensures exists inv, e, h ::
      && CopiesTimes(e) && e.action == Migrate && AsSealed(e, h)
      && e.privateCreatedAt.Some? && e.publicCreatedAt.Some?
      && Millis(e.privateCreatedAt.value) == Millis(e.publicCreatedAt.value)
      && ApplyEntry(inv, e, h, false).Some?
      && ApplyEntry(inv, e, ApplyEntry(inv, e, h, false).value, false).None?
  {
    var pub := PublicDoc(1, Some(Payload(7, 100)), Some(5000000), None, 1);
    var priv := PrivateDoc(1, 3, None, Some(5000001), Some(9000000), 0);
    var e := Entry(1, Migrate, Some(pub), Some(priv), Some(Payload(7, 100)),
                   Some(5000000), Some(5000001), Some(9000000), None);
    var inv, h := Inventory(3, 0, [e]), Held(Some(pub), Some(priv), None);
    var t := ApplyEntry(inv, e, h, false);
    assert t.Some? && ApplyEntry(inv, e, t.value, false).None?;
  }

  // ----- the ledger -----

  datatype Share = Share(payloadBytes: nat, expiresAt: int)

  datatype Ledger = Ledger(shares: map<nat, Share>, activeCount: nat, activeBytes: nat)

  function ShareOf(inv: Inventory, e: Entry): Option<Share> {
    var expiry := SourceExpiresAt(e, inv.scanStartedAt);
    if e.action == SetAside || e.action == Block || e.payload.None? then None
    else if expiry.None? || Millis(expiry.value) <= inv.scanStartedAt then None
    else Some(Share(e.payload.value.bytes, expiry.value))
  }

  function ExpectedShares(inv: Inventory, n: nat): map<nat, Share>
    requires n <= |inv.entries|
  {
    if n == 0 then map[]
    else
      var e, rest := inv.entries[n - 1], ExpectedShares(inv, n - 1);
      match ShareOf(inv, e)
      case None => rest
      case Some(share) => rest[e.shareId := share]
  }

  function ExpectedBytes(inv: Inventory, n: nat): nat
    requires n <= |inv.entries|
  {
    if n == 0 then 0
    else
      var share := ShareOf(inv, inv.entries[n - 1]);
      ExpectedBytes(inv, n - 1) + if share.Some? then share.value.payloadBytes else 0
  }

  function ExpectedUsage(inv: Inventory): Ledger {
    var shares := ExpectedShares(inv, |inv.entries|);
    Ledger(shares, |shares|, ExpectedBytes(inv, |inv.entries|))
  }

  // ----- the store and its transactions -----

  datatype Phase = Sealed | Applying | Applied | Verified

  datatype Scan = Scan(
    active: bool, publicCursor: Option<nat>, privateCursor: Option<nat>,
    publicTerminal: bool, privateTerminal: bool, sealedCursor: nat)

  datatype State = State(phase: Phase, nextEntry: nat, ledgerReady: bool, scan: Option<Scan>)

  datatype Store = Store(
    publicDocs: map<nat, PublicDoc>, privateDocs: map<nat, PrivateDoc>, copies: map<nat, Copy>,
    usage: Option<Ledger>, state: State)

  function At(s: Store, id: nat): Held {
    Held(Lookup(s.publicDocs, id), Lookup(s.privateDocs, id), Lookup(s.copies, id))
  }

  function Set<V>(m: map<nat, V>, id: nat, doc: Option<V>): map<nat, V> {
    if doc.Some? then m[id := doc.value] else m - {id}
  }

  function Hold(s: Store, id: nat, h: Held): Store {
    s.(publicDocs := Set(s.publicDocs, id, h.pub),
       privateDocs := Set(s.privateDocs, id, h.priv),
       copies := Set(s.copies, id, h.copy))
  }

  lemma HoldAt(s: Store, id: nat, h: Held, other: nat)
    ensures At(Hold(s, id, h), other) == if other == id then h else At(s, other)
  {
  }

  predicate Settled(s: Store) {
    s.state.phase == Applied || s.state.phase == Verified
  }

  /** Apply refuses while a verification is under way before the apply is complete. */
  predicate ApplyMayRun(s: Store) {
    s.state.scan.Some? && s.state.scan.value.active ==> Settled(s)
  }

  datatype Step =
    | StartApply
    | ApplyBatch(i: nat)
    | FinishApply
    | BeginVerify
    | PublicPage(after: Option<nat>, page: seq<nat>)
    | PrivatePage(after: Option<nat>, page: seq<nat>)
    | SealedPage(offset: nat)
    | FinishVerify

  /** The next two ids after the cursor, in id order, or fewer at the end of the collection. */
  ghost predicate IsPage(keys: set<nat>, after: Option<nat>, page: seq<nat>) {
    && |page| <= MAX_VERIFY_ENTRIES
    && (forall k :: 0 <= k < |page| ==> page[k] in keys && (after.Some? ==> after.value < page[k]))
    && (forall j, k :: 0 <= j < k < |page| ==> page[j] < page[k])
    && forall id :: id in keys && (after.Some? ==> after.value < id) && id !in page ==>
         |page| == MAX_VERIFY_ENTRIES && page[|page| - 1] < id
  }

  predicate EntryAt(inv: Inventory, i: nat, id: nat) {
    i < |inv.entries| && inv.entries[i].shareId == id
  }

  /** The check of one scanned id: it is in the sealed inventory and its documents are accepted. */
  ghost predicate SourceAccepted(inv: Inventory, s: Store, id: nat) {
    exists i: nat :: EntryAt(inv, i, id) && Accepted(inv, inv.entries[i], At(s, id))
  }

  ghost predicate PageAccepted(inv: Inventory, s: Store, page: seq<nat>) {
    forall k :: 0 <= k < |page| ==> SourceAccepted(inv, s, page[k])
  }

  function LastOf(page: seq<nat>, after: Option<nat>): Option<nat> {
    if page == [] then after else Some(page[|page| - 1])
  }

  predicate SealedRangeAccepted(inv: Inventory, s: Store, from: nat, to: nat) {
    forall i :: from <= i < to && i < |inv.entries| ==>
      Accepted(inv, inv.entries[i], At(s, inv.entries[i].shareId))
  }

  predicate ScanRuns(s: Store) {
    Settled(s) && s.state.ledgerReady && s.state.scan.Some? && s.state.scan.value.active
  }

  function WithScan(s: Store, scan: Scan): Store {
    s.(state := s.state.(scan := Some(scan)))
  }

  ghost function Next(inv: Inventory, s: Store, step: Step): Store {
    var n := |inv.entries|;
    match step
    case StartApply =>
      if ApplyMayRun(s) && s.state.phase == Sealed
      then s.(state := s.state.(phase := Applying, nextEntry := 0, ledgerReady := false)) else s
    case ApplyBatch(i) =>
      if i >= n || !ApplyMayRun(s) then s else ApplyBatchStep(inv, s, i)
    case FinishApply =>
      if !ApplyMayRun(s) || s.state.phase != Applying || s.state.nextEntry != n then s
      else if s.usage.Some? && s.usage.value != ExpectedUsage(inv) then s
      else s.(usage := Some(ExpectedUsage(inv)), state := s.state.(phase := Applied, ledgerReady := true))
    case BeginVerify =>
      if Settled(s) && s.state.ledgerReady && !ScanRuns(s)
      then WithScan(s, Scan(true, None, None, false, false, 0)) else s
    case PublicPage(after, page) =>
      if !ScanRuns(s) || s.state.scan.value.publicCursor != after || !IsPage(s.publicDocs.Keys, after, page)
         || !PageAccepted(inv, s, page)
      then s
      else WithScan(s, s.state.scan.value.(publicCursor := LastOf(page, after),
                                           publicTerminal := |page| < MAX_VERIFY_ENTRIES))
    case PrivatePage(after, page) =>
      if !ScanRuns(s) || s.state.scan.value.privateCursor != after || !IsPage(s.privateDocs.Keys, after, page)
         || !PageAccepted(inv, s, page)
      then s
      else WithScan(s, s.state.scan.value.(privateCursor := LastOf(page, after),
                                           privateTerminal := |page| < MAX_VERIFY_ENTRIES))
    case SealedPage(offset) =>
      var to := Min(offset + MAX_VERIFY_ENTRIES, n);
      if !ScanRuns(s) || offset >= n || s.state.scan.value.sealedCursor != offset
         || !SealedRangeAccepted(inv, s, offset, to)
      then s
      else WithScan(s, s.state.scan.value.(sealedCursor := to))
    case FinishVerify =>
      if !ScanRuns(s) then s
      else
        var scan := s.state.scan.value;
        if !scan.publicTerminal || !scan.privateTerminal || scan.sealedCursor != n
           || s.usage != Some(ExpectedUsage(inv))
        then s
        else s.(state := s.state.(phase := Verified, scan := Some(scan.(active := false))))
  }

  function ApplyBatchStep(inv: Inventory, s: Store, i: nat): Store
    requires i < |inv.entries|
  {
    var e := inv.entries[i];
    if !Settled(s) && !(s.state.phase == Applying && s.state.nextEntry == i) then s
    else
      var held := ApplyEntry(inv, e, At(s, e.shareId), Settled(s));
      if held.None? || Settled(s) then s
      else Hold(s, e.shareId, held.value).(
        state := s.state.(phase := Applying, nextEntry := i + 1, ledgerReady := false))
  }

  ghost function Run(inv: Inventory, s: Store, steps: seq<Step>): Store
    decreases steps
  {
    if steps == [] then s else Run(inv, Next(inv, s, steps[0]), steps[1..])
  }

  // ----- the invariant -----

  /** How many entries apply has passed. */
  function Passed(inv: Inventory, s: Store): nat {
    match s.state.phase
    case Sealed => 0
    case Applying => Min(s.state.nextEntry, |inv.entries|)
    case _ => |inv.entries|
  }

  /** The entry's documents are what one application to the starting documents makes of them. */
  ghost predicate AppliedOnce(inv: Inventory, e: Entry, start: Store, s: Store) {
    ApplyEntry(inv, e, At(start, e.shareId), false) == Some(At(s, e.shareId))
  }

  /** Entries apply has passed were applied once; every other document is what it was at the start. */
  ghost predicate DocsInv(inv: Inventory, start: Store, s: Store) {
    && (s.state.phase == Applying ==> s.state.nextEntry <= |inv.entries|)
    && (forall i: nat :: i < Passed(inv, s) ==> AppliedOnce(inv, inv.entries[i], start, s))
    && (forall id :: (forall i: nat :: i < Passed(inv, s) ==> inv.entries[i].shareId != id) ==>
          At(s, id) == At(start, id))
  }

  ghost predicate UsageInv(inv: Inventory, s: Store) {
    Settled(s) ==> s.usage == Some(ExpectedUsage(inv)) && s.state.ledgerReady
  }

  ghost predicate ScannedTo(inv: Inventory, s: Store, keys: set<nat>, cursor: Option<nat>, terminal: bool) {
    forall id :: id in keys && (terminal || (cursor.Some? && id <= cursor.value)) ==> SourceAccepted(inv, s, id)
  }

  ghost predicate ScanInv(inv: Inventory, s: Store) {
    s.state.scan.Some? ==>
      var scan := s.state.scan.value;
      && Settled(s)
      && scan.sealedCursor <= |inv.entries|
      && ScannedTo(inv, s, s.publicDocs.Keys, scan.publicCursor, scan.publicTerminal)
      && ScannedTo(inv, s, s.privateDocs.Keys, scan.privateCursor, scan.privateTerminal)
      && SealedRangeAccepted(inv, s, 0, scan.sealedCursor)
  }

  /** The whole library is accounted for: every sealed entry is accepted and nothing else exists. */
  ghost predicate CutOver(inv: Inventory, s: Store) {
    && SealedRangeAccepted(inv, s, 0, |inv.entries|)
    && (forall id :: id in s.publicDocs || id in s.privateDocs ==> SourceAccepted(inv, s, id))
    && s.usage == Some(ExpectedUsage(inv))
  }

  ghost predicate Inv(inv: Inventory, start: Store, s: Store) {
    && DocsInv(inv, start, s)
    && UsageInv(inv, s)
    && ScanInv(inv, s)
    && (s.state.phase == Verified ==> CutOver(inv, s))
  }

  /** A freshly sealed migration, over any documents whatever. */
  predicate Initial(s: Store) {
    s.state == State(Sealed, 0, false, None)
  }

  lemma InitialInv(inv: Inventory, s: Store)
    requires Initial(s)
    ensures Inv(inv, s, s)
  {
  }

  // ----- apply keeps the invariant -----

  lemma EntryIdsDiffer(inv: Inventory, i: nat, j: nat)
    requires Ascending(inv.entries) && i < |inv.entries| && j < |inv.entries| && i != j
    ensures inv.entries[i].shareId != inv.entries[j].shareId
  {
  }

  lemma UntouchedBefore(inv: Inventory, start: Store, s: Store, i: nat)
    requires Ascending(inv.entries) && DocsInv(inv, start, s) && Passed(inv, s) <= i < |inv.entries|
    ensures At(s, inv.entries[i].shareId) == At(start, inv.entries[i].shareId)
  {
    forall k: nat | k < Passed(inv, s) ensures inv.entries[k].shareId != inv.entries[i].shareId {
      EntryIdsDiffer(inv, i, k);
    }
  }

  /** While entries are being applied no scan is recorded, so writing them disturbs none. */
  lemma ApplyBatchKeepsInv(inv: Inventory, start: Store, s: Store, i: nat)
    requires Ascending(inv.entries) && Inv(inv, start, s)
    ensures Inv(inv, start, Next(inv, s, ApplyBatch(i)))
  {
    var t := Next(inv, s, ApplyBatch(i));
    if t != s {
      var e := inv.entries[i];
      var held := ApplyEntry(inv, e, At(s, e.shareId), false).value;
      assert Passed(inv, s) == i && Passed(inv, t) == i + 1;
      forall id ensures At(t, id) == if id == e.shareId then held else At(s, id) {
        HoldAt(s, e.shareId, held, id);
      }
      forall k: nat | k < i + 1 ensures AppliedOnce(inv, inv.entries[k], start, t) {
        if k < i {
          EntryIdsDiffer(inv, k, i);
          assert AppliedOnce(inv, inv.entries[k], start, s);
        } else {
          UntouchedBefore(inv, start, s, i);
        }
      }
      forall id | forall k: nat :: k < i + 1 ==> inv.entries[k].shareId != id ensures At(t, id) == At(start, id) {
        assert inv.entries[i].shareId != id;
        assert forall k: nat :: k < i ==> inv.entries[k].shareId != id;
      }
    }
  }

  // ----- the scan keeps the invariant -----

  /** Transactions that leave the documents and the ledger alone. */
  lemma ScanStepKeepsDocs(inv: Inventory, start: Store, s: Store, t: Store)
    requires Inv(inv, start, s) && Settled(s)
    requires t == s.(state := t.state) && t.state == s.state.(scan := t.state.scan)
    ensures DocsInv(inv, start, t) && UsageInv(inv, t) && (t.state.phase == Verified ==> CutOver(inv, t))
  {
    assert Passed(inv, t) == Passed(inv, s);
    assert forall id :: At(t, id) == At(s, id);
    assert forall id :: SourceAccepted(inv, t, id) <==> SourceAccepted(inv, s, id);
  }

  lemma PageExtends(inv: Inventory, s: Store, keys: set<nat>, after: Option<nat>, terminal: bool, page: seq<nat>)
    requires ScannedTo(inv, s, keys, after, terminal) && IsPage(keys, after, page) && PageAccepted(inv, s, page)
    ensures ScannedTo(inv, s, keys, LastOf(page, after), |page| < MAX_VERIFY_ENTRIES)
  {
    forall id | id in keys && (|page| < MAX_VERIFY_ENTRIES
                               || (LastOf(page, after).Some? && id <= LastOf(page, after).value))
      ensures SourceAccepted(inv, s, id)
    {
      PageCovers(keys, after, page, id);
      if id in page { var k :| 0 <= k < |page| && page[k] == id; }
    }
  }

  lemma PageCovers(keys: set<nat>, after: Option<nat>, page: seq<nat>, id: nat)
    requires IsPage(keys, after, page) && id in keys
    requires |page| < MAX_VERIFY_ENTRIES || (LastOf(page, after).Some? && id <= LastOf(page, after).value)
    ensures id in page || (after.Some? && id <= after.value)
  {
  }

  lemma PageStepKeepsInv(inv: Inventory, start: Store, s: Store, step: Step)
    requires Inv(inv, start, s) && (step.PublicPage? || step.PrivatePage?)
    ensures Inv(inv, start, Next(inv, s, step))
  {
    var t := Next(inv, s, step);
    if t != s {
      var scan := s.state.scan.value;
      ScanStepKeepsDocs(inv, start, s, t);
      assert forall id :: SourceAccepted(inv, t, id) <==> SourceAccepted(inv, s, id);
      if step.PublicPage? {
        PageExtends(inv, s, s.publicDocs.Keys, scan.publicCursor, scan.publicTerminal, step.page);
      } else {
        PageExtends(inv, s, s.privateDocs.Keys, scan.privateCursor, scan.privateTerminal, step.page);
      }
      assert SealedRangeAccepted(inv, t, 0, scan.sealedCursor);
    }
  }

  lemma SealedStepKeepsInv(inv: Inventory, start: Store, s: Store, offset: nat)
    requires Inv(inv, start, s)
    ensures Inv(inv, start, Next(inv, s, SealedPage(offset)))
  {
    var t := Next(inv, s, SealedPage(offset));
    if t != s {
      ScanStepKeepsDocs(inv, start, s, t);
      assert forall id :: SourceAccepted(inv, t, id) <==> SourceAccepted(inv, s, id);
    }
  }

  lemma BeginVerifyKeepsInv(inv: Inventory, start: Store, s: Store)
    requires Inv(inv, start, s)
    ensures Inv(inv, start, Next(inv, s, BeginVerify))
  {
    var t := Next(inv, s, BeginVerify);
    if t != s { ScanStepKeepsDocs(inv, start, s, t); }
  }

  lemma FinishVerifyKeepsInv(inv: Inventory, start: Store, s: Store)
    requires Inv(inv, start, s)
    ensures Inv(inv, start, Next(inv, s, FinishVerify))
  {
    var t := Next(inv, s, FinishVerify);
    if t != s { VerifiedKeepsInv(inv, start, s, t); }
  }

  /** Only the scan and the phase change; what is accepted stays accepted, and the scan was complete. */
  lemma VerifiedKeepsInv(inv: Inventory, start: Store, s: Store, t: Store)
    requires Inv(inv, start, s) && ScanRuns(s) && s.usage == Some(ExpectedUsage(inv))
    requires var scan := s.state.scan.value;
      && scan.publicTerminal && scan.privateTerminal && scan.sealedCursor == |inv.entries|
      && t == s.(state := s.state.(phase := Verified, scan := Some(scan.(active := false))))
    ensures Inv(inv, start, t)
  {
    assert Passed(inv, t) == Passed(inv, s);
    forall id ensures At(t, id) == At(s, id) && (SourceAccepted(inv, t, id) <==> SourceAccepted(inv, s, id)) {
      SameAt(inv, s, t, id);
    }
  }

  lemma SameAt(inv: Inventory, s: Store, t: Store, id: nat)
    requires At(t, id) == At(s, id)
    ensures SourceAccepted(inv, t, id) <==> SourceAccepted(inv, s, id)
  {
  }

  lemma ApplyEdgesKeepInv(inv: Inventory, start: Store, s: Store, step: Step)
    requires Inv(inv, start, s) && (step.StartApply? || step.FinishApply?)
    ensures Inv(inv, start, Next(inv, s, step))
  {
    var t := Next(inv, s, step);
    if t != s {
      assert Passed(inv, t) == Passed(inv, s);
      assert forall id :: At(t, id) == At(s, id);
    }
  }

  /** Every transaction, by any worker at any moment, keeps the invariant. */
  lemma NextKeepsInv(inv: Inventory, start: Store, s: Store, step: Step)
    requires Ascending(inv.entries) && Inv(inv, start, s)
    ensures Inv(inv, start, Next(inv, s, step))
  {
    match step
    case ApplyBatch(i) => ApplyBatchKeepsInv(inv, start, s, i);
    case StartApply => ApplyEdgesKeepInv(inv, start, s, step);
    case FinishApply => ApplyEdgesKeepInv(inv, start, s, step);
    case BeginVerify => BeginVerifyKeepsInv(inv, start, s);
    case PublicPage(_, _) => PageStepKeepsInv(inv, start, s, step);
    case PrivatePage(_, _) => PageStepKeepsInv(inv, start, s, step);
    case SealedPage(offset) => SealedStepKeepsInv(inv, start, s, offset);
    case FinishVerify => FinishVerifyKeepsInv(inv, start, s);
  }

  lemma {:induction false} RunKeepsInv(inv: Inventory, start: Store, s: Store, steps: seq<Step>)
    requires Ascending(inv.entries) && Inv(inv, start, s)
    ensures Inv(inv, start, Run(inv, s, steps))
    decreases |steps|
  {
    if steps != [] {
      NextKeepsInv(inv, start, s, steps[0]);
      RunKeepsInv(inv, start, Next(inv, s, steps[0]), steps[1..]);
    }
  }

  // ----- what every run guarantees -----

  /** Along every run from any starting documents, crashes and retries included: an entry below the
      saved progress holds what a single application makes of its starting documents, which is its
      final form, and the other entries are untouched. */
  lemma ProgressIsTrue(inv: Inventory, start: Store, steps: seq<Step>, i: nat)
    requires Ascending(inv.entries) && Initial(start) && i < |inv.entries|
    ensures var t, e := Run(inv, start, steps), inv.entries[i];
      if i < Passed(inv, t) then AppliedOnce(inv, e, start, t) && Final(inv, e, At(t, e.shareId))
      else At(t, e.shareId) == At(start, e.shareId)
  {
    InitialInv(inv, start);
    RunKeepsInv(inv, start, start, steps);
    var t, e := Run(inv, start, steps), inv.entries[i];
    if i < Passed(inv, t) {
      assert AppliedOnce(inv, e, start, t);
      ApplyEntryIsFinal(inv, e, At(start, e.shareId), false);
    } else {
      UntouchedBefore(inv, start, t, i);
    }
  }

  lemma OutsideIsUntouched(inv: Inventory, start: Store, steps: seq<Step>, id: nat)
    requires Ascending(inv.entries) && Initial(start)
    requires forall i: nat :: i < |inv.entries| ==> inv.entries[i].shareId != id
    ensures At(Run(inv, start, steps), id) == At(start, id)
  {
    InitialInv(inv, start);
    RunKeepsInv(inv, start, start, steps);
  }

  /** Phase applied means every entry is final and the ledger is the expected one. */
  lemma AppliedIsComplete(inv: Inventory, start: Store, steps: seq<Step>)
    requires Ascending(inv.entries) && Initial(start) && Settled(Run(inv, start, steps))
    ensures var t := Run(inv, start, steps);
      && (forall i: nat :: i < |inv.entries| ==> Final(inv, inv.entries[i], At(t, inv.entries[i].shareId)))
      && t.usage == Some(ExpectedUsage(inv))
  {
    InitialInv(inv, start);
    RunKeepsInv(inv, start, start, steps);
    var t := Run(inv, start, steps);
    forall i: nat | i < |inv.entries| ensures Final(inv, inv.entries[i], At(t, inv.entries[i].shareId)) {
      ProgressIsTrue(inv, start, steps, i);
    }
  }

  /** Phase verified means more, even over a library that never matched the inventory: every entry is
      accepted, no deck lies outside the inventory, and the ledger is the expected one. */
  lemma VerifiedIsCutOver(inv: Inventory, start: Store, steps: seq<Step>)
    requires Ascending(inv.entries) && Initial(start) && Run(inv, start, steps).state.phase == Verified
    ensures CutOver(inv, Run(inv, start, steps))
  {
    InitialInv(inv, start);
    RunKeepsInv(inv, start, start, steps);
  }

  /** The scan accepts an applied entry exactly when its starting documents had the final form
      already, or its private creation time adds nothing to the public one. */
  lemma AcceptedExactly(inv: Inventory, start: Store, steps: seq<Step>, i: nat)
    requires Ascending(inv.entries) && Initial(start) && Settled(Run(inv, start, steps))
    requires i < |inv.entries| && CopiesTimes(inv.entries[i])
    requires inv.entries[i].action == Keep || inv.entries[i].action == Migrate
    ensures var e := inv.entries[i];
      Accepted(inv, e, At(Run(inv, start, steps), e.shareId))
      <==> (AppliedPair(inv, e, At(start, e.shareId))
            || e.privateCreatedAt.None? || e.privateCreatedAt == e.publicCreatedAt)
  {
    ProgressIsTrue(inv, start, steps, i);
    var e := inv.entries[i];
    if !AppliedPair(inv, e, At(start, e.shareId)) {
      RetryIsIdempotentExactly(inv, e, At(start, e.shareId));
    }
  }

  // ----- the ledger -----

  /** The expected ledger lists exactly the unexpired copyable entries, with their bytes and expiry. */
  lemma {:induction false} SharesListed(inv: Inventory, n: nat, id: nat)
    requires Ascending(inv.entries) && n <= |inv.entries|
    ensures forall i: nat :: i < n && inv.entries[i].shareId == id ==>
              Lookup(ExpectedShares(inv, n), id) == ShareOf(inv, inv.entries[i])
    ensures (forall i: nat :: i < n ==> inv.entries[i].shareId != id) ==> id !in ExpectedShares(inv, n)
  {
    if n > 0 {
      SharesListed(inv, n - 1, id);
      if inv.entries[n - 1].shareId == id {
        forall i: nat | i < n - 1 ensures inv.entries[i].shareId != id { EntryIdsDiffer(inv, i, n - 1); }
      }
    }
  }

  /** In phase applied the ledger and the documents agree: a migrated deck is in the ledger exactly
      when its own expiry lies after the scan, with the bytes and the expiry its private document has. */
  lemma LedgerMatchesDocuments(inv: Inventory, start: Store, steps: seq<Step>, i: nat)
    requires Ascending(inv.entries) && Initial(start) && Settled(Run(inv, start, steps))
    requires i < |inv.entries| && (inv.entries[i].action == Keep || inv.entries[i].action == Migrate)
    ensures var t, id := Run(inv, start, steps), inv.entries[i].shareId;
      && t.usage.Some? && id in t.publicDocs && id in t.privateDocs
      && var doc, shares := t.privateDocs[id], t.usage.value.shares;
      && doc.expiresAt.Some?
      && (id in shares <==> inv.scanStartedAt < Millis(doc.expiresAt.value))
      && (id in shares ==> doc.payloadBytes == Some(shares[id].payloadBytes)
                           && Millis(shares[id].expiresAt) == Millis(doc.expiresAt.value))
  {
    AppliedIsComplete(inv, start, steps);
    var t, e := Run(inv, start, steps), inv.entries[i];
    assert Final(inv, e, At(t, e.shareId));
    SharesListed(inv, |inv.entries|, e.shareId);
    assert Lookup(t.usage.value.shares, e.shareId) == ShareOf(inv, e);
  }

  // ----- what a settled library holds, in terms of the sealed entries -----

  /** An entry's expiry in milliseconds: its own, or else the proposed one, but 30 days after the scan if it
      would be later than that. */
  predicate ExpiresAt(e: Entry, scan: int, millis: int) {
    var latest := scan + 2592000000;
    if e.existingExpiresAt.Some? then
      var own := e.existingExpiresAt.value / 1000000;
      (own <= latest && millis == own) || (latest < own && millis == latest)
    else
      e.proposedExpiresAt.Some?
      && ((e.proposedExpiresAt.value <= latest && millis == e.proposedExpiresAt.value)
          || (latest < e.proposedExpiresAt.value && millis == latest))
  }

  /** A pair in the migrated format, with the entry's payload and expiry. */
  predicate Migrated(inv: Inventory, e: Entry, pub: PublicDoc, priv: PrivateDoc, millis: int) {
    && pub.schema == 2 && pub.extra == 0 && e.payload.Some? && pub.payload == e.payload
    && priv.schema == 2 && priv.extra == 0 && priv.owner == inv.owner
    && priv.payloadBytes == Some(e.payload.value.bytes)
    && pub.createdAt.Some? && priv.createdAt.Some?
    && pub.expiresAt.Some? && pub.expiresAt.value / 1000000 == millis
    && priv.expiresAt.Some? && priv.expiresAt.value / 1000000 == millis
  }

  /** A pair that is left as it was: migrated already, and with the sealed times. */
  predicate LeftAlone(e: Entry, h: Held) {
    && h.pub.Some? && h.priv.Some? && h.pub.value.createdAt == e.publicCreatedAt
    && h.priv.value.createdAt == (if e.privateCreatedAt.Some? then e.privateCreatedAt else e.publicCreatedAt)
  }

  /** A pair that was rewritten: the documents were the sealed sources, both take the public creation time,
      both expire at a whole millisecond, and nothing was filed. */
  predicate Rewritten(e: Entry, before: Held, after: Held, millis: int) {
    && before.pub == e.publicSource && before.priv == e.privateSource && after.copy == before.copy
    && before.pub.Some? && before.pub.value.payload == e.payload && after.pub.Some? && after.priv.Some?
    && after.pub.value.createdAt == before.pub.value.createdAt
    && after.priv.value.createdAt == before.pub.value.createdAt
    && after.pub.value.expiresAt == Some(1000000 * millis) && after.priv.value.expiresAt == Some(1000000 * millis)
  }

  /** What applying a deck that is not set aside does to its documents. */
  ghost predicate DeckMigrated(inv: Inventory, e: Entry, before: Held, after: Held, millis: int) {
    && ExpiresAt(e, inv.scanStartedAt, millis)
    && after.pub.Some? && after.priv.Some? && Migrated(inv, e, after.pub.value, after.priv.value, millis)
    && (if before.pub.Some? && before.priv.Some? && Migrated(inv, e, before.pub.value, before.priv.value, millis)
           && LeftAlone(e, before)
        then after == before
        else Rewritten(e, before, after, millis))
  }

  /** Setting a deck aside leaves its documents, and files them with their digests. */
  predicate DeckSetAside(e: Entry, before: Held, after: Held) {
    && after.pub == before.pub == e.publicSource && after.priv == before.priv == e.privateSource
    && after.copy == Some(Copy(e.shareId, e.publicSource, e.privateSource, e.publicSource, e.privateSource))
  }

  lemma ExpiryIs(e: Entry, scan: int, millis: int)
    ensures ExpiresAt(e, scan, millis) <==> SourceExpiresAt(e, scan) == Some(1000000 * millis)
  {
  }

  lemma AppliedPairIs(inv: Inventory, e: Entry, h: Held, millis: int)
    requires ExpiresAt(e, inv.scanStartedAt, millis)
    ensures AppliedPair(inv, e, h) <==>
      h.pub.Some? && h.priv.Some? && Migrated(inv, e, h.pub.value, h.priv.value, millis) && LeftAlone(e, h)
  {
    ExpiryIs(e, inv.scanStartedAt, millis);
  }

  /** One entry's apply, read off its documents. */
  lemma ApplyEntryMeans(inv: Inventory, e: Entry, before: Held, after: Held)
    requires ApplyEntry(inv, e, before, false) == Some(after)
    ensures if e.action == SetAside then DeckSetAside(e, before, after)
            else exists millis :: DeckMigrated(inv, e, before, after, millis)
  {
    if e.action != SetAside {
      var millis := Millis(SourceExpiresAt(e, inv.scanStartedAt).value);
      ExpiryIs(e, inv.scanStartedAt, millis);
      AppliedPairIs(inv, e, before, millis);
      assert DeckMigrated(inv, e, before, after, millis);
    }
  }

  /** A deck's share in the ledger: it is there exactly if it expires after the scan, with its payload's size
      and that expiry. */
  ghost predicate Shared(shares: map<nat, Share>, inv: Inventory, e: Entry, millis: int) {
    && (e.shareId in shares <==> inv.scanStartedAt < millis)
    && (e.shareId in shares ==> e.payload.Some? && shares[e.shareId] == Share(e.payload.value.bytes, 1000000 * millis))
  }

  /** Over any run that ends settled, every entry's documents are its starting documents, migrated or set
      aside; and a kept or migrated deck is in the ledger exactly if its expiry lies after the scan. */
  lemma SettledEntry(inv: Inventory, start: Store, steps: seq<Step>, i: nat)
    requires Ascending(inv.entries) && Initial(start) && Settled(Run(inv, start, steps)) && i < |inv.entries|
    ensures var t, e := Run(inv, start, steps), inv.entries[i];
      if e.action == SetAside
      then DeckSetAside(e, At(start, e.shareId), At(t, e.shareId))
           && t.usage.Some? && e.shareId !in t.usage.value.shares
      else exists millis ::
        && DeckMigrated(inv, e, At(start, e.shareId), At(t, e.shareId), millis)
        && (e.action != Block ==> t.usage.Some? && Shared(t.usage.value.shares, inv, e, millis))
  {
    ProgressIsTrue(inv, start, steps, i);
    AppliedIsComplete(inv, start, steps);
    SharesListed(inv, |inv.entries|, inv.entries[i].shareId);
    var t, e := Run(inv, start, steps), inv.entries[i];
    ApplyEntryMeans(inv, e, At(start, e.shareId), At(t, e.shareId));
    if e.action != SetAside {
      var millis :| DeckMigrated(inv, e, At(start, e.shareId), At(t, e.shareId), millis);
      ExpiryIs(e, inv.scanStartedAt, millis);
      assert Lookup(t.usage.value.shares, e.shareId) == ShareOf(inv, e);
    }
  }

  /** What verification stands for: a deck that is not blocked holds its sealed entry's final documents, or
      its sealed sources with both of them filed. */
  ghost predicate Verifies(inv: Inventory, e: Entry, h: Held) {
    && e.action != Block
    && if e.action == SetAside then
         && h.pub == e.publicSource && h.priv == e.privateSource
         && h.copy == Some(Copy(e.shareId, e.publicSource, e.privateSource, e.publicSource, e.privateSource))
       else exists millis :: FinalPair(inv, e, h, millis)
  }

  predicate FinalPair(inv: Inventory, e: Entry, h: Held, millis: int) {
    && ExpiresAt(e, inv.scanStartedAt, millis)
    && h.pub.Some? && h.priv.Some? && Migrated(inv, e, h.pub.value, h.priv.value, millis) && LeftAlone(e, h)
  }

  lemma AcceptedMeans(inv: Inventory, e: Entry, h: Held)
    ensures Accepted(inv, e, h) <==> Verifies(inv, e, h)
  {
    if e.action == Keep || e.action == Migrate {
      if SourceExpiresAt(e, inv.scanStartedAt).Some? {
        var millis := Millis(SourceExpiresAt(e, inv.scanStartedAt).value);
        ExpiryIs(e, inv.scanStartedAt, millis);
        AppliedPairIs(inv, e, h, millis);
        assert AppliedPair(inv, e, h) <==> FinalPair(inv, e, h, millis);
      }
      if millis :| FinalPair(inv, e, h, millis) { AppliedPairIs(inv, e, h, millis); }
    }
  }

  /** Over any run that ends verified, every entry verifies, and every stored deck is one of them. */
  lemma VerifiedEntry(inv: Inventory, start: Store, steps: seq<Step>, id: nat)
    requires Ascending(inv.entries) && Initial(start) && Run(inv, start, steps).state.phase == Verified
    ensures var t := Run(inv, start, steps);
      && (forall i: nat :: i < |inv.entries| ==> Verifies(inv, inv.entries[i], At(t, inv.entries[i].shareId)))
      && (id in t.publicDocs || id in t.privateDocs ==> exists i: nat :: EntryAt(inv, i, id))
  {
    VerifiedIsCutOver(inv, start, steps);
    var t := Run(inv, start, steps);
    forall i: nat | i < |inv.entries| ensures Verifies(inv, inv.entries[i], At(t, inv.entries[i].shareId)) {
      AcceptedMeans(inv, inv.entries[i], At(t, inv.entries[i].shareId));
    }
  }

  /** The counters of the ledger are those of its shares. */
  lemma {:induction false} LedgerCounts(inv: Inventory, n: nat, k: nat)
    requires Ascending(inv.entries) && n <= k <= |inv.entries|
    ensures SumOver(ExpectedShares(inv, k), inv.entries, n) == ExpectedBytes(inv, n)
  {
    if n > 0 {
      LedgerCounts(inv, n - 1, k);
      SharesListed(inv, k, inv.entries[n - 1].shareId);
      assert Lookup(ExpectedShares(inv, k), inv.entries[n - 1].shareId) == ShareOf(inv, inv.entries[n - 1]);
    }
  }

  function SumOver(shares: map<nat, Share>, entries: seq<Entry>, n: nat): nat
    requires n <= |entries|
  {
    if n == 0 then 0
    else
      var id := entries[n - 1].shareId;
      SumOver(shares, entries, n - 1) + if id in shares then shares[id].payloadBytes else 0
  }

  // ----- finding an entry -----

  /** The binary search over the sealed ids. */
  method ExpectedEntryFor(inv: Inventory, id: nat) returns (found: Option<nat>)
    requires Ascending(inv.entries)
    ensures found.Some? ==> EntryAt(inv, found.value, id)
    ensures found.None? ==> forall i: nat :: !EntryAt(inv, i, id)
  {
    var low, high := 0, |inv.entries| - 1;
    while low <= high
      invariant 0 <= low <= high + 1 <= |inv.entries|
      invariant forall i: nat :: i < low ==> inv.entries[i].shareId < id
      invariant forall i: nat :: high < i < |inv.entries| ==> id < inv.entries[i].shareId
      decreases high - low
    {
      var middle := low + (high - low) / 2;
      var candidate := inv.entries[middle].shareId;
      if candidate == id { return Some(middle); }
      if candidate < id { low := middle + 1; } else { high := middle - 1; }
    }
    return None;
  }
}
