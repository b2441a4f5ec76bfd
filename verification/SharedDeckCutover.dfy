/**
 The shared-deck apply and verify drivers as they update the store in place
 (functions/src/legacySharedDeckMigration.ts:2455-2724, 2733-2987).  Each driver is shown to be one of
 the runs of SharedDeckMigration, and to succeed exactly when it should.
 */
module SharedDeckCutover {
  import opened Prelude
  import opened SharedDeckMigration

  lemma {:induction false} RunThen(inv: Inventory, s: Store, steps: seq<Step>, step: Step)
    ensures Run(inv, s, steps + [step]) == Next(inv, Run(inv, s, steps), step)
    decreases |steps|
  {
    if steps == [] {
      assert steps + [step] == [step];
      assert Run(inv, s, [step]) == Run(inv, Next(inv, s, step), []);
    } else {
      assert (steps + [step])[0] == steps[0];
      assert (steps + [step])[1..] == steps[1..] + [step];
      RunThen(inv, Next(inv, s, steps[0]), steps[1..], step);
    }
  }

  /** The check of a source before anything is written: applied already, or still as sealed. */
  predicate Ready(inv: Inventory, e: Entry, h: Held, validationOnly: bool) {
    if e.action == SetAside then AsSealed(e, h) && (validationOnly ==> CopyMatches(h.copy, e))
    else AppliedPair(inv, e, h) || (!validationOnly && AsSealed(e, h))
  }

  predicate AllReady(inv: Inventory, s: Store) {
    forall i: nat :: i < |inv.entries| ==> Ready(inv, inv.entries[i], At(s, inv.entries[i].shareId), Settled(s))
  }

  /** Where an apply goes on: behind the saved progress; a settled migration is validated from the start. */
  function ResumeAt(s: Store): nat {
    if s.state.phase == Applying then s.state.nextEntry else 0
  }

  predicate Applicable(inv: Inventory, s: Store, i: nat)
    requires i < |inv.entries|
  {
    ApplyEntry(inv, inv.entries[i], At(s, inv.entries[i].shareId), Settled(s)).Some?
  }

  predicate AllApplicable(inv: Inventory, s: Store, to: nat)
    requires to <= |inv.entries|
  {
    forall i: nat :: ResumeAt(s) <= i < to ==> Applicable(inv, s, i)
  }

  /** Every source is ready, those still to be passed can be applied, and the ledger is absent or expected. */
  ghost predicate CanApply(inv: Inventory, s: Store) {
    && ApplyMayRun(s) && AllReady(inv, s)
    && AllApplicable(inv, s, |inv.entries|)
    && (s.usage.Some? ==> s.usage.value == ExpectedUsage(inv))
  }

  /** The entries from i on hold what they held before. */
  ghost predicate RestAsBefore(inv: Inventory, before: Store, s: Store, i: nat) {
    forall k: nat :: i <= k < |inv.entries| ==> At(s, inv.entries[k].shareId) == At(before, inv.entries[k].shareId)
  }

  lemma TurnDecides(inv: Inventory, s: Store, i: nat)
    requires ResumeAt(s) <= i < |inv.entries|
    ensures AllApplicable(inv, s, i) && Applicable(inv, s, i) ==> AllApplicable(inv, s, i + 1)
    ensures !Applicable(inv, s, i) ==> !AllApplicable(inv, s, |inv.entries|)
  {
  }

  lemma RestApplicable(inv: Inventory, before: Store, s: Store, i: nat)
    requires RestAsBefore(inv, before, s, i) && i < |inv.entries| && Settled(s) == Settled(before)
    ensures Applicable(inv, s, i) == Applicable(inv, before, i)
  {
  }

  lemma BatchLeavesRest(inv: Inventory, before: Store, s: Store, i: nat)
    requires Ascending(inv.entries) && i < |inv.entries| && RestAsBefore(inv, before, s, i)
    ensures RestAsBefore(inv, before, Next(inv, s, ApplyBatch(i)), i + 1)
  {
    var t := Next(inv, s, ApplyBatch(i));
    forall k: nat | i + 1 <= k < |inv.entries|
      ensures At(t, inv.entries[k].shareId) == At(before, inv.entries[k].shareId)
    {
      EntryIdsDiffer(inv, i, k);
    }
  }

  class CutoverStore {
    var publicDocs: map<nat, PublicDoc>
    var privateDocs: map<nat, PrivateDoc>
    var copies: map<nat, Copy>
    var usage: Option<Ledger>
    var state: State

    ghost function View(): Store
      reads this
    {
      Store(publicDocs, privateDocs, copies, usage, state)
    }

    /** One apply transaction: read one entry's documents, write its final form and the progress. */
    method ApplyOneBatch(inv: Inventory, i: nat) returns (ok: bool)
      requires i < |inv.entries| && ApplyMayRun(View())
      modifies this
      ensures View() == Next(inv, old(View()), ApplyBatch(i))
      ensures ok <==> old((Settled(View()) || (state.phase == Applying && state.nextEntry == i))
                          && ApplyEntry(inv, inv.entries[i], At(View(), inv.entries[i].shareId), Settled(View())).Some?)
    {
      var e := inv.entries[i];
      var id := e.shareId;
      var settled := state.phase == Applied || state.phase == Verified;
      if !settled && (state.phase != Applying || state.nextEntry != i) { return false; }
      var found := Held(Lookup(publicDocs, id), Lookup(privateDocs, id), Lookup(copies, id));
      var held := ApplyEntry(inv, e, found, settled);
      if held.None? { return false; }
      if !settled {
        publicDocs := Set(publicDocs, id, held.value.pub);
        privateDocs := Set(privateDocs, id, held.value.priv);
        copies := Set(copies, id, held.value.copy);
        state := state.(phase := Applying, nextEntry := i + 1, ledgerReady := false);
      }
      return true;
    }

    /** Compare every source before the first write. */
    method CheckSources(inv: Inventory) returns (ok: bool)
      ensures ok <==> AllReady(inv, View())
    {
      var settled := state.phase == Applied || state.phase == Verified;
      var i := 0;
      while i < |inv.entries|
        invariant 0 <= i <= |inv.entries|
        invariant forall k: nat :: k < i ==>
          Ready(inv, inv.entries[k], At(View(), inv.entries[k].shareId), Settled(View()))
      {
        var id := inv.entries[i].shareId;
        var held := Held(Lookup(publicDocs, id), Lookup(privateDocs, id), Lookup(copies, id));
        if !Ready(inv, inv.entries[i], held, settled) { return false; }
        i := i + 1;
      }
      return true;
    }

    /** Apply or validate the entry whose turn it is. */
    method ApplyNext(inv: Inventory, ghost start: Store, i: nat) returns (ok: bool)
      requires Ascending(inv.entries) && Inv(inv, start, View()) && i < |inv.entries| && ApplyMayRun(View())
      requires Settled(View()) || (state.phase == Applying && state.nextEntry == i)
      modifies this
      ensures View() == Next(inv, old(View()), ApplyBatch(i)) && Inv(inv, start, View()) && usage == old(usage)
      ensures ok <==> old(Applicable(inv, View(), i))
      ensures ok ==> state == (if old(Settled(View())) then old(state) else AppliedTo(old(state), i + 1))
    {
      NextKeepsInv(inv, start, View(), ApplyBatch(i));
      ok := ApplyOneBatch(inv, i);
    }

    /** Apply or validate every entry from the resume point on, until one cannot be. */
    method ApplyEntries(inv: Inventory, ghost start: Store, ghost origin: Store, ghost before: seq<Step>)
      returns (ok: bool, ghost steps: seq<Step>)
      requires Ascending(inv.entries) && Inv(inv, start, View()) && View() == Run(inv, origin, before)
      requires ApplyMayRun(View()) && state.phase != Sealed
      modifies this
      ensures View() == Run(inv, origin, steps) && Inv(inv, start, View()) && usage == old(usage)
      ensures ok <==> AllApplicable(inv, old(View()), |inv.entries|)
      ensures ok ==> state == old(if Settled(View()) then state else AppliedTo(state, |inv.entries|))
    {
      steps := before;
      ghost var found := View();
      var settled := state.phase == Applied || state.phase == Verified;
      var i := if settled then 0 else state.nextEntry;
      while i < |inv.entries|
        invariant ResumeAt(found) <= i <= |inv.entries|
        invariant View() == Run(inv, origin, steps) && Inv(inv, start, View()) && usage == found.usage
        invariant state == (if settled then found.state else AppliedTo(found.state, i))
        invariant RestAsBefore(inv, found, View(), i)
        invariant AllApplicable(inv, found, i)
      {
        BatchLeavesRest(inv, found, View(), i);
        RestApplicable(inv, found, View(), i);
        RunThen(inv, origin, steps, ApplyBatch(i));
        var applied := ApplyNext(inv, start, i);
        steps := steps + [ApplyBatch(i)];
        TurnDecides(inv, found, i);
        if !applied { return false, steps; }
        i := i + 1;
      }
      return true, steps;
    }

    /** Open the apply phase of a sealed migration. */
    method BeginApply(inv: Inventory, ghost start: Store)
      requires Ascending(inv.entries) && Inv(inv, start, View()) && ApplyMayRun(View())
      modifies this`state
      ensures View() == Next(inv, old(View()), StartApply) && Inv(inv, start, View())
    {
      NextKeepsInv(inv, start, View(), StartApply);
      if state.phase == Sealed { state := state.(phase := Applying, nextEntry := 0, ledgerReady := false); }
    }

    /** Record the ledger and the applied phase, unless they stand already. */
    method FinishApply(inv: Inventory, ghost start: Store) returns (ok: bool)
      requires Ascending(inv.entries) && Inv(inv, start, View()) && ApplyMayRun(View())
      requires Settled(View()) || (state.phase == Applying && state.nextEntry == |inv.entries|)
      modifies this
      ensures View() == Next(inv, old(View()), SharedDeckMigration.FinishApply) && Inv(inv, start, View())
      ensures ok <==> old(usage.Some? ==> usage.value == ExpectedUsage(inv))
      ensures ok ==> Settled(View()) && usage == Some(ExpectedUsage(inv))
    {
      NextKeepsInv(inv, start, View(), SharedDeckMigration.FinishApply);
      if state.phase == Applied || state.phase == Verified { return usage == Some(ExpectedUsage(inv)); }
      if usage.Some? && usage.value != ExpectedUsage(inv) { return false; }
      usage := Some(ExpectedUsage(inv));
      state := state.(phase := Applied, ledgerReady := true);
      return true;
    }

    /** The apply driver, fresh or resumed after a crash at any entry: it succeeds exactly when every source
        is ready and can be applied and the ledger is absent or expected; and it writes nothing at all
        unless every source is ready. */
    method ApplyLegacySharedDeckMigration(inv: Inventory, ghost start: Store) returns (ok: bool, ghost steps: seq<Step>)
      requires Ascending(inv.entries) && Inv(inv, start, View())
      modifies this
      ensures View() == Run(inv, old(View()), steps) && Inv(inv, start, View())
      ensures ok <==> old(CanApply(inv, View()))
      ensures ok ==> Settled(View()) && usage == Some(ExpectedUsage(inv))
      ensures old(!AllReady(inv, View())) ==> View() == old(View())
    {
      ghost var origin := View();
      steps := [];
      ok := MayStart(inv);
      if !ok { return; }
      ok := CheckSources(inv);
      if !ok { return; }
      BeginApply(inv, start);
      RunThen(inv, origin, [], StartApply);
      SameApplicable(inv, origin, View());
      ok, steps := ApplyEntries(inv, start, origin, [] + [StartApply]);
      if !ok { return; }
      RunThen(inv, origin, steps, SharedDeckMigration.FinishApply);
      ok := FinishApply(inv, start);
      steps := steps + [SharedDeckMigration.FinishApply];
    }

    /** No verification is under way before the apply is complete, and the ledger is absent or expected. */
    method MayStart(inv: Inventory) returns (ok: bool)
      ensures ok <==> ApplyMayRun(View()) && (usage.Some? ==> usage.value == ExpectedUsage(inv))
    {
      if state.scan.Some? && state.scan.value.active && state.phase != Applied && state.phase != Verified {
        return false;
      }
      return usage.None? || usage.value == ExpectedUsage(inv);
    }

    /** The next page of a collection, read in id order after the cursor. */
    method NextPage(keys: set<nat>, after: Option<nat>) returns (page: seq<nat>)
      ensures IsPage(keys, after, page)
    {
      page := [];
      var cursor := after;
      while |page| < MAX_VERIFY_ENTRIES
        invariant |page| <= MAX_VERIFY_ENTRIES && cursor == LastOf(page, after)
        invariant forall k :: 0 <= k < |page| ==> page[k] in keys && (after.Some? ==> after.value < page[k])
        invariant forall j, k :: 0 <= j < k < |page| ==> page[j] < page[k]
        invariant forall id :: id in keys && (after.Some? ==> after.value < id) && id !in page ==>
          cursor.Some? ==> cursor.value < id
      {
        var next := Smallest(keys, cursor);
        if next.None? { return; }
        page := page + [next.value];
        cursor := next;
      }
    }

    method Smallest(keys: set<nat>, above: Option<nat>) returns (least: Option<nat>)
      ensures least.Some? ==> least.value in keys && (above.Some? ==> above.value < least.value)
      ensures forall id :: id in keys && (above.Some? ==> above.value < id) ==> least.Some? && least.value <= id
    {
      least := None;
      var rest := keys;
      while rest != {}
        invariant rest <= keys
        invariant least.Some? ==> least.value in keys && (above.Some? ==> above.value < least.value)
        invariant forall id :: id in keys && id !in rest && (above.Some? ==> above.value < id) ==>
          least.Some? && least.value <= id
        decreases rest
      {
        var id :| id in rest;
        rest := rest - {id};
        if (above.Some? ==> above.value < id) && (least.Some? ==> id < least.value) { least := Some(id); }
      }
    }

    /** Every id of the page is sealed, and its documents are accepted. */
    method PageOk(inv: Inventory, page: seq<nat>) returns (ok: bool)
      requires Ascending(inv.entries)
      ensures ok <==> PageAccepted(inv, View(), page)
    {
      var k := 0;
      while k < |page|
        invariant 0 <= k <= |page|
        invariant forall j :: 0 <= j < k ==> SourceAccepted(inv, View(), page[j])
      {
        var id := page[k];
        var found := ExpectedEntryFor(inv, id);
        var held := Held(Lookup(publicDocs, id), Lookup(privateDocs, id), Lookup(copies, id));
        if found.None? { return false; }
        if !Accepted(inv, inv.entries[found.value], held) {
          OneEntryPerId(inv, found.value, id);
          return false;
        }
        assert EntryAt(inv, found.value, id);
        k := k + 1;
      }
      return true;
    }

    /** One scanning transaction: check the next page of a collection and save the cursor. */
    method ScanPage(inv: Inventory, publicFirst: bool, ghost start: Store)
      returns (ok: bool, ghost step: Step)
      requires Ascending(inv.entries) && Inv(inv, start, View()) && ScanRuns(View())
      modifies this`state
      ensures ok ==> View() == Next(inv, old(View()), step) && Inv(inv, start, View()) && ScanRuns(View())
      ensures ok ==> PageSaved(old(state.scan.value), state.scan.value, publicFirst,
                               if publicFirst then publicDocs.Keys else privateDocs.Keys)
      ensures !ok ==> View() == old(View()) && !CutOver(inv, View())
    {
      var scan := state.scan.value;
      var keys := if publicFirst then publicDocs.Keys else privateDocs.Keys;
      var after := CursorOf(scan, publicFirst);
      var page := NextPage(keys, after);
      var accepted := PageOk(inv, page);
      if !accepted {
        Unaccepted(inv, View(), keys, page);
        return false, StartApply;
      }
      step := PageStep(publicFirst, after, page);
      PageScanned(inv, View(), publicFirst, page, keys);
      NextKeepsInv(inv, start, View(), step);
      state := state.(scan := Some(Paged(scan, publicFirst, LastOf(page, after), |page| < MAX_VERIFY_ENTRIES)));
      return true, step;
    }

    /** Scan one collection to its end. */
    method ScanSource(inv: Inventory, publicFirst: bool, ghost start: Store, ghost origin: Store,
                      ghost before: seq<Step>)
      returns (ok: bool, ghost steps: seq<Step>)
      requires Ascending(inv.entries) && Inv(inv, start, View()) && ScanRuns(View())
      requires View() == Run(inv, origin, before)
      modifies this`state
      ensures View() == Run(inv, origin, steps) && Inv(inv, start, View()) && ScanRuns(View())
      ensures ok ==> TerminalOf(state.scan.value, publicFirst)
      ensures OnlyPaged(old(state.scan.value), state.scan.value, publicFirst)
      ensures !ok ==> !CutOver(inv, View())
    {
      steps := before;
      ghost var keys := if publicFirst then publicDocs.Keys else privateDocs.Keys;
      while !TerminalOf(state.scan.value, publicFirst)
        invariant Inv(inv, start, View()) && ScanRuns(View()) && View() == Run(inv, origin, steps)
        invariant OnlyPaged(old(state.scan.value), state.scan.value, publicFirst)
        decreases !TerminalOf(state.scan.value, publicFirst), Beyond(keys, CursorOf(state.scan.value, publicFirst))
      {
        ghost var s := View();
        var accepted;
        ghost var step;
        accepted, step := ScanPage(inv, publicFirst, start);
        if !accepted { return false, steps; }
        RunThen(inv, origin, steps, step);
        steps := steps + [step];
      }
      return true, steps;
    }

    /** One transaction of the direct pass over the sealed ids. */
    method SealedBatch(inv: Inventory, ghost start: Store) returns (ok: bool)
      requires Ascending(inv.entries) && Inv(inv, start, View()) && ScanRuns(View())
      requires state.scan.value.sealedCursor < |inv.entries|
      modifies this`state
      ensures Inv(inv, start, View()) && ScanRuns(View())
      ensures ok ==> View() == Next(inv, old(View()), SealedPage(old(state.scan.value.sealedCursor)))
      ensures ok ==> state.scan.value == old(state.scan.value).(
        sealedCursor := Min(old(state.scan.value.sealedCursor) + MAX_VERIFY_ENTRIES, |inv.entries|))
      ensures !ok ==> View() == old(View()) && !CutOver(inv, View())
    {
      var offset := state.scan.value.sealedCursor;
      var to := Min(offset + MAX_VERIFY_ENTRIES, |inv.entries|);
      ok := RangeOk(inv, offset, to);
      if ok {
        RangeScanned(inv, View(), offset, to);
        NextKeepsInv(inv, start, View(), SealedPage(offset));
        state := state.(scan := Some(state.scan.value.(sealedCursor := to)));
      }
    }

    /** The direct pass, from wherever a crashed pass left off. */
    method SealedPass(inv: Inventory, ghost start: Store, ghost origin: Store, ghost before: seq<Step>)
      returns (ok: bool, ghost steps: seq<Step>)
      requires Ascending(inv.entries) && Inv(inv, start, View()) && ScanRuns(View())
      requires View() == Run(inv, origin, before)
      modifies this`state
      ensures View() == Run(inv, origin, steps) && Inv(inv, start, View()) && ScanRuns(View())
      ensures ok ==> state.scan.value == old(state.scan.value).(sealedCursor := |inv.entries|)
      ensures !ok ==> !CutOver(inv, View())
    {
      steps := before;
      ghost var scan := state.scan.value;
      while state.scan.value.sealedCursor < |inv.entries|
        invariant Inv(inv, start, View()) && ScanRuns(View()) && View() == Run(inv, origin, steps)
        invariant state.scan.value == scan.(sealedCursor := state.scan.value.sealedCursor)
        decreases |inv.entries| - state.scan.value.sealedCursor
      {
        ghost var offset := state.scan.value.sealedCursor;
        var accepted := SealedBatch(inv, start);
        if !accepted { return false, steps; }
        RunThen(inv, origin, steps, SealedPage(offset));
        steps := steps + [SealedPage(offset)];
      }
      return true, steps;
    }

    method RangeOk(inv: Inventory, from: nat, to: nat) returns (ok: bool)
      requires from <= to <= |inv.entries|
      ensures ok <==> SealedRangeAccepted(inv, View(), from, to)
    {
      var i := from;
      while i < to
        invariant from <= i <= to && SealedRangeAccepted(inv, View(), from, i)
      {
        var id := inv.entries[i].shareId;
        var held := Held(Lookup(publicDocs, id), Lookup(privateDocs, id), Lookup(copies, id));
        if !Accepted(inv, inv.entries[i], held) { return false; }
        i := i + 1;
      }
      return true;
    }

    /** Open a scan, or resume the one a crashed process left. */
    method BeginScan(inv: Inventory, ghost start: Store) returns (ok: bool)
      requires Ascending(inv.entries) && Inv(inv, start, View())
      modifies this`state
      ensures ok <==> old(Settled(View()))
      ensures !ok ==> View() == old(View())
      ensures ok ==> View() == Next(inv, old(View()), BeginVerify) && Inv(inv, start, View()) && ScanRuns(View())
      ensures SameDocuments(old(View()), View())
    {
      if (state.phase != Applied && state.phase != Verified) || !state.ledgerReady { return false; }
      NextKeepsInv(inv, start, View(), BeginVerify);
      if state.scan.None? || !state.scan.value.active {
        state := state.(scan := Some(Scan(true, None, None, false, false, 0)));
      }
      return true;
    }

    /** Close a scan that has seen everything, and reopen writes. */
    method FinishScan(inv: Inventory, ghost start: Store)
      requires Ascending(inv.entries) && Inv(inv, start, View()) && ScanRuns(View())
      requires var scan := state.scan.value;
        scan.publicTerminal && scan.privateTerminal && scan.sealedCursor == |inv.entries|
      modifies this`state
      ensures View() == Next(inv, old(View()), FinishVerify) && CutOver(inv, View()) && state.phase == Verified
      ensures SameDocuments(old(View()), View())
    {
      NextKeepsInv(inv, start, View(), FinishVerify);
      state := state.(phase := Verified, scan := Some(state.scan.value.(active := false)));
    }

    /** The verify driver, fresh or resumed after a crash at any page: it reopens writes exactly when
        every sealed entry is accepted, nothing lies outside the inventory and the ledger is right. */
    method VerifyLegacySharedDeckCutover(inv: Inventory, ghost start: Store)
      returns (ok: bool, ghost steps: seq<Step>)
      requires Ascending(inv.entries) && Inv(inv, start, View())
      modifies this`state
      ensures View() == Run(inv, old(View()), steps)
      ensures ok <==> old(Settled(View()) && CutOver(inv, View()))
      ensures ok ==> state.phase == Verified
    {
      ghost var origin := View();
      steps := [];
      ok := BeginScan(inv, start);
      if !ok { return; }
      RunThen(inv, origin, [], BeginVerify);
      ok, steps := ScanBoth(inv, start, origin, [] + [BeginVerify]);
      SameCutOver(inv, origin, View());
      if !ok { return; }
      ok, steps := SealedPass(inv, start, origin, steps);
      SameCutOver(inv, origin, View());
      if !ok { return; }
      FinishScan(inv, start);
      RunThen(inv, origin, steps, FinishVerify);
      steps := steps + [FinishVerify];
      SameCutOver(inv, origin, View());
    }

    method ScanBoth(inv: Inventory, ghost start: Store, ghost origin: Store, ghost before: seq<Step>)
      returns (ok: bool, ghost steps: seq<Step>)
      requires Ascending(inv.entries) && Inv(inv, start, View()) && ScanRuns(View())
      requires View() == Run(inv, origin, before)
      modifies this`state
      ensures View() == Run(inv, origin, steps) && Inv(inv, start, View()) && ScanRuns(View())
      ensures ok ==> state.scan.value.publicTerminal && state.scan.value.privateTerminal
      ensures !ok ==> !CutOver(inv, View())
    {
      ok, steps := ScanSource(inv, true, start, origin, before);
      if !ok { return; }
      ok, steps := ScanSource(inv, false, start, origin, steps);
    }
  }

  /** The state once the entries below i are applied. */
  function AppliedTo(state: State, i: nat): State {
    if i == state.nextEntry then state else state.(nextEntry := i, ledgerReady := false)
  }

  /** Opening the apply phase changes nothing about what can be applied. */
  lemma SameApplicable(inv: Inventory, s: Store, t: Store)
    requires ApplyMayRun(s) && t == Next(inv, s, StartApply)
    ensures ApplyMayRun(t) && t.state.phase != Sealed && t.usage == s.usage
    ensures AllApplicable(inv, t, |inv.entries|) == AllApplicable(inv, s, |inv.entries|)
  {
    assert forall id :: At(t, id) == At(s, id);
    assert forall i: nat :: i < |inv.entries| ==> Applicable(inv, t, i) == Applicable(inv, s, i);
  }

  ghost predicate SameDocuments(s: Store, t: Store) {
    s.publicDocs == t.publicDocs && s.privateDocs == t.privateDocs && s.copies == t.copies && s.usage == t.usage
  }

  lemma SameCutOver(inv: Inventory, s: Store, t: Store)
    requires SameDocuments(s, t)
    ensures CutOver(inv, s) <==> CutOver(inv, t)
  {
    assert forall id :: At(s, id) == At(t, id);
    assert forall id :: SourceAccepted(inv, t, id) <==> SourceAccepted(inv, s, id);
  }

  function CursorOf(scan: Scan, publicFirst: bool): Option<nat> {
    if publicFirst then scan.publicCursor else scan.privateCursor
  }

  predicate TerminalOf(scan: Scan, publicFirst: bool) {
    if publicFirst then scan.publicTerminal else scan.privateTerminal
  }

  predicate OnlyPaged(before: Scan, after: Scan, publicFirst: bool) {
    after == Paged(before, publicFirst, CursorOf(after, publicFirst), TerminalOf(after, publicFirst))
  }

  predicate PageSaved(before: Scan, after: Scan, publicFirst: bool, keys: set<nat>) {
    && OnlyPaged(before, after, publicFirst)
    && (TerminalOf(after, publicFirst)
        || Beyond(keys, CursorOf(after, publicFirst)) < Beyond(keys, CursorOf(before, publicFirst)))
  }

  /** The scan progress with one collection's cursor moved. */
  function Paged(scan: Scan, publicFirst: bool, cursor: Option<nat>, terminal: bool): Scan {
    if publicFirst then scan.(publicCursor := cursor, publicTerminal := terminal)
    else scan.(privateCursor := cursor, privateTerminal := terminal)
  }

  function Beyond(keys: set<nat>, after: Option<nat>): set<nat> {
    set id | id in keys && (after.Some? ==> after.value < id)
  }

  lemma BeyondShrinks(keys: set<nat>, after: Option<nat>, page: seq<nat>)
    requires IsPage(keys, after, page)
    ensures page != [] ==> Beyond(keys, LastOf(page, after)) < Beyond(keys, after)
  {
    if page != [] { assert page[0] in Beyond(keys, after); }
  }

  function PageStep(publicFirst: bool, after: Option<nat>, page: seq<nat>): Step {
    if publicFirst then PublicPage(after, page) else PrivatePage(after, page)
  }

  /** What an accepted page makes of the scan progress. */
  lemma PageScanned(inv: Inventory, s: Store, publicFirst: bool, page: seq<nat>, keys: set<nat>)
    requires ScanRuns(s) && keys == (if publicFirst then s.publicDocs.Keys else s.privateDocs.Keys)
    requires IsPage(keys, CursorOf(s.state.scan.value, publicFirst), page) && PageAccepted(inv, s, page)
    ensures var scan := s.state.scan.value;
      var after := CursorOf(scan, publicFirst);
      var now := Paged(scan, publicFirst, LastOf(page, after), |page| < MAX_VERIFY_ENTRIES);
      && Next(inv, s, PageStep(publicFirst, after, page)) == WithScan(s, now)
      && PageSaved(scan, now, publicFirst, keys)
  {
    BeyondShrinks(keys, CursorOf(s.state.scan.value, publicFirst), page);
  }

  /** And an accepted range of the sealed ids. */
  lemma RangeScanned(inv: Inventory, s: Store, offset: nat, to: nat)
    requires ScanRuns(s) && s.state.scan.value.sealedCursor == offset < |inv.entries|
    requires to == Min(offset + MAX_VERIFY_ENTRIES, |inv.entries|) && SealedRangeAccepted(inv, s, offset, to)
    ensures Next(inv, s, SealedPage(offset)) == WithScan(s, s.state.scan.value.(sealedCursor := to))
  {
  }

  lemma OneEntryPerId(inv: Inventory, i: nat, id: nat)
    requires Ascending(inv.entries) && EntryAt(inv, i, id)
    ensures forall k: nat :: EntryAt(inv, k, id) ==> k == i
  {
    forall k: nat | EntryAt(inv, k, id) ensures k == i {
      if k != i { EntryIdsDiffer(inv, i, k); }
    }
  }

  lemma Unaccepted(inv: Inventory, s: Store, keys: set<nat>, page: seq<nat>)
    requires keys == s.publicDocs.Keys || keys == s.privateDocs.Keys
    requires forall k :: 0 <= k < |page| ==> page[k] in keys
    requires !PageAccepted(inv, s, page)
    ensures !CutOver(inv, s)
  {
    var k :| 0 <= k < |page| && !SourceAccepted(inv, s, page[k]);
  }
}
