/**
 The (epoch, revision) protocol of one card slot (functions/src/cardPersistence.ts:533-585, 640-737;
 functions/src/reviewPersistence.ts:246-400): creating, upgrading, reviewing and deleting a card, and
 starting a new library epoch.  Card content, identity reservations and the scheduler are not part of
 this model.
 */
module CardRevisions {
  import opened Prelude

  const CLOCK_SKEW: int := 5 * 60 * 1000

  /** Legacy cards may lack an epoch or a revision; `canonical` is the rest of the current shape. */
  datatype Card = Card(epoch: Option<nat>, revision: Option<nat>, canonical: bool, lastReview: Option<int>)

  datatype Tombstone = Tombstone(epoch: Option<nat>, revision: nat, deletedAt: Option<int>)

  datatype Receipt = Receipt(fingerprint: nat, expiresAt: int)

  datatype Slot = Slot(epoch: nat, card: Option<Card>, tombstone: Option<Tombstone>, receipts: map<nat, Receipt>)

  datatype SlotError =
    | StaleEpoch | FutureEpoch | NeedsMigration | Deleted | Missing | RevisionConflict
    | FutureClock | StaleReview | FingerprintConflict | ReceiptExists

  // ----- versions -----

  datatype Version = Version(epoch: nat, revision: nat)

  predicate Newer(a: Version, b: Version) {
    a.epoch > b.epoch || (a.epoch == b.epoch && a.revision > b.revision)
  }

  function Or<T>(o: Option<T>, otherwise: T): T {
    if o.Some? then o.value else otherwise
  }

  function VersionOf(c: Card): Version {
    Version(Or(c.epoch, 0), Or(c.revision, 0))
  }

  function BuriedAt(t: Tombstone): Version {
    Version(Or(t.epoch, 0), t.revision)
  }

  // ----- creating and upgrading -----

  /** Counters stop at the largest safe integer. */
  function NextCounter(value: nat): Option<nat> {
    if value >= MAX_SAFE_INTEGER then None else Some(value + 1)
  }

  predicate OldGeneration(c: Card, epoch: nat) {
    (c.epoch.None? && epoch > 0) || (c.epoch.Some? && c.epoch.value < epoch)
  }

  predicate StrictCurrent(c: Card, epoch: nat) {
    c.canonical && c.revision.Some? && c.revision.value >= 1 && c.epoch == Some(epoch)
  }

  function Upgraded(c: Card, epoch: nat): Option<Card> {
    var revision := if Or(c.revision, 0) > 0 then NextCounter(c.revision.value) else Some(1);
    if revision.None? then None else Some(c.(epoch := Some(epoch), revision := revision, canonical := true))
  }

  /** The revision of a tombstone of this epoch; None when it needs migration. */
  function TombstoneRevision(t: Option<Tombstone>, epoch: nat): Option<nat> {
    if t.None? || Or(t.value.epoch, 0) != epoch then Some(0)
    else if t.value.revision < 1 then None
    else Some(t.value.revision)
  }

  datatype CreateRequest = CreateRequest(epoch: Option<nat>, base: nat, time: Option<int>)

  function CreateTx(s: Slot, r: CreateRequest): Result<Slot, SlotError> {
    if Or(r.epoch, s.epoch) < s.epoch then Err(StaleEpoch)
    else if Or(r.epoch, s.epoch) > s.epoch then Err(FutureEpoch)
    else if s.card.Some? && !OldGeneration(s.card.value, s.epoch) then
      if StrictCurrent(s.card.value, s.epoch) then Ok(s)
      else
        var upgraded := Upgraded(s.card.value, s.epoch);
        if upgraded.None? then Err(NeedsMigration) else Ok(s.(card := upgraded))
    else
      var buried := TombstoneRevision(s.tombstone, s.epoch);
      if buried.None? then Err(NeedsMigration)
      else
        var recreates := buried.value > 0 && r.time.Some? && s.tombstone.value.deletedAt.Some?
                         && r.time.value > s.tombstone.value.deletedAt.value;
        if buried.value > r.base && !recreates then Err(Deleted)
        else
          var revision := if buried.value > 0 then NextCounter(buried.value) else Some(1);
          if revision.None? then Err(NeedsMigration)
          else Ok(s.(card := Some(Card(Some(s.epoch), revision, true, None))))
  }

  // ----- reviewing -----

  datatype ReviewRequest = ReviewRequest(opId: nat, fingerprint: nat, epoch: nat, base: nat, reviewedAt: int)

  /** A review is applied, or an unexpired receipt answers it. */
  datatype Reviewed = Reviewed(slot: Slot, applied: bool)

  function ReviewTx(s: Slot, r: ReviewRequest, now: int, retention: nat): Result<Reviewed, SlotError> {
    if r.opId in s.receipts && s.receipts[r.opId].expiresAt > now then
      if s.receipts[r.opId].fingerprint != r.fingerprint then Err(FingerprintConflict) else Ok(Reviewed(s, false))
    else if r.epoch < s.epoch then Err(StaleEpoch)
    else if r.epoch > s.epoch then Err(FutureEpoch)
    else if s.card.None? then Err(Missing)
    else
      var c := s.card.value;
      if !c.canonical || c.epoch.None? || c.revision.None? then Err(NeedsMigration)
      else if c.epoch.value < s.epoch then Err(StaleEpoch)
      else if c.epoch.value > s.epoch then Err(FutureEpoch)
      else if r.base != c.revision.value then Err(RevisionConflict)
      else if NextCounter(r.base).None? then Err(NeedsMigration)
      else if r.reviewedAt > now + CLOCK_SKEW then Err(FutureClock)
      else if c.lastReview.Some? && r.reviewedAt <= c.lastReview.value then Err(StaleReview)
      else if r.opId in s.receipts then Err(ReceiptExists)
      else
        var reviewed := c.(revision := Some(r.base + 1), lastReview := Some(r.reviewedAt));
        var receipt := Receipt(r.fingerprint, now + retention);
        Ok(Reviewed(s.(card := Some(reviewed), receipts := s.receipts[r.opId := receipt]), true))
  }

  class CardSlot {
    var slot: Slot

    method CreateCardForOwner(r: CreateRequest) returns (e: Option<SlotError>)
      modifies this
      ensures var want := CreateTx(old(slot), r);
        slot == (if want.Ok? then want.value else old(slot)) && e == (if want.Ok? then None else Some(want.error))
    {
      var requested := if r.epoch.Some? then r.epoch.value else slot.epoch;
      if requested != slot.epoch { return Some(if requested < slot.epoch then StaleEpoch else FutureEpoch); }
      if slot.card.Some? && !OldGeneration(slot.card.value, slot.epoch) {
        if StrictCurrent(slot.card.value, slot.epoch) { return None; }
        var upgraded := Upgraded(slot.card.value, slot.epoch);
        if upgraded.None? { return Some(NeedsMigration); }
        slot := slot.(card := upgraded);
        return None;
      }
      var buried := TombstoneRevision(slot.tombstone, slot.epoch);
      if buried.None? { return Some(NeedsMigration); }
      var recreates := false;
      if buried.value > 0 && r.time.Some? && slot.tombstone.value.deletedAt.Some? {
        recreates := r.time.value > slot.tombstone.value.deletedAt.value;
      }
      if buried.value > r.base && !recreates { return Some(Deleted); }
      var revision := if buried.value > 0 then NextCounter(buried.value) else Some(1);
      if revision.None? { return Some(NeedsMigration); }
      slot := slot.(card := Some(Card(Some(slot.epoch), revision, true, None)));
      return None;
    }

    method ApplyReviewForOwner(r: ReviewRequest, now: int, retention: nat) returns (result: Result<bool, SlotError>)
      modifies this
      ensures var want := ReviewTx(old(slot), r, now, retention);
        && slot == (if want.Ok? then want.value.slot else old(slot))
        && result == (if want.Ok? then Ok(want.value.applied) else Err(want.error))
    {
      if r.opId in slot.receipts && slot.receipts[r.opId].expiresAt > now {
        return if slot.receipts[r.opId].fingerprint != r.fingerprint then Err(FingerprintConflict) else Ok(false);
      }
      if r.epoch < slot.epoch { return Err(StaleEpoch); }
      if r.epoch > slot.epoch { return Err(FutureEpoch); }
      if slot.card.None? { return Err(Missing); }
      var c := slot.card.value;
      if !c.canonical || c.epoch.None? || c.revision.None? { return Err(NeedsMigration); }
      if c.epoch.value != slot.epoch { return Err(if c.epoch.value < slot.epoch then StaleEpoch else FutureEpoch); }
      if r.base != c.revision.value { return Err(RevisionConflict); }
      if NextCounter(r.base).None? { return Err(NeedsMigration); }
      if r.reviewedAt > now + CLOCK_SKEW { return Err(FutureClock); }
      if c.lastReview.Some? && r.reviewedAt <= c.lastReview.value { return Err(StaleReview); }
      if r.opId in slot.receipts { return Err(ReceiptExists); }
      slot := slot.(card := Some(c.(revision := Some(r.base + 1), lastReview := Some(r.reviewedAt))),
                    receipts := slot.receipts[r.opId := Receipt(r.fingerprint, now + retention)]);
      return Ok(true);
    }
  }

  // ----- runs -----

  /** History: the versions the slot's card has had, and the reviews applied to it. */
  datatype World = World(slot: Slot, versions: seq<Version>, applied: seq<ReviewRequest>)

  datatype Step =
    | Create(request: CreateRequest)
    | Review(review: ReviewRequest, now: int, retention: nat)
    | Delete(tombstone: Tombstone)
    | NewEpoch
    | ReceiptExpires(opId: nat)

  function Record(world: World, slot: Slot): World {
    World(slot, if slot.card.Some? && slot.card != world.slot.card then world.versions + [VersionOf(slot.card.value)]
                else world.versions, world.applied)
  }

  /** A delete that leaves a tombstone of the current epoch. */
  function DeleteTx(s: Slot, t: Tombstone): Slot {
    if s.card.None? || t.epoch != Some(s.epoch) then s
    else s.(card := None, tombstone := Some(t))
  }

  function Next(world: World, step: Step): World {
    var s := world.slot;
    match step
    case Create(r) => var t := CreateTx(s, r); if t.Err? then world else Record(world, t.value)
    case Review(r, now, retention) =>
      var t := ReviewTx(s, r, now, retention);
      if t.Err? then world
      else Record(world, t.value.slot).(applied := if t.value.applied then world.applied + [r] else world.applied)
    case Delete(t) => world.(slot := DeleteTx(s, t))
    case NewEpoch => world.(slot := s.(epoch := s.epoch + 1))
    case ReceiptExpires(opId) => world.(slot := s.(receipts := s.receipts - {opId}))
  }

  function Run(world: World, steps: seq<Step>): World
    decreases steps
  {
    if steps == [] then world else Run(Next(world, steps[0]), steps[1..])
  }

  /** Every delete of the run leaves a tombstone no older than the card it removes. */
  predicate DeletesBury(world: World, steps: seq<Step>)
    decreases steps
  {
    steps == [] ||
    ((steps[0].Delete? && world.slot.card.Some? ==>
        !Newer(VersionOf(world.slot.card.value), BuriedAt(steps[0].tombstone)))
     && DeletesBury(Next(world, steps[0]), steps[1..]))
  }

  /** A slot that holds at most a card of this or an earlier epoch. */
  predicate Initially(world: World) {
    && (world.slot.card.Some? ==> VersionOf(world.slot.card.value).epoch <= world.slot.epoch)
    && (world.slot.tombstone.Some? ==> BuriedAt(world.slot.tombstone.value).epoch <= world.slot.epoch)
    && world.versions == (if world.slot.card.Some? then [VersionOf(world.slot.card.value)] else [])
    && world.applied == []
  }

  // ----- the invariant -----

  predicate Rising(versions: seq<Version>) {
    forall i, j :: 0 <= i < j < |versions| ==> Newer(versions[j], versions[i])
  }

  /** The slot has moved past every version that was reviewed. */
  predicate AllSpent(versions: seq<Version>, applied: seq<ReviewRequest>) {
    forall r :: r in applied ==> versions != [] && Newer(versions[|versions| - 1], Version(r.epoch, r.base))
  }

  /** The newest version is that of the card, or lies at or below its tombstone. */
  predicate Inv(world: World) {
    var s, versions := world.slot, world.versions;
    && Rising(versions)
    && (s.tombstone.Some? ==> BuriedAt(s.tombstone.value).epoch <= s.epoch)
    && (s.card.Some? ==> versions != [] && VersionOf(s.card.value) == versions[|versions| - 1]
                         && VersionOf(s.card.value).epoch <= s.epoch)
    && (s.card.None? && versions != [] ==>
          s.tombstone.Some? && !Newer(versions[|versions| - 1], BuriedAt(s.tombstone.value)))
    && AllSpent(versions, world.applied)
  }

  /** No two applied reviews were made against the same version. */
  predicate EachBaseOnce(applied: seq<ReviewRequest>) {
    forall i, j :: 0 <= i < j < |applied| ==> (applied[i].epoch, applied[i].base) != (applied[j].epoch, applied[j].base)
  }

  /** The next card's version beats everything the slot has seen. */
  predicate Beats(world: World, v: Version) {
    world.versions != [] ==> Newer(v, world.versions[|world.versions| - 1])
  }

  lemma AppendRises(versions: seq<Version>, v: Version)
    requires Rising(versions) && (versions != [] ==> Newer(v, versions[|versions| - 1]))
    ensures Rising(versions + [v])
  {
    var all := versions + [v];
    forall i, j | 0 <= i < j < |all| ensures Newer(all[j], all[i]) {
      if j == |versions| && i < |versions| - 1 { assert Newer(versions[|versions| - 1], versions[i]); }
    }
  }

  /** Recording a newer card keeps the invariant. */
  lemma RecordKeepsInv(world: World, slot: Slot)
    requires Inv(world) && slot.card.Some? && slot.card != world.slot.card
    requires slot.epoch == world.slot.epoch && slot.tombstone == world.slot.tombstone
    requires VersionOf(slot.card.value).epoch == slot.epoch && Beats(world, VersionOf(slot.card.value))
    ensures Inv(Record(world, slot))
  {
    AppendRises(world.versions, VersionOf(slot.card.value));
  }

  lemma CreateBeats(world: World, r: CreateRequest)
    requires Inv(world) && CreateTx(world.slot, r).Ok? && CreateTx(world.slot, r).value != world.slot
    ensures var t := CreateTx(world.slot, r).value;
      && t.card.Some? && t.card != world.slot.card && t.epoch == world.slot.epoch && t.tombstone == world.slot.tombstone
      && VersionOf(t.card.value).epoch == t.epoch && Beats(world, VersionOf(t.card.value))
  {
  }

  lemma ReviewBeats(world: World, r: ReviewRequest, now: int, retention: nat)
    requires Inv(world) && ReviewTx(world.slot, r, now, retention).Ok?
    requires ReviewTx(world.slot, r, now, retention).value.applied
    ensures var t := ReviewTx(world.slot, r, now, retention).value.slot;
      && t.card.Some? && t.card != world.slot.card && t.epoch == world.slot.epoch && t.tombstone == world.slot.tombstone
      && VersionOf(t.card.value).epoch == t.epoch && Beats(world, VersionOf(t.card.value))
      && world.slot.card.Some? && VersionOf(world.slot.card.value) == Version(r.epoch, r.base)
  {
  }

  lemma ReviewKeepsInv(world: World, r: ReviewRequest, now: int, retention: nat)
    requires Inv(world) && EachBaseOnce(world.applied)
    ensures Inv(Next(world, Review(r, now, retention))) && EachBaseOnce(Next(world, Review(r, now, retention)).applied)
  {
    var t := ReviewTx(world.slot, r, now, retention);
    if t.Ok? && t.value.applied {
      ReviewBeats(world, r, now, retention);
      RecordKeepsInv(world, t.value.slot);
      assert world.versions[|world.versions| - 1] == Version(r.epoch, r.base);
    }
  }

  lemma NextKeepsInv(world: World, step: Step)
    requires Inv(world) && EachBaseOnce(world.applied) && DeletesBury(world, [step])
    ensures Inv(Next(world, step)) && EachBaseOnce(Next(world, step).applied)
  {
    assert [step][0] == step;
    match step
    case Create(r) =>
      var t := CreateTx(world.slot, r);
      if t.Ok? && t.value != world.slot {
        CreateBeats(world, r);
        RecordKeepsInv(world, t.value);
      }
    case Review(r, now, retention) => ReviewKeepsInv(world, r, now, retention);
    case Delete(t) =>
    case NewEpoch =>
    case ReceiptExpires(opId) =>
  }

  lemma {:induction false} RunKeepsInv(world: World, steps: seq<Step>)
    requires Inv(world) && EachBaseOnce(world.applied) && DeletesBury(world, steps)
    ensures Inv(Run(world, steps)) && EachBaseOnce(Run(world, steps).applied)
    decreases |steps|
  {
    if steps != [] {
      assert [steps[0]][1..] == [];
      assert DeletesBury(world, [steps[0]]);
      NextKeepsInv(world, steps[0]);
      RunKeepsInv(Next(world, steps[0]), steps[1..]);
    }
  }

  /** Over any run whose deletes bury what they delete, every write to the slot strictly raises its
      (epoch, revision), across deletions, recreations and new epochs. */
  lemma VersionsRise(world: World, steps: seq<Step>)
    requires Initially(world) && DeletesBury(world, steps)
    ensures Rising(Run(world, steps).versions)
  {
    RunKeepsInv(world, steps);
  }

  /** No version is reviewed twice, so a review request is applied at most once, even when its receipt has
      expired and been removed. */
  lemma ReviewedAtMostOnce(world: World, steps: seq<Step>)
    requires Initially(world) && DeletesBury(world, steps)
    ensures EachBaseOnce(Run(world, steps).applied)
  {
    RunKeepsInv(world, steps);
  }

  /** A request that was applied can never be applied again, whatever happened in between. */
  lemma AppliedIsSpent(world: World, steps: seq<Step>, k: nat, now: int, retention: nat)
    requires Initially(world) && DeletesBury(world, steps) && k < |Run(world, steps).applied|
    ensures var end := Run(world, steps);
      var again := ReviewTx(end.slot, end.applied[k], now, retention);
      again.Err? || !again.value.applied
  {
    RunKeepsInv(world, steps);
    var end := Run(world, steps);
    var r := end.applied[k];
    if end.slot.card.Some? {
      assert Newer(VersionOf(end.slot.card.value), Version(r.epoch, r.base));
    }
  }

  /** The condition on deletes is exact: recreating a deleted card raises its version if and only if the
      tombstone is no older than the card was. */
  lemma RecreateRaisesExactly(s: Slot, t: Tombstone, r: CreateRequest)
    requires s.card.Some? && VersionOf(s.card.value).epoch == s.epoch && !OldGeneration(s.card.value, s.epoch)
    requires t.epoch == Some(s.epoch) && t.revision >= 1 && CreateTx(DeleteTx(s, t), r).Ok?
    ensures Newer(VersionOf(CreateTx(DeleteTx(s, t), r).value.card.value), VersionOf(s.card.value))
       <==> t.revision >= Or(s.card.value.revision, 0)
  {
  }

  // ----- deleted cards stay deleted -----

  /** The client saw neither the tombstone nor wrote after the delete. */
  predicate Unaware(r: CreateRequest, t: Tombstone) {
    r.base < t.revision && !(r.time.Some? && t.deletedAt.Some? && r.time.value > t.deletedAt.value)
  }

  /** Every create of the run is for the epoch of the tombstone and unaware of it. */
  predicate AllUnaware(steps: seq<Step>, t: Tombstone) {
    forall k :: 0 <= k < |steps| && steps[k].Create? ==>
      Unaware(steps[k].request, t) && steps[k].request.epoch == Some(Or(t.epoch, 0))
  }

  predicate Buried(s: Slot, t: Tombstone) {
    s.card.None? && s.tombstone == Some(t) && s.epoch >= Or(t.epoch, 0)
  }

  /** Clients that do not know of a delete cannot bring the card back, in whatever order their creates,
      reviews and deletes arrive and however many epochs begin in between. */
  lemma {:induction false} UnawareCreatesChangeNothing(world: World, steps: seq<Step>, t: Tombstone)
    requires Buried(world.slot, t) && AllUnaware(steps, t)
    ensures Buried(Run(world, steps).slot, t) && Run(world, steps).versions == world.versions
    decreases |steps|
  {
    if steps != [] {
      UnawareStep(world, steps[0], t);
      assert forall k :: 0 <= k < |steps[1..]| ==> steps[1..][k] == steps[k + 1];
      UnawareCreatesChangeNothing(Next(world, steps[0]), steps[1..], t);
    }
  }

  lemma UnawareStep(world: World, step: Step, t: Tombstone)
    requires Buried(world.slot, t)
    requires step.Create? ==> Unaware(step.request, t) && step.request.epoch == Some(Or(t.epoch, 0))
    ensures Buried(Next(world, step).slot, t) && Next(world, step).versions == world.versions
  {
  }

  /** A create of a card that is not there, by a client of the slot's epoch: it succeeds exactly when no
      tombstone of the epoch stands, or a sound one that the client knows of or wrote after; it is refused
      as deleted exactly when the client is unaware of the tombstone; and the card follows the tombstone. */
  lemma CreateExactly(s: Slot, r: CreateRequest)
    requires s.card.None? || Or(s.card.value.epoch, 0) < s.epoch
    requires r.epoch.None? || r.epoch.value == s.epoch
    ensures var buried, made := s.tombstone.Some? && Or(s.tombstone.value.epoch, 0) == s.epoch, CreateTx(s, r);
      && (made.Ok? <==> !buried || (1 <= s.tombstone.value.revision < MAX_SAFE_INTEGER
                                    && !Unaware(r, s.tombstone.value)))
      && (made == Err(Deleted) <==> buried && s.tombstone.value.revision >= 1 && Unaware(r, s.tombstone.value))
      && (made.Err? ==> made.error == Deleted || made.error == NeedsMigration)
      && (made.Ok? ==>
            made.value == s.(card := Some(Card(Some(s.epoch), made.value.card.value.revision, true, None)))
            && made.value.card.value.revision == Some(if buried then s.tombstone.value.revision + 1 else 1))
  {
  }

  /** A client of another epoch creates nothing, and is told on which side of the slot's it is; the same goes
      for a review that no receipt answers. */
  lemma OtherEpochsChangeNothing(s: Slot, r: CreateRequest, v: ReviewRequest, now: int, retention: nat)
    ensures r.epoch.Some? && r.epoch.value < s.epoch ==> CreateTx(s, r) == Err(StaleEpoch)
    ensures r.epoch.Some? && r.epoch.value > s.epoch ==> CreateTx(s, r) == Err(FutureEpoch)
    ensures v.opId !in s.receipts && v.epoch < s.epoch ==> ReviewTx(s, v, now, retention) == Err(StaleEpoch)
    ensures v.opId !in s.receipts && v.epoch > s.epoch ==> ReviewTx(s, v, now, retention) == Err(FutureEpoch)
  {
  }

  /** A create finds a card of the current generation, or one of a later epoch: a card in the current shape
      answers it unchanged, any other is brought into that shape one revision up. */
  lemma CreateOfExistingExactly(s: Slot, r: CreateRequest)
    requires s.card.Some? && (r.epoch.None? || r.epoch.value == s.epoch)
    requires Or(s.card.value.epoch, 0) >= s.epoch
    ensures var c, made := s.card.value, CreateTx(s, r);
      if c.canonical && c.epoch == Some(s.epoch) && Or(c.revision, 0) >= 1 then made == Ok(s)
      else if Or(c.revision, 0) >= MAX_SAFE_INTEGER then made == Err(NeedsMigration)
      else made == Ok(s.(card := Some(Card(Some(s.epoch), Some(Or(c.revision, 0) + 1), true, c.lastReview))))
  {
  }

  // ----- reviews -----

  /** A review is applied exactly to the version that it was made against, in date, and with no receipt
      standing; then only that card moves, one revision up, and only that receipt is added. */
  lemma ReviewAppliesExactly(s: Slot, r: ReviewRequest, now: int, retention: nat)
    ensures var done := ReviewTx(s, r, now, retention);
      && ((done.Ok? && done.value.applied) <==>
            && s.card.Some? && s.card.value.canonical && r.epoch == s.epoch
            && s.card.value.epoch == Some(s.epoch) && s.card.value.revision == Some(r.base) && r.base < MAX_SAFE_INTEGER
            && r.reviewedAt <= now + CLOCK_SKEW
            && (s.card.value.lastReview.Some? ==> r.reviewedAt > s.card.value.lastReview.value)
            && r.opId !in s.receipts)
      && (done.Ok? && done.value.applied ==>
            && done.value.slot.epoch == s.epoch && done.value.slot.tombstone == s.tombstone
            && done.value.slot.card == Some(Card(Some(s.epoch), Some(r.base + 1), true, Some(r.reviewedAt)))
            && done.value.slot.receipts == s.receipts[r.opId := Receipt(r.fingerprint, now + retention)])
  {
  }

  lemma {:induction false} ReceiptStands(world: World, steps: seq<Step>, opId: nat, receipt: Receipt)
    requires Lookup(world.slot.receipts, opId) == Some(receipt) && ReceiptExpires(opId) !in steps
    ensures Lookup(Run(world, steps).slot.receipts, opId) == Some(receipt)
    decreases |steps|
  {
    if steps != [] {
      assert steps[0] in steps;
      ReceiptStands(Next(world, steps[0]), steps[1..], opId, receipt);
    }
  }

  /** Sent again while its receipt stands and has not expired, a review is acknowledged without a change,
      whatever has happened to the card; and the same id with another content is refused. */
  lemma AnsweredFromReceipt(world: World, r: ReviewRequest, now: int, retention: nat, steps: seq<Step>,
                            again: ReviewRequest, later: int)
    requires ReviewTx(world.slot, r, now, retention).Ok? && ReviewTx(world.slot, r, now, retention).value.applied
    requires ReceiptExpires(r.opId) !in steps && again.opId == r.opId && later < now + retention
    ensures var end := Run(Next(world, Review(r, now, retention)), steps).slot;
      ReviewTx(end, again, later, retention)
      == if again.fingerprint == r.fingerprint then Ok(Reviewed(end, false)) else Err(FingerprintConflict)
  {
    ReceiptStands(Next(world, Review(r, now, retention)), steps, r.opId, Receipt(r.fingerprint, now + retention));
  }
}
