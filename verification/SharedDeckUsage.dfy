/**
 The shared-deck usage ledger (functions/src/sharedDeckPersistence.ts:185-201, 276-400, 402-477):
 creating and revoking decks against an owner's quota, beside the removal of expired documents by
 the database.  Rate limits and the migration fence are not part of this model.
 */
module SharedDeckUsage {
  import opened Prelude

  const MAX_SHARES: nat := 100
  const MAX_BYTES: nat := 25000000
  const RECEIPT_TTL: int := 30 * 24 * 60 * 60 * 1000
  const FUTURE_SKEW: int := 5 * 60 * 1000

  datatype Share = Share(bytes: nat, expiresAt: int)

  datatype Usage = Usage(shares: map<nat, Share>, count: nat, bytes: nat)

  /** The private document of a deck. */
  datatype Owner = Owner(uid: nat, share: Share)

  datatype Operation = Operation(opId: nat, createdAt: int, fingerprint: nat)

  datatype Receipt = Receipt(fingerprint: nat, shareId: nat, expiresAt: int)

  datatype Store = Store(
    owners: map<nat, Owner>, decks: map<nat, int>, usages: map<nat, Usage>, receipts: map<(nat, nat), Receipt>)

  datatype UsageError =
    | OperationExpired | OperationConflict | MigrationRequired | CounterMismatch | StateInvalid
    | Quota | AlreadyExists | NotOwner

  // ----- sums over a ledger -----

  ghost function SumBytes(shares: map<nat, Share>): nat
    decreases |shares|
  {
    if shares == map[] then 0
    else
      var id :| id in shares;
      shares[id].bytes + SumBytes(shares - {id})
  }

  lemma {:induction false} SumWithout(shares: map<nat, Share>, id: nat)
    requires id in shares
    ensures SumBytes(shares) == shares[id].bytes + SumBytes(shares - {id})
    decreases |shares|
  {
    var other :| other in shares && SumBytes(shares) == shares[other].bytes + SumBytes(shares - {other});
    if other != id {
      SumWithout(shares - {other}, id);
      SumWithout(shares - {id}, other);
      assert shares - {other} - {id} == shares - {id} - {other};
    }
  }

  lemma SumAdd(shares: map<nat, Share>, id: nat, share: Share)
    requires id !in shares
    ensures SumBytes(shares[id := share]) == SumBytes(shares) + share.bytes
  {
    SumWithout(shares[id := share], id);
    assert shares[id := share] - {id} == shares;
  }

  lemma {:induction false} SumOfFewer(few: map<nat, Share>, shares: map<nat, Share>)
    requires forall id :: id in few ==> id in shares && shares[id] == few[id]
    ensures SumBytes(few) <= SumBytes(shares) && |few| <= |shares|
    decreases |few|
  {
    if few != map[] {
      var id :| id in few;
      SumWithout(few, id);
      SumWithout(shares, id);
      SumOfFewer(few - {id}, shares - {id});
    }
  }

  // ----- the ledger -----

  function Unexpired(shares: map<nat, Share>, now: int): map<nat, Share> {
    map id | id in shares && now < shares[id].expiresAt :: shares[id]
  }

  ghost function Counted(shares: map<nat, Share>): Usage {
    Usage(shares, |shares|, SumBytes(shares))
  }

  /** The recorded counters must be those of all entries or those of the unexpired ones. */
  ghost predicate CountersMatch(usage: Usage, now: int) {
    usage == Counted(usage.shares)
    || (usage.count, usage.bytes) == (|Unexpired(usage.shares, now)|, SumBytes(Unexpired(usage.shares, now)))
  }

  /** Drop the expired entries and count the rest again. */
  method RecomputeUsage(usage: Usage, now: int) returns (r: Usage)
    ensures r == Counted(Unexpired(usage.shares, now))
  {
    var shares: map<nat, Share>, count: nat, bytes: nat := map[], 0, 0;
    var rest := usage.shares.Keys;
    while rest != {}
      invariant rest <= usage.shares.Keys && shares.Keys !! rest
      invariant forall id :: id in usage.shares && id !in rest && now < usage.shares[id].expiresAt <==> id in shares
      invariant forall id :: id in shares ==> shares[id] == usage.shares[id]
      invariant count == |shares| && bytes == SumBytes(shares)
      decreases rest
    {
      var id :| id in rest;
      rest := rest - {id};
      if now < usage.shares[id].expiresAt {
        SumAdd(shares, id, usage.shares[id]);
        shares, count, bytes := shares[id := usage.shares[id]], count + 1, bytes + usage.shares[id].bytes;
      }
    }
    assert shares == Unexpired(usage.shares, now);
    r := Usage(shares, count, bytes);
  }

  // ----- creating -----

  predicate Accepts(op: Operation, now: int) {
    op.createdAt <= now + FUTURE_SKEW && now - op.createdAt <= RECEIPT_TTL
  }

  predicate HasOwnerDocs(s: Store, uid: nat) {
    exists id :: id in s.owners && s.owners[id].uid == uid
  }

  /** The owner's ledger as a create or revoke starts from it. */
  ghost function LedgerFor(s: Store, uid: nat, now: int): Result<Usage, UsageError> {
    if uid in s.usages then
      if |s.usages[uid].shares| > MAX_SHARES then Err(StateInvalid)
      else if !CountersMatch(s.usages[uid], now) then Err(CounterMismatch)
      else Ok(Counted(Unexpired(s.usages[uid].shares, now)))
    else if HasOwnerDocs(s, uid) then Err(MigrationRequired)
    else Ok(Usage(map[], 0, 0))
  }

  /** The deck that a create leaves: a new one, or the one its receipt names. */
  ghost function Create(s: Store, now: int, uid: nat, id: nat, share: Share, op: Option<Operation>)
    : Result<(Store, nat), UsageError>
  {
    if op.Some? && !Accepts(op.value, now) then Err(OperationExpired)
    else if op.Some? && (uid, op.value.opId) in s.receipts then
      var previous := s.receipts[(uid, op.value.opId)];
      if previous.fingerprint != op.value.fingerprint then Err(OperationConflict) else Ok((s, previous.shareId))
    else
      var ledger := LedgerFor(s, uid, now);
      if ledger.Err? then Err(ledger.error)
      else if share.bytes == 0 then Err(StateInvalid)
      else if ledger.value.count >= MAX_SHARES || ledger.value.bytes + share.bytes > MAX_BYTES then Err(Quota)
      else if id in ledger.value.shares then Err(StateInvalid)
      else if id in s.owners || id in s.decks then Err(AlreadyExists)
      else Ok((Created(s, now, uid, id, share, op, ledger.value), id))
  }

  ghost function Created(s: Store, now: int, uid: nat, id: nat, share: Share, op: Option<Operation>,
                         ledger: Usage): Store
  {
    Store(s.owners[id := Owner(uid, share)], s.decks[id := share.expiresAt],
          s.usages[uid := Usage(ledger.shares[id := share], ledger.count + 1, ledger.bytes + share.bytes)],
          if op.Some? then s.receipts[(uid, op.value.opId) := Receipt(op.value.fingerprint, id, now + RECEIPT_TTL)]
          else s.receipts)
  }

  // ----- revoking -----

  ghost function Revoke(s: Store, now: int, uid: nat, id: nat): Result<Store, UsageError> {
    if id !in s.owners && id !in s.decks then Ok(s)
    else if id !in s.owners then Err(MigrationRequired)
    else if s.owners[id].uid != uid then Err(NotOwner)
    else
      var share := s.owners[id].share;
      if uid !in s.usages then
        if now < share.expiresAt then Err(StateInvalid) else Ok(Removed(s, id))
      else
        var usage := s.usages[uid];
        if |usage.shares| > MAX_SHARES then Err(StateInvalid)
        else if !CountersMatch(usage, now) then Err(CounterMismatch)
        else if (id in usage.shares || now < share.expiresAt) && Lookup(usage.shares, id) != Some(share)
        then Err(StateInvalid)
        else Ok(Removed(s, id).(usages := s.usages[uid := Counted(Unexpired(usage.shares, now) - {id})]))
  }

  function Removed(s: Store, id: nat): Store {
    s.(owners := s.owners - {id}, decks := s.decks - {id})
  }

  // ----- runs -----

  /** `created` and `origin` are history: which operations have created a deck, and for which one each id was
      taken last. */
  datatype World = World(store: Store, now: int, created: seq<(nat, nat)>, origin: map<nat, (nat, nat)>)

  function Starting(s: Store, now: int): World {
    World(s, now, [], map[])
  }

  datatype Step =
    | CreateDeck(now: int, uid: nat, id: nat, share: Share, op: Option<Operation>)
    | RevokeDeck(now: int, uid: nat, id: nat)
    | ExpireOwner(now: int, id: nat)
    | ExpireDeck(now: int, id: nat)
    | ExpireReceipt(now: int, uid: nat, opId: nat)

  /** What a step makes of the documents; a refused one leaves them, and the database may remove a document
      at any time once it has expired. */
  ghost function StoreAfter(s: Store, step: Step): Store {
    match step
    case CreateDeck(now, uid, id, share, op) =>
      var r := Create(s, now, uid, id, share, op);
      if r.Err? then s else r.value.0
    case RevokeDeck(now, uid, id) =>
      var r := Revoke(s, now, uid, id);
      if r.Err? then s else r.value
    case ExpireOwner(now, id) =>
      if id in s.owners && s.owners[id].share.expiresAt <= now then s.(owners := s.owners - {id}) else s
    case ExpireDeck(now, id) =>
      if id in s.decks && s.decks[id] <= now then s.(decks := s.decks - {id}) else s
    case ExpireReceipt(now, uid, opId) =>
      if (uid, opId) in s.receipts && s.receipts[(uid, opId)].expiresAt <= now
      then s.(receipts := s.receipts - {(uid, opId)}) else s
  }

  /** A create that is not answered from a receipt. */
  ghost predicate CreatesDeck(s: Store, step: Step) {
    && step.CreateDeck? && Create(s, step.now, step.uid, step.id, step.share, step.op).Ok?
    && (step.op.Some? ==> (step.uid, step.op.value.opId) !in s.receipts)
  }

  /** Time never goes back. */
  ghost function Next(world: World, step: Step): World {
    if step.now < world.now then world
    else if !CreatesDeck(world.store, step) then world.(store := StoreAfter(world.store, step), now := step.now)
    else if step.op.None?
    then World(StoreAfter(world.store, step), step.now, world.created, world.origin - {step.id})
    else
      var key := (step.uid, step.op.value.opId);
      World(StoreAfter(world.store, step), step.now, world.created + [key], world.origin[step.id := key])
  }

  ghost function Run(world: World, steps: seq<Step>): World
    decreases steps
  {
    if steps == [] then world else Run(Next(world, steps[0]), steps[1..])
  }

  // ----- the invariant -----

  ghost predicate LedgerOk(usage: Usage) {
    usage == Counted(usage.shares) && usage.count <= MAX_SHARES && usage.bytes <= MAX_BYTES
  }

  /** The unexpired entries of a ledger are exactly its owner's unexpired documents. */
  ghost predicate Mirrors(owners: map<nat, Owner>, now: int, uid: nat, usage: Usage) {
    && (forall id :: id in usage.shares && now < usage.shares[id].expiresAt ==> id in owners && owners[id].uid == uid)
    && (forall id :: id in owners && owners[id].uid == uid && now < owners[id].share.expiresAt ==> id in usage.shares)
    && (forall id :: id in usage.shares && id in owners && owners[id].uid == uid ==>
          usage.shares[id] == owners[id].share)
  }

  ghost predicate LedgerInv(owners: map<nat, Owner>, now: int, uid: nat, usage: Usage) {
    LedgerOk(usage) && Mirrors(owners, now, uid, usage)
  }

  ghost predicate AllLedgered(s: Store) {
    forall id :: id in s.owners ==> s.owners[id].uid in s.usages
  }

  ghost predicate Inv(s: Store, now: int) {
    && (forall uid :: uid in s.usages ==> LedgerInv(s.owners, now, uid, s.usages[uid]))
    && AllLedgered(s)
  }

  lemma TimePasses(s: Store, before: int, now: int)
    requires Inv(s, before) && before <= now
    ensures Inv(s, now)
  {
  }

  lemma CreateKeepsInv(s: Store, now: int, uid: nat, id: nat, share: Share, op: Option<Operation>)
    requires Inv(s, now) && Create(s, now, uid, id, share, op).Ok?
    ensures Inv(Create(s, now, uid, id, share, op).value.0, now)
  {
    var t := Create(s, now, uid, id, share, op).value.0;
    if t != s {
      var ledger := LedgerFor(s, uid, now).value;
      CreatedRecord(s, now, uid, id, share, op, ledger);
      CreatedKeepsInv(s, now, uid, id, share, ledger, t.usages[uid], t);
    }
  }

  lemma OthersMirrored(owners: map<nat, Owner>, more: map<nat, Owner>, now: int, uid: nat, id: nat, usage: Usage)
    requires Mirrors(owners, now, uid, usage)
    requires forall k :: k != id ==> Lookup(more, k) == Lookup(owners, k)
    requires id in owners ==> owners[id].uid != uid
    requires id in more ==> more[id].uid != uid
    ensures Mirrors(more, now, uid, usage)
  {
    forall k ensures k != id ==> (k in more <==> k in owners) && (k in owners ==> more[k] == owners[k]) {
      if k != id { assert Lookup(more, k) == Lookup(owners, k); }
    }
  }

  lemma NewLedger(ledger: Usage, id: nat, share: Share)
    requires ledger == Counted(ledger.shares) && id !in ledger.shares
    requires ledger.count < MAX_SHARES && ledger.bytes + share.bytes <= MAX_BYTES
    ensures LedgerOk(Usage(ledger.shares[id := share], ledger.count + 1, ledger.bytes + share.bytes))
  {
    SumAdd(ledger.shares, id, share);
  }

  lemma LedgerIsCounted(s: Store, uid: nat, now: int, ledger: Usage)
    requires LedgerFor(s, uid, now) == Ok(ledger)
    ensures ledger == Counted(ledger.shares)
  {
  }

  /** One owner's deck and ledger change; every other owner's stay as they are. */
  ghost predicate Touched(s: Store, t: Store, uid: nat, id: nat, usage: Usage) {
    && t.usages == s.usages[uid := usage]
    && (forall k :: k != id ==> Lookup(t.owners, k) == Lookup(s.owners, k))
    && (id in s.owners ==> s.owners[id].uid == uid)
    && (id in t.owners ==> t.owners[id].uid == uid)
  }

  lemma LedgerAfter(s: Store, t: Store, now: int, uid: nat, id: nat, usage: Usage, u: nat)
    requires Inv(s, now) && Touched(s, t, uid, id, usage) && LedgerInv(t.owners, now, uid, usage) && u in t.usages
    ensures LedgerInv(t.owners, now, u, t.usages[u])
  {
    if u != uid {
      assert LedgerInv(s.owners, now, u, s.usages[u]);
      OthersMirrored(s.owners, t.owners, now, u, id, s.usages[u]);
    }
  }

  lemma StillLedgered(s: Store, t: Store, uid: nat, id: nat, usage: Usage)
    requires AllLedgered(s) && Touched(s, t, uid, id, usage)
    ensures AllLedgered(t)
  {
    forall k | k in t.owners ensures t.owners[k].uid in t.usages {
      if k != id { assert Lookup(t.owners, k) == Lookup(s.owners, k); }
    }
  }

  lemma TouchedKeepsInv(s: Store, t: Store, now: int, uid: nat, id: nat, usage: Usage)
    requires Inv(s, now) && Touched(s, t, uid, id, usage) && LedgerInv(t.owners, now, uid, usage)
    ensures Inv(t, now)
  {
    StillLedgered(s, t, uid, id, usage);
    forall u | u in t.usages ensures LedgerInv(t.owners, now, u, t.usages[u]) {
      LedgerAfter(s, t, now, uid, id, usage, u);
    }
  }

  lemma NewLedgerInv(s: Store, now: int, uid: nat, id: nat, share: Share, ledger: Usage, usage: Usage)
    requires Inv(s, now) && LedgerFor(s, uid, now) == Ok(ledger) && id !in s.owners && id !in ledger.shares
    requires ledger.count < MAX_SHARES && ledger.bytes + share.bytes <= MAX_BYTES
    requires usage == Usage(ledger.shares[id := share], ledger.count + 1, ledger.bytes + share.bytes)
    ensures LedgerInv(s.owners[id := Owner(uid, share)], now, uid, usage)
  {
    LedgerIsCounted(s, uid, now, ledger);
    NewLedger(ledger, id, share);
    NewShareMirrored(s, now, uid, id, share, ledger);
  }

  lemma CreatedRecord(s: Store, now: int, uid: nat, id: nat, share: Share, op: Option<Operation>, ledger: Usage)
    ensures var t := Created(s, now, uid, id, share, op, ledger);
      && t.owners == s.owners[id := Owner(uid, share)]
      && t.usages == s.usages[uid := Usage(ledger.shares[id := share], ledger.count + 1, ledger.bytes + share.bytes)]
  {
  }

  lemma CreatedKeepsInv(s: Store, now: int, uid: nat, id: nat, share: Share, ledger: Usage, usage: Usage, t: Store)
    requires Inv(s, now) && LedgerFor(s, uid, now) == Ok(ledger) && id !in s.owners && id !in ledger.shares
    requires ledger.count < MAX_SHARES && ledger.bytes + share.bytes <= MAX_BYTES
    requires usage == Usage(ledger.shares[id := share], ledger.count + 1, ledger.bytes + share.bytes)
    requires t.owners == s.owners[id := Owner(uid, share)] && t.usages == s.usages[uid := usage]
    ensures Inv(t, now)
  {
    NewLedgerInv(s, now, uid, id, share, ledger, usage);
    CreatedTouches(s, t, uid, id, share, usage);
    TouchedKeepsInv(s, t, now, uid, id, usage);
  }

  lemma CreatedTouches(s: Store, t: Store, uid: nat, id: nat, share: Share, usage: Usage)
    requires id !in s.owners && t.owners == s.owners[id := Owner(uid, share)] && t.usages == s.usages[uid := usage]
    ensures Touched(s, t, uid, id, usage)
  {
  }

  lemma NewShareMirrored(s: Store, now: int, uid: nat, id: nat, share: Share, ledger: Usage)
    requires Inv(s, now) && LedgerFor(s, uid, now) == Ok(ledger) && id !in s.owners && id !in ledger.shares
    ensures Mirrors(s.owners[id := Owner(uid, share)], now, uid,
                    Usage(ledger.shares[id := share], ledger.count + 1, ledger.bytes + share.bytes))
  {
    LedgerMirrored(s, now, uid, ledger);
  }

  lemma LedgerMirrored(s: Store, now: int, uid: nat, ledger: Usage)
    requires Inv(s, now) && LedgerFor(s, uid, now) == Ok(ledger)
    ensures Mirrors(s.owners, now, uid, ledger)
  {
    if uid in s.usages { assert LedgerInv(s.owners, now, uid, s.usages[uid]); }
  }

  lemma RevokeKeepsInv(s: Store, now: int, uid: nat, id: nat)
    requires Inv(s, now) && Revoke(s, now, uid, id).Ok?
    ensures Inv(Revoke(s, now, uid, id).value, now)
  {
    if id in s.owners {
      assert s.owners[id].uid in s.usages;
      RevokedKeepsInv(s, Revoke(s, now, uid, id).value, now, uid, id);
    }
  }

  lemma RevokedKeepsInv(s: Store, t: Store, now: int, uid: nat, id: nat)
    requires Inv(s, now) && id in s.owners && s.owners[id].uid == uid && uid in s.usages
    requires t.owners == s.owners - {id}
    requires t.usages == s.usages[uid := Counted(Unexpired(s.usages[uid].shares, now) - {id})]
    ensures Inv(t, now)
  {
    assert LedgerInv(s.owners, now, uid, s.usages[uid]);
    RevokedLedger(s.usages[uid], now, id);
    RevokedMirrored(s.owners, s.usages[uid], now, uid, id);
    TouchedKeepsInv(s, t, now, uid, id, Counted(Unexpired(s.usages[uid].shares, now) - {id}));
  }

  lemma RevokedLedger(usage: Usage, now: int, id: nat)
    requires LedgerOk(usage)
    ensures LedgerOk(Counted(Unexpired(usage.shares, now) - {id}))
  {
    SumOfFewer(Unexpired(usage.shares, now) - {id}, usage.shares);
  }

  lemma RevokedMirrored(owners: map<nat, Owner>, usage: Usage, now: int, uid: nat, id: nat)
    requires Mirrors(owners, now, uid, usage)
    ensures Mirrors(owners - {id}, now, uid, Counted(Unexpired(usage.shares, now) - {id}))
  {
  }

  lemma CreateStepKeepsInv(s: Store, step: Step)
    requires step.CreateDeck? && Inv(s, step.now)
    ensures Inv(StoreAfter(s, step), step.now)
  {
    if Create(s, step.now, step.uid, step.id, step.share, step.op).Ok? {
      CreateKeepsInv(s, step.now, step.uid, step.id, step.share, step.op);
    }
  }

  lemma RevokeStepKeepsInv(s: Store, step: Step)
    requires step.RevokeDeck? && Inv(s, step.now)
    ensures Inv(StoreAfter(s, step), step.now)
  {
    if Revoke(s, step.now, step.uid, step.id).Ok? { RevokeKeepsInv(s, step.now, step.uid, step.id); }
  }

  lemma ExpiryKeepsInv(s: Store, step: Step)
    requires !step.CreateDeck? && !step.RevokeDeck? && Inv(s, step.now)
    ensures Inv(StoreAfter(s, step), step.now)
  {
    if step.ExpireOwner? {
      OwnerExpires(s, step.now, step.id);
    } else {
      OthersDoNotMatter(s, StoreAfter(s, step), step.now);
    }
  }

  lemma StoreAfterKeepsInv(s: Store, step: Step)
    requires Inv(s, step.now)
    ensures Inv(StoreAfter(s, step), step.now)
  {
    match step
    case CreateDeck(_, _, _, _, _) => CreateStepKeepsInv(s, step);
    case RevokeDeck(_, _, _) => RevokeStepKeepsInv(s, step);
    case _ => ExpiryKeepsInv(s, step);
  }

  lemma NextStore(world: World, step: Step)
    requires world.now <= step.now
    ensures Next(world, step).store == StoreAfter(world.store, step) && Next(world, step).now == step.now
  {
  }

  lemma NextKeepsInv(world: World, step: Step)
    requires Inv(world.store, world.now)
    ensures Inv(Next(world, step).store, Next(world, step).now)
  {
    if world.now <= step.now {
      TimePasses(world.store, world.now, step.now);
      StoreAfterKeepsInv(world.store, step);
      NextStore(world, step);
    }
  }

  lemma OwnerExpires(s: Store, now: int, id: nat)
    requires Inv(s, now)
    ensures id in s.owners && s.owners[id].share.expiresAt <= now ==> Inv(s.(owners := s.owners - {id}), now)
  {
  }

  lemma OthersDoNotMatter(s: Store, t: Store, now: int)
    requires Inv(s, now) && t.owners == s.owners && t.usages == s.usages
    ensures Inv(t, now)
  {
  }

  lemma {:induction false} RunKeepsInv(world: World, steps: seq<Step>)
    requires Inv(world.store, world.now)
    ensures Inv(Run(world, steps).store, Run(world, steps).now)
    decreases |steps|
  {
    if steps != [] {
      NextKeepsInv(world, steps[0]);
      RunKeepsInv(Next(world, steps[0]), steps[1..]);
    }
  }

  const EMPTY: Store := Store(map[], map[], map[], map[])

  /** In every reachable state: counters are true, caps hold, and the unexpired entries of each ledger
      are exactly its owner's unexpired documents, with their bytes and expiry. */
  lemma LedgersAreTrue(steps: seq<Step>, start: int, uid: nat, id: nat)
    ensures var world := Run(Starting(EMPTY, start), steps);
      var s := world.store;
      && (uid in s.usages ==> LedgerOk(s.usages[uid]))
      && var held := if uid in s.usages then Unexpired(s.usages[uid].shares, world.now) else map[];
      && (id in held <==> id in s.owners && s.owners[id].uid == uid && world.now < s.owners[id].share.expiresAt)
      && (id in held ==> held[id] == s.owners[id].share)
  {
    RunKeepsInv(Starting(EMPTY, start), steps);
    var world := Run(Starting(EMPTY, start), steps);
    if uid in world.store.usages { assert LedgerInv(world.store.owners, world.now, uid, world.store.usages[uid]); }
  }

  /** The unexpired entries of an owner's ledger. */
  function HeldBy(s: Store, uid: nat, now: int): map<nat, Share> {
    if uid in s.usages then Unexpired(s.usages[uid].shares, now) else map[]
  }

  /** Each refusal of a create, with its cause; the other errors have none. */
  ghost predicate Caused(e: UsageError, s: Store, now: int, uid: nat, id: nat, share: Share, op: Option<Operation>) {
    var held := HeldBy(s, uid, now);
    match e
    case OperationExpired => op.Some? && !Accepts(op.value, now)
    case OperationConflict =>
      op.Some? && (uid, op.value.opId) in s.receipts
      && s.receipts[(uid, op.value.opId)].fingerprint != op.value.fingerprint
    case Quota => |held| >= MAX_SHARES || SumBytes(held) + share.bytes > MAX_BYTES
    case AlreadyExists => id in s.owners || id in s.decks
    case StateInvalid => share.bytes == 0 || (id in held && id in s.owners && s.owners[id].uid == uid)
    case _ => false
  }

  /** The consistency errors cannot be reached: every refusal of a create has its cause in the request, the
      quota or a taken id, and the counter mismatch and the missing migration have none. */
  lemma CreateErrors(steps: seq<Step>, start: int, now: int, uid: nat, id: nat, share: Share, op: Option<Operation>)
    requires Run(Starting(EMPTY, start), steps).now <= now
    ensures var s := Run(Starting(EMPTY, start), steps).store;
      var r := Create(s, now, uid, id, share, op);
      r.Err? ==> Caused(r.error, s, now, uid, id, share, op)
  {
    RunKeepsInv(Starting(EMPTY, start), steps);
    var world := Run(Starting(EMPTY, start), steps);
    TimePasses(world.store, world.now, now);
    if Create(world.store, now, uid, id, share, op).Err? { RefusalsCaused(world.store, now, uid, id, share, op); }
  }

  lemma RefusalsCaused(s: Store, now: int, uid: nat, id: nat, share: Share, op: Option<Operation>)
    requires Inv(s, now) && Create(s, now, uid, id, share, op).Err?
    ensures Caused(Create(s, now, uid, id, share, op).error, s, now, uid, id, share, op)
  {
    LedgerIsHeld(s, uid, now);
    HeldAreOwned(s, uid, now, id);
    RefusalsOfLedger(s, now, uid, id, share, op);
  }

  lemma HeldAreOwned(s: Store, uid: nat, now: int, id: nat)
    requires Inv(s, now)
    ensures id in HeldBy(s, uid, now) ==> id in s.owners && s.owners[id].uid == uid
  {
    if uid in s.usages { assert LedgerInv(s.owners, now, uid, s.usages[uid]); }
  }

  lemma RefusalsOfLedger(s: Store, now: int, uid: nat, id: nat, share: Share, op: Option<Operation>)
    requires Create(s, now, uid, id, share, op).Err? && LedgerFor(s, uid, now) == Ok(Counted(HeldBy(s, uid, now)))
    requires id in HeldBy(s, uid, now) ==> id in s.owners && s.owners[id].uid == uid
    ensures Caused(Create(s, now, uid, id, share, op).error, s, now, uid, id, share, op)
  {
  }

  lemma LedgerIsHeld(s: Store, uid: nat, now: int)
    requires Inv(s, now)
    ensures LedgerFor(s, uid, now) == Ok(Counted(HeldBy(s, uid, now)))
  {
    LedgerAlwaysOpens(s, uid, now);
    EmptyCounts();
  }

  lemma EmptyCounts()
    ensures Counted(map[]) == Usage(map[], 0, 0)
  {
  }

  lemma LedgerAlwaysOpens(s: Store, uid: nat, now: int)
    requires Inv(s, now)
    ensures LedgerFor(s, uid, now).Ok?
    ensures forall id :: id in LedgerFor(s, uid, now).value.shares ==> id in s.owners
  {
    if uid in s.usages { assert LedgerInv(s.owners, now, uid, s.usages[uid]); }
  }

  /** A revoke fails only for want of ownership, or on a public deck without its private document. */
  lemma RevokeErrors(steps: seq<Step>, start: int, now: int, uid: nat, id: nat)
    requires Run(Starting(EMPTY, start), steps).now <= now
    ensures var s := Run(Starting(EMPTY, start), steps).store;
      var r := Revoke(s, now, uid, id);
      r.Err? ==> if id in s.owners then r.error == NotOwner && s.owners[id].uid != uid
                 else r.error == MigrationRequired && id in s.decks
  {
    RunKeepsInv(Starting(EMPTY, start), steps);
    var world := Run(Starting(EMPTY, start), steps);
    TimePasses(world.store, world.now, now);
    OwnDeckRevokes(world.store, now, uid, id);
  }

  lemma OwnDeckRevokes(s: Store, now: int, uid: nat, id: nat)
    requires Inv(s, now)
    ensures id in s.owners && s.owners[id].uid == uid ==> Revoke(s, now, uid, id).Ok?
  {
    if uid in s.usages { assert LedgerInv(s.owners, now, uid, s.usages[uid]); }
  }

  // ----- an operation creates at most one deck -----

  /** When the receipt of a create has expired, a retry of its operation is refused as stale, exactly
      when the operation was dated before it was committed.  The accepted clock skew breaks this: a date
      ahead of the server leaves the retry acceptable after its receipt is gone. */
  lemma RetryAfterReceiptExactly(op: Operation, committed: int)
    ensures (forall later: int :: committed + RECEIPT_TTL <= later ==> !Accepts(op, later))
       <==> op.createdAt < committed
  {
    assert Accepts(op, committed + RECEIPT_TTL) <==>
      op.createdAt <= committed + RECEIPT_TTL + FUTURE_SKEW && committed <= op.createdAt;
    if committed <= op.createdAt {
      assert Accepts(op, Max(committed + RECEIPT_TTL, op.createdAt));
    }
  }

  /** The life that the callable function gives a deck. */
  const DECK_TTL: int := 30 * 24 * 60 * 60 * 1000

  predicate Stamped(step: Step) {
    step.CreateDeck? ==> step.share.expiresAt == step.now + DECK_TTL
  }

  predicate AllStamped(steps: seq<Step>) {
    forall k :: 0 <= k < |steps| ==> Stamped(steps[k])
  }

  /** Every create of the run in the name of the operation carries its date. */
  predicate Carries(steps: seq<Step>, uid: nat, op: Operation) {
    forall k :: 0 <= k < |steps| && InNameOf(steps[k], uid, op) ==> steps[k].op.value.createdAt == op.createdAt
  }

  predicate InNameOf(step: Step, uid: nat, op: Operation) {
    step.CreateDeck? && step.op.Some? && step.uid == uid && step.op.value.opId == op.opId
  }

  predicate Twice(created: seq<(nat, nat)>, key: (nat, nat)) {
    exists j, k :: 0 <= j < k < |created| && created[j] == key && created[k] == key
  }

  function Sending(uid: nat, op: Operation, now: int, id: nat, bytes: nat): Step {
    CreateDeck(now, uid, id, Share(bytes, now + DECK_TTL), Some(op))
  }

  /** After the operation is sent to a store at the time it commits. */
  ghost function Sent(s: Store, uid: nat, op: Operation, committed: int, id: nat, bytes: nat): World {
    Next(Starting(s, committed), Sending(uid, op, committed, id, bytes))
  }

  /** The operation created a deck at once, and another one in a run of retries. */
  ghost predicate CreatesTwice(s: Store, uid: nat, op: Operation, committed: int, id: nat, bytes: nat,
                               steps: seq<Step>)
  {
    && Sent(s, uid, op, committed, id, bytes).created == [(uid, op.opId)]
    && Carries(steps, uid, op) && AllStamped(steps)
    && Twice(Run(Sent(s, uid, op, committed, id, bytes), steps).created, (uid, op.opId))
  }

  ghost predicate MayCreateTwice(uid: nat, op: Operation, committed: int) {
    exists s, id, bytes, steps :: CreatesTwice(s, uid, op, committed, id, bytes, steps)
  }

  /** The operation has created its deck, and cannot create another. */
  ghost predicate Settled(world: World, key: (nat, nat), date: int) {
    && key in world.created && !Twice(world.created, key)
    && (key in world.store.receipts ==> date + RECEIPT_TTL < world.store.receipts[key].expiresAt)
    && (key !in world.store.receipts ==> RECEIPT_TTL < world.now - date)
  }

  lemma AnotherKey(created: seq<(nat, nat)>, key: (nat, nat), other: (nat, nat))
    requires key in created && !Twice(created, key) && other != key
    ensures key in created + [other] && !Twice(created + [other], key)
  {
    var all := created + [other];
    var i :| 0 <= i < |created| && created[i] == key;
    assert all[i] == key;
    forall j, k | 0 <= j < k < |all| ensures !(all[j] == key && all[k] == key) {
      if k < |created| { assert all[j] == created[j] && all[k] == created[k]; }
    }
  }

  lemma NextKeepsSettled(world: World, step: Step, uid: nat, op: Operation)
    requires Settled(world, (uid, op.opId), op.createdAt) && Carries([step], uid, op)
    ensures Settled(Next(world, step), (uid, op.opId), op.createdAt)
  {
    assert [step][0] == step;
    var key, next := (uid, op.opId), Next(world, step);
    if next.created != world.created { AnotherKey(world.created, key, (step.uid, step.op.value.opId)); }
  }

  lemma {:induction false} RunKeepsSettled(world: World, steps: seq<Step>, uid: nat, op: Operation)
    requires Settled(world, (uid, op.opId), op.createdAt) && Carries(steps, uid, op)
    ensures !Twice(Run(world, steps).created, (uid, op.opId))
    decreases |steps|
  {
    if steps != [] {
      assert Carries([steps[0]], uid, op) && Carries(steps[1..], uid, op);
      NextKeepsSettled(world, steps[0], uid, op);
      RunKeepsSettled(Next(world, steps[0]), steps[1..], uid, op);
    }
  }

  lemma FirstSettles(s: Store, uid: nat, op: Operation, committed: int, id: nat, bytes: nat)
    requires op.createdAt < committed && Sent(s, uid, op, committed, id, bytes).created == [(uid, op.opId)]
    ensures Settled(Sent(s, uid, op, committed, id, bytes), (uid, op.opId), op.createdAt)
  {
  }

  lemma FirstDeck(uid: nat, op: Operation, committed: int, bytes: nat)
    requires Accepts(op, committed) && 0 < bytes <= MAX_BYTES
    ensures var world, share := Sent(EMPTY, uid, op, committed, 0, bytes), Share(bytes, committed + DECK_TTL);
      && world.store.owners == map[0 := Owner(uid, share)] && world.store.decks == map[0 := share.expiresAt]
      && world.store.usages == map[uid := Usage(map[0 := share], 1, share.bytes)]
      && world.store.receipts == map[(uid, op.opId) := Receipt(op.fingerprint, 0, committed + RECEIPT_TTL)]
      && world.now == committed && world.created == [(uid, op.opId)]
  {
  }

  lemma ReceiptGone(world: World, uid: nat, op: Operation, later: int)
    requires (uid, op.opId) in world.store.receipts && world.store.receipts[(uid, op.opId)].expiresAt <= later
    requires world.now <= later
    ensures Next(world, ExpireReceipt(later, uid, op.opId))
         == world.(store := world.store.(receipts := world.store.receipts - {(uid, op.opId)}), now := later)
  {
  }

  lemma OneExpired(share: Share, now: int)
    requires share.expiresAt <= now
    ensures Unexpired(map[0 := share], now) == map[]
    ensures Counted(map[0 := share]) == Usage(map[0 := share], 1, share.bytes)
    ensures Counted(map[]) == Usage(map[], 0, 0)
  {
    SumAdd(map[], 0, share);
    assert map[][0 := share] == map[0 := share];
  }

  /** The expired deck is still there, and does not count against the quota. */
  lemma SecondDeck(s: Store, uid: nat, op: Operation, later: int, first: Share, bytes: nat)
    requires Accepts(op, later) && 0 < bytes <= MAX_BYTES && first.expiresAt <= later
    requires s.owners == map[0 := Owner(uid, first)] && s.decks == map[0 := first.expiresAt]
    requires s.usages == map[uid := Usage(map[0 := first], 1, first.bytes)] && (uid, op.opId) !in s.receipts
    ensures CreatesDeck(s, Sending(uid, op, later, 1, bytes))
    ensures var t := StoreAfter(s, Sending(uid, op, later, 1, bytes));
      t.decks == s.decks[1 := later + DECK_TTL]
  {
    OneExpired(first, later);
  }

  lemma RunOf2(world: World, a: Step, b: Step)
    ensures Run(world, [a, b]) == Next(Next(world, a), b)
  {
    assert [a, b][1..] == [b] && [b][1..] == [];
    assert Run(Next(world, a), [b]) == Run(Next(Next(world, a), b), []);
  }

  /** An operation dated at its commit or after it, within the accepted skew, can be sent again when its
      receipt is gone: it creates a second deck.  By then the first one has expired. */
  lemma SkewCreatesSecondDeck(uid: nat, op: Operation, committed: int, bytes: nat)
    returns (later: int, steps: seq<Step>)
    requires Accepts(op, committed) && committed <= op.createdAt && 0 < bytes <= MAX_BYTES
    ensures CreatesTwice(EMPTY, uid, op, committed, 0, bytes, steps)
    ensures var end := Run(Sent(EMPTY, uid, op, committed, 0, bytes), steps);
      && end.created == [(uid, op.opId), (uid, op.opId)] && end.now == later
      && end.store.decks == map[0 := committed + DECK_TTL, 1 := later + DECK_TTL]
      && committed + DECK_TTL <= later
  {
    later := Max(committed + RECEIPT_TTL, op.createdAt);
    var gone, again := ExpireReceipt(later, uid, op.opId), Sending(uid, op, later, 1, bytes);
    steps := [gone, again];
    var world := Sent(EMPTY, uid, op, committed, 0, bytes);
    FirstDeck(uid, op, committed, bytes);
    ReceiptGone(world, uid, op, later);
    SecondDeck(Next(world, gone).store, uid, op, later, Share(bytes, committed + DECK_TTL), bytes);
    RunOf2(world, gone, again);
    var end := Run(world, steps);
    assert end.created == [(uid, op.opId)] + [(uid, op.opId)];
    assert end.created[0] == (uid, op.opId) && end.created[1] == (uid, op.opId);
  }

  /** The exact condition: an accepted operation can create two decks, in some run of retries, exactly when
      it was not dated before it was first committed. */
  lemma SecondDeckExactly(uid: nat, op: Operation, committed: int)
    requires Accepts(op, committed)
    ensures MayCreateTwice(uid, op, committed) <==> committed <= op.createdAt
  {
    if committed <= op.createdAt {
      var later, steps := SkewCreatesSecondDeck(uid, op, committed, MAX_BYTES);
    } else {
      forall s, id, bytes, steps ensures !CreatesTwice(s, uid, op, committed, id, bytes, steps) {
        NeverTwice(s, uid, op, committed, id, bytes, steps);
      }
    }
  }

  lemma NeverTwice(s: Store, uid: nat, op: Operation, committed: int, id: nat, bytes: nat, steps: seq<Step>)
    requires op.createdAt < committed
    ensures !CreatesTwice(s, uid, op, committed, id, bytes, steps)
  {
    if Sent(s, uid, op, committed, id, bytes).created == [(uid, op.opId)] && Carries(steps, uid, op) {
      FirstSettles(s, uid, op, committed, id, bytes);
      RunKeepsSettled(Sent(s, uid, op, committed, id, bytes), steps, uid, op);
    }
  }

  // ----- never two decks of one operation at a time -----

  /** While a deck stands unexpired, the receipt of its operation stands and names it. */
  ghost predicate Receipted(world: World) {
    forall id :: id in world.store.decks && world.now < world.store.decks[id] && id in world.origin ==>
      var key := world.origin[id];
      && key in world.store.receipts && world.store.receipts[key].shareId == id
      && world.store.decks[id] <= world.store.receipts[key].expiresAt
  }

  lemma CreateKeepsReceipted(world: World, step: Step)
    requires Receipted(world) && Stamped(step) && CreatesDeck(world.store, step) && world.now <= step.now
    ensures Receipted(Next(world, step))
  {
  }

  lemma NextKeepsReceipted(world: World, step: Step)
    requires Receipted(world) && Stamped(step)
    ensures Receipted(Next(world, step))
  {
    if step.now >= world.now && CreatesDeck(world.store, step) { CreateKeepsReceipted(world, step); }
  }

  lemma {:induction false} RunKeepsReceipted(world: World, steps: seq<Step>)
    requires Receipted(world) && AllStamped(steps)
    ensures Receipted(Run(world, steps))
    decreases |steps|
  {
    if steps != [] {
      NextKeepsReceipted(world, steps[0]);
      assert AllStamped(steps[1..]);
      RunKeepsReceipted(Next(world, steps[0]), steps[1..]);
    }
  }

  /** Over any run of creates with the deck's life that the function gives, with operations of any date,
      future ones too: at no time do two unexpired decks of one operation stand. */
  lemma NeverTwoDecksAtOnce(steps: seq<Step>, start: int, a: nat, b: nat)
    requires AllStamped(steps) && a != b
    ensures var end := Run(Starting(EMPTY, start), steps);
      && a in end.store.decks && b in end.store.decks && a in end.origin && b in end.origin
      && end.origin[a] == end.origin[b]
      ==> end.store.decks[a] <= end.now || end.store.decks[b] <= end.now
  {
    RunKeepsReceipted(Starting(EMPTY, start), steps);
  }

  /** Every operation of the run is dated before the moment it is sent. */
  predicate PastDated(steps: seq<Step>) {
    forall k :: 0 <= k < |steps| && steps[k].CreateDeck? && steps[k].op.Some? ==>
      steps[k].op.value.createdAt < steps[k].now
  }

  /** A retried operation carries its original date. */
  predicate Consistent(steps: seq<Step>, dates: map<(nat, nat), int>) {
    forall k :: 0 <= k < |steps| && steps[k].CreateDeck? && steps[k].op.Some? ==>
      var key := (steps[k].uid, steps[k].op.value.opId);
      key in dates && dates[key] == steps[k].op.value.createdAt
  }

  /** An operation that has created a deck still has its receipt, or is stale for good. */
  ghost predicate Spent(world: World, dates: map<(nat, nat), int>) {
    forall k :: 0 <= k < |world.created| ==>
      var key := world.created[k];
      && key in dates
      && (key in world.store.receipts ==> dates[key] + RECEIPT_TTL < world.store.receipts[key].expiresAt)
      && (key !in world.store.receipts ==> RECEIPT_TTL < world.now - dates[key])
  }

  ghost predicate OnceEach(keys: seq<(nat, nat)>) {
    forall j, k :: 0 <= j < k < |keys| ==> keys[j] != keys[k]
  }

  lemma NextKeepsSpent(world: World, step: Step, dates: map<(nat, nat), int>)
    requires Spent(world, dates) && OnceEach(world.created)
    requires PastDated([step]) && Consistent([step], dates)
    ensures Spent(Next(world, step), dates) && OnceEach(Next(world, step).created)
  {
    assert [step][0] == step;
  }

  lemma {:induction false} RunKeepsSpent(world: World, steps: seq<Step>, dates: map<(nat, nat), int>)
    requires Spent(world, dates) && OnceEach(world.created)
    requires PastDated(steps) && Consistent(steps, dates)
    ensures OnceEach(Run(world, steps).created)
    decreases |steps|
  {
    if steps != [] {
      assert PastDated([steps[0]]) && Consistent([steps[0]], dates);
      NextKeepsSpent(world, steps[0], dates);
      assert PastDated(steps[1..]) && Consistent(steps[1..], dates);
      RunKeepsSpent(Next(world, steps[0]), steps[1..], dates);
    }
  }

  /** Over any run of past-dated operations, each operation creates at most one deck, even when its
      receipt has been removed. */
  lemma OperationCreatesOnce(steps: seq<Step>, start: int, dates: map<(nat, nat), int>)
    requires PastDated(steps) && Consistent(steps, dates)
    ensures OnceEach(Run(Starting(EMPTY, start), steps).created)
  {
    RunKeepsSpent(Starting(EMPTY, start), steps, dates);
  }

  // ----- the transactions, as they update the stored documents -----

  lemma AllUnexpired(shares: map<nat, Share>, now: int)
    requires forall id :: id in shares ==> now < shares[id].expiresAt
    ensures Unexpired(shares, now) == shares
  {
  }

  class UsageStore {
    var owners: map<nat, Owner>
    var decks: map<nat, int>
    var usages: map<nat, Usage>
    var receipts: map<(nat, nat), Receipt>

    ghost function View(): Store
      reads this
    {
      Store(owners, decks, usages, receipts)
    }

    /** Add up a ledger's entries and compare them, and the unexpired ones, with its counters. */
    method ValidateUsageCounters(usage: Usage, active: Usage, ghost now: int) returns (ok: bool)
      requires active == Counted(Unexpired(usage.shares, now))
      ensures ok <==> CountersMatch(usage, now)
    {
      var bytes: nat, rest := 0, usage.shares;
      while rest != map[]
        invariant bytes + SumBytes(rest) == SumBytes(usage.shares)
        decreases rest.Keys
      {
        var id :| id in rest;
        SumWithout(rest, id);
        bytes := bytes + rest[id].bytes;
        rest := rest - {id};
      }
      ok := (usage.count == |usage.shares| && usage.bytes == bytes)
            || (usage.count == active.count && usage.bytes == active.bytes);
    }

    method OpenLedger(uid: nat, now: int) returns (r: Result<Usage, UsageError>)
      ensures r == LedgerFor(View(), uid, now)
    {
      if uid in usages {
        if |usages[uid].shares| > MAX_SHARES { return Err(StateInvalid); }
        var active := RecomputeUsage(usages[uid], now);
        var ok := ValidateUsageCounters(usages[uid], active, now);
        return if ok then Ok(active) else Err(CounterMismatch);
      }
      if exists id :: id in owners && owners[id].uid == uid { return Err(MigrationRequired); }
      return Ok(Usage(map[], 0, 0));
    }

    method CreateSharedDeck(now: int, uid: nat, id: nat, share: Share, op: Option<Operation>)
      returns (r: Result<nat, UsageError>)
      modifies this
      ensures var want := Create(old(View()), now, uid, id, share, op);
        && View() == (if want.Ok? then want.value.0 else old(View()))
        && r == (if want.Ok? then Ok(want.value.1) else Err(want.error))
    {
      if op.Some? {
        if !Accepts(op.value, now) { return Err(OperationExpired); }
        if (uid, op.value.opId) in receipts {
          var previous := receipts[(uid, op.value.opId)];
          return if previous.fingerprint != op.value.fingerprint then Err(OperationConflict) else Ok(previous.shareId);
        }
      }
      var found := OpenLedger(uid, now);
      if found.Err? { return Err(found.error); }
      var usage := found.value;
      if share.bytes == 0 { return Err(StateInvalid); }
      if usage.count >= MAX_SHARES || usage.bytes + share.bytes > MAX_BYTES { return Err(Quota); }
      if id in usage.shares { return Err(StateInvalid); }
      if id in owners || id in decks { return Err(AlreadyExists); }
      usage := Usage(usage.shares[id := share], usage.count + 1, usage.bytes + share.bytes);
      decks := decks[id := share.expiresAt];
      owners := owners[id := Owner(uid, share)];
      usages := usages[uid := usage];
      if op.Some? {
        receipts := receipts[(uid, op.value.opId) := Receipt(op.value.fingerprint, id, now + RECEIPT_TTL)];
      }
      return Ok(id);
    }

    method RevokeSharedDeck(now: int, uid: nat, id: nat) returns (r: Result<bool, UsageError>)
      modifies this
      ensures var want := Revoke(old(View()), now, uid, id);
        && View() == (if want.Ok? then want.value else old(View()))
        && (r.Err? <==> want.Err?) && (r.Err? ==> r.error == want.error)
    {
      if id !in owners && id !in decks { return Ok(false); }
      if id !in owners { return Err(MigrationRequired); }
      if owners[id].uid != uid { return Err(NotOwner); }
      var share := owners[id].share;
      if uid in usages {
        if |usages[uid].shares| > MAX_SHARES { return Err(StateInvalid); }
        var active := RecomputeUsage(usages[uid], now);
        var ok := ValidateUsageCounters(usages[uid], active, now);
        if !ok { return Err(CounterMismatch); }
        if (id in usages[uid].shares || now < share.expiresAt) && Lookup(usages[uid].shares, id) != Some(share) {
          return Err(StateInvalid);
        }
        var without := RecomputeUsage(Usage(active.shares - {id}, 0, 0), now);
        AllUnexpired(active.shares - {id}, now);
        usages := usages[uid := without];
      } else if now < share.expiresAt {
        return Err(StateInvalid);
      }
      decks := decks - {id};
      owners := owners - {id};
      return Ok(true);
    }
  }
}
