/**
 What creating and revoking do to the documents of shared decks (functions/src/sharedDeckPersistence.ts:
 276-400, 402-477), over runs: exactly when a create succeeds, what it leaves, how long a deck stands, and
 what a retry is told.
 */
module SharedDeckDocuments {
  import opened Prelude
  import opened SharedDeckUsage

  // ----- opening a ledger -----

  /** A ledger opens exactly with at most 100 entries and with the counters of all of them or of the unexpired
      ones, and then lists and counts the unexpired ones; without a ledger, exactly an owner of no deck has an
      empty one. */
  lemma LedgerOpensExactly(s: Store, uid: nat, now: int)
    ensures uid in s.usages ==>
      var usage, held := s.usages[uid], HeldBy(s, uid, now);
      && (LedgerFor(s, uid, now).Ok? <==>
            && |usage.shares| <= 100
            && ((usage.count == |usage.shares| && usage.bytes == SumBytes(usage.shares))
                || (usage.count == |held| && usage.bytes == SumBytes(held))))
      && (LedgerFor(s, uid, now).Ok? ==> LedgerFor(s, uid, now).value == Usage(held, |held|, SumBytes(held)))
    ensures uid !in s.usages ==>
      && (LedgerFor(s, uid, now).Ok? <==> forall id :: id in s.owners ==> s.owners[id].uid != uid)
      && (LedgerFor(s, uid, now).Ok? ==> LedgerFor(s, uid, now).value == Usage(map[], 0, 0))
  {
  }

  // ----- creating -----

  /** In every reachable state a create succeeds exactly when its operation is in date and either its
      receipt is for the same content, or the deck is not empty, fits the quota beside what its owner
      holds, and takes a free id. */
  lemma CreateSucceedsExactly(steps: seq<Step>, start: int, now: int, uid: nat, id: nat, share: Share,
                              op: Option<Operation>)
    requires Run(Starting(EMPTY, start), steps).now <= now
    ensures var s := Run(Starting(EMPTY, start), steps).store;
      var held := HeldBy(s, uid, now);
      Create(s, now, uid, id, share, op).Ok? <==>
        && (op.Some? ==> op.value.createdAt <= now + FUTURE_SKEW && now <= op.value.createdAt + RECEIPT_TTL)
        && if op.Some? && (uid, op.value.opId) in s.receipts
           then s.receipts[(uid, op.value.opId)].fingerprint == op.value.fingerprint
           else 0 < share.bytes && |held| < MAX_SHARES && SumBytes(held) + share.bytes <= MAX_BYTES
                && id !in s.owners && id !in s.decks
  {
    RunKeepsInv(Starting(EMPTY, start), steps);
    var world := Run(Starting(EMPTY, start), steps);
    TimePasses(world.store, world.now, now);
    CreateDecides(world.store, now, uid, id, share, op);
  }

  lemma CreateDecides(s: Store, now: int, uid: nat, id: nat, share: Share, op: Option<Operation>)
    requires Inv(s, now)
    ensures var held := HeldBy(s, uid, now);
      Create(s, now, uid, id, share, op).Ok? <==>
        && (op.Some? ==> op.value.createdAt <= now + FUTURE_SKEW && now <= op.value.createdAt + RECEIPT_TTL)
        && if op.Some? && (uid, op.value.opId) in s.receipts
           then s.receipts[(uid, op.value.opId)].fingerprint == op.value.fingerprint
           else 0 < share.bytes && |held| < MAX_SHARES && SumBytes(held) + share.bytes <= MAX_BYTES
                && id !in s.owners && id !in s.decks
  {
    LedgerIsHeld(s, uid, now);
    LedgerAlwaysOpens(s, uid, now);
    LedgerDecides(s, now, uid, id, share, op, HeldBy(s, uid, now));
  }

  lemma LedgerDecides(s: Store, now: int, uid: nat, id: nat, share: Share, op: Option<Operation>, held: map<nat, Share>)
    requires LedgerFor(s, uid, now) == Ok(Counted(held)) && (id in held ==> id in s.owners)
    ensures Create(s, now, uid, id, share, op).Ok? <==>
        && (op.Some? ==> op.value.createdAt <= now + FUTURE_SKEW && now <= op.value.createdAt + RECEIPT_TTL)
        && if op.Some? && (uid, op.value.opId) in s.receipts
           then s.receipts[(uid, op.value.opId)].fingerprint == op.value.fingerprint
           else 0 < share.bytes && |held| < MAX_SHARES && SumBytes(held) + share.bytes <= MAX_BYTES
                && id !in s.owners && id !in s.decks
  {
  }

  /** A create that makes a deck leaves its two documents and, for an operation, its receipt; its owner
      holds one deck more; and nothing else changes for anybody. */
  lemma CreateLeaves(s: Store, now: int, uid: nat, id: nat, share: Share, op: Option<Operation>)
    requires Inv(s, now) && CreatesDeck(s, CreateDeck(now, uid, id, share, op)) && now < share.expiresAt
    ensures var (t, made) := Create(s, now, uid, id, share, op).value;
      && made == id
      && t.owners == s.owners[id := Owner(uid, share)] && t.decks == s.decks[id := share.expiresAt]
      && t.receipts == (if op.None? then s.receipts
                        else s.receipts[(uid, op.value.opId) := Receipt(op.value.fingerprint, id, now + RECEIPT_TTL)])
      && HeldBy(t, uid, now) == HeldBy(s, uid, now)[id := share]
      && forall u :: u != uid ==> HeldBy(t, u, now) == HeldBy(s, u, now)
  {
    var ledger := Counted(HeldBy(s, uid, now));
    LedgerIsHeld(s, uid, now);
    CreateIsCreated(s, now, uid, id, share, op, ledger);
    CreatedDocuments(s, now, uid, id, share, op, ledger);
    HeldAfterCreate(s, Created(s, now, uid, id, share, op, ledger), now, uid, id, share, ledger);
  }

  lemma CreateIsCreated(s: Store, now: int, uid: nat, id: nat, share: Share, op: Option<Operation>, ledger: Usage)
    requires CreatesDeck(s, CreateDeck(now, uid, id, share, op)) && LedgerFor(s, uid, now) == Ok(ledger)
    ensures Create(s, now, uid, id, share, op) == Ok((Created(s, now, uid, id, share, op, ledger), id))
  {
  }

  lemma CreatedDocuments(s: Store, now: int, uid: nat, id: nat, share: Share, op: Option<Operation>, ledger: Usage)
    ensures var t := Created(s, now, uid, id, share, op, ledger);
      && t.owners == s.owners[id := Owner(uid, share)] && t.decks == s.decks[id := share.expiresAt]
      && t.receipts == (if op.None? then s.receipts
                        else s.receipts[(uid, op.value.opId) := Receipt(op.value.fingerprint, id, now + RECEIPT_TTL)])
      && t.usages == s.usages[uid := Usage(ledger.shares[id := share], ledger.count + 1, ledger.bytes + share.bytes)]
  {
  }

  lemma HeldAfterCreate(s: Store, t: Store, now: int, uid: nat, id: nat, share: Share, ledger: Usage)
    requires ledger.shares == HeldBy(s, uid, now) && now < share.expiresAt
    requires t.usages
          == s.usages[uid := Usage(ledger.shares[id := share], ledger.count + 1, ledger.bytes + share.bytes)]
    ensures HeldBy(t, uid, now) == HeldBy(s, uid, now)[id := share]
    ensures forall u :: u != uid ==> HeldBy(t, u, now) == HeldBy(s, u, now)
  {
    OneLedger(s, t, uid, Usage(ledger.shares[id := share], ledger.count + 1, ledger.bytes + share.bytes), now);
    UnexpiredWith(ledger.shares, id, share, now);
  }

  lemma OneLedger(s: Store, t: Store, uid: nat, usage: Usage, now: int)
    requires t.usages == s.usages[uid := usage]
    ensures HeldBy(t, uid, now) == Unexpired(usage.shares, now)
    ensures forall u :: u != uid ==> HeldBy(t, u, now) == HeldBy(s, u, now)
  {
  }

  lemma UnexpiredWith(held: map<nat, Share>, id: nat, share: Share, now: int)
    requires now < share.expiresAt && forall k :: k in held ==> now < held[k].expiresAt
    ensures Unexpired(held[id := share], now) == held[id := share]
  {
  }

  /** Past its operation, its size and the quota, a create is refused for its id: as inconsistent if its owner
      already holds that deck, as taken if there is any other document under it. */
  lemma TakenIdsAreRefused(s: Store, now: int, uid: nat, id: nat, share: Share, op: Option<Operation>)
    requires Inv(s, now) && op.None? && 0 < share.bytes
    requires |HeldBy(s, uid, now)| < MAX_SHARES && SumBytes(HeldBy(s, uid, now)) + share.bytes <= MAX_BYTES
    ensures id in HeldBy(s, uid, now) ==> Create(s, now, uid, id, share, op) == Err(StateInvalid)
    ensures id !in HeldBy(s, uid, now) && (id in s.owners || id in s.decks) ==>
      Create(s, now, uid, id, share, op) == Err(AlreadyExists)
  {
    LedgerIsHeld(s, uid, now);
  }

  // ----- revoking -----

  /** A revoke by the owner takes away both documents and the deck from what its owner holds; of anything
      that is not there it changes nothing; and nobody else is touched. */
  lemma RevokeLeaves(s: Store, now: int, uid: nat, id: nat)
    requires Inv(s, now) && Revoke(s, now, uid, id).Ok?
    ensures var t := Revoke(s, now, uid, id).value;
      && t.owners == s.owners - {id} && t.decks == s.decks - {id} && t.receipts == s.receipts
      && HeldBy(t, uid, now) == HeldBy(s, uid, now) - {id}
      && forall u :: u != uid ==> HeldBy(t, u, now) == HeldBy(s, u, now)
  {
    var t := Revoke(s, now, uid, id).value;
    if id !in s.owners && id !in s.decks {
      NothingToTake(s, now, uid, id);
    } else {
      assert s.owners[id].uid == uid && uid in s.usages;
      var rest := Unexpired(s.usages[uid].shares, now) - {id};
      assert t == Removed(s, id).(usages := s.usages[uid := Counted(rest)]);
      OneLedger(s, t, uid, Counted(rest), now);
      UnexpiredWithout(s.usages[uid].shares, id, now);
    }
  }

  lemma NothingToTake(s: Store, now: int, uid: nat, id: nat)
    requires Inv(s, now) && id !in s.owners && id !in s.decks
    ensures s.owners - {id} == s.owners && s.decks - {id} == s.decks
    ensures HeldBy(s, uid, now) - {id} == HeldBy(s, uid, now)
  {
    NotHeld(s, now, uid, id);
    WithoutMissing(s.owners, id);
    WithoutMissing(s.decks, id);
    WithoutMissing(HeldBy(s, uid, now), id);
  }

  lemma NotHeld(s: Store, now: int, uid: nat, id: nat)
    requires Inv(s, now) && id !in s.owners
    ensures id !in HeldBy(s, uid, now)
  {
    if uid in s.usages { assert LedgerInv(s.owners, now, uid, s.usages[uid]); }
  }

  lemma WithoutMissing<K, V>(m: map<K, V>, k: K)
    requires k !in m
    ensures m - {k} == m
  {
  }

  lemma UnexpiredWithout(shares: map<nat, Share>, id: nat, now: int)
    ensures Unexpired(Unexpired(shares, now) - {id}, now) == Unexpired(shares, now) - {id}
  {
  }

  /** On any store at all, consistent or not, a revoke goes through exactly for a deck that is not there, or for
      one's own: with a ledger that opens and lists it as it is, or not at all once it has expired; without a
      ledger, only once it has expired. */
  lemma RevokeSucceedsExactly(s: Store, now: int, uid: nat, id: nat)
    ensures Revoke(s, now, uid, id).Ok? <==>
      || (id !in s.owners && id !in s.decks)
      || (id in s.owners && s.owners[id].uid == uid && RevocableFrom(s, now, uid, id, s.owners[id].share))
  {
  }

  ghost predicate RevocableFrom(s: Store, now: int, uid: nat, id: nat, share: Share) {
    if uid !in s.usages then share.expiresAt <= now
    else
      && LedgerFor(s, uid, now).Ok?
      && (if id in s.usages[uid].shares then s.usages[uid].shares[id] == share else share.expiresAt <= now)
  }

  /** The database removes a document exactly from the moment at which it expires, and only that one. */
  lemma ExpiryRemovesExactly(s: Store, now: int, uid: nat, id: nat, opId: nat)
    ensures StoreAfter(s, ExpireOwner(now, id))
         == if id in s.owners && s.owners[id].share.expiresAt <= now
            then Store(s.owners - {id}, s.decks, s.usages, s.receipts) else s
    ensures StoreAfter(s, ExpireDeck(now, id))
         == if id in s.decks && s.decks[id] <= now then Store(s.owners, s.decks - {id}, s.usages, s.receipts) else s
    ensures StoreAfter(s, ExpireReceipt(now, uid, opId))
         == if (uid, opId) in s.receipts && s.receipts[(uid, opId)].expiresAt <= now
            then Store(s.owners, s.decks, s.usages, s.receipts - {(uid, opId)}) else s
  {
  }

  /** Both documents of a deck. */
  predicate Stands(s: Store, id: nat, owner: Owner) {
    Lookup(s.owners, id) == Some(owner) && Lookup(s.decks, id) == Some(owner.share.expiresAt)
  }

  lemma TimeOnlyPasses(world: World, steps: seq<Step>)
    ensures world.now <= Run(world, steps).now
    decreases |steps|
  {
    if steps != [] { TimeOnlyPasses(Next(world, steps[0]), steps[1..]); }
  }

  lemma NextKeepsStanding(world: World, step: Step, id: nat, owner: Owner)
    requires Stands(world.store, id, owner) && Next(world, step).now < owner.share.expiresAt
    requires !(step.RevokeDeck? && step.uid == owner.uid && step.id == id)
    ensures Stands(Next(world, step).store, id, owner)
  {
  }

  /** A deck stands, under its owner and with its expiry, until its owner revokes it or it expires. */
  lemma {:induction false} DeckStands(world: World, steps: seq<Step>, id: nat, owner: Owner)
    requires Stands(world.store, id, owner) && Run(world, steps).now < owner.share.expiresAt
    requires forall k :: 0 <= k < |steps| && steps[k].RevokeDeck? ==> !(steps[k].uid == owner.uid && steps[k].id == id)
    ensures Stands(Run(world, steps).store, id, owner)
    decreases |steps|
  {
    if steps != [] {
      TimeOnlyPasses(Next(world, steps[0]), steps[1..]);
      NextKeepsStanding(world, steps[0], id, owner);
      DeckStands(Next(world, steps[0]), steps[1..], id, owner);
    }
  }

  // ----- retries -----

  lemma NextKeepsReceipt(world: World, step: Step, key: (nat, nat), receipt: Receipt)
    requires Lookup(world.store.receipts, key) == Some(receipt) && Next(world, step).now < receipt.expiresAt
    ensures Lookup(Next(world, step).store.receipts, key) == Some(receipt)
  {
  }

  lemma {:induction false} ReceiptStands(world: World, steps: seq<Step>, key: (nat, nat), receipt: Receipt)
    requires Lookup(world.store.receipts, key) == Some(receipt) && Run(world, steps).now < receipt.expiresAt
    ensures Lookup(Run(world, steps).store.receipts, key) == Some(receipt)
    decreases |steps|
  {
    if steps != [] {
      TimeOnlyPasses(Next(world, steps[0]), steps[1..]);
      NextKeepsReceipt(world, steps[0], key, receipt);
      ReceiptStands(Next(world, steps[0]), steps[1..], key, receipt);
    }
  }

  /** For the life of its receipt a retry of an operation that made a deck changes nothing and is told the
      id of that deck, whatever has happened to it since; other content under the same id is refused. */
  lemma RetryIsToldItsDeck(world: World, first: Step, steps: seq<Step>, later: int, id: nat, share: Share,
                           retry: Operation)
    requires first.CreateDeck? && first.op.Some? && first.now >= world.now && CreatesDeck(world.store, first)
    requires Run(Next(world, first), steps).now <= later < first.now + RECEIPT_TTL
    requires retry.opId == first.op.value.opId && Accepts(retry, later)
    ensures var s := Run(Next(world, first), steps).store;
      Create(s, later, first.uid, id, share, Some(retry))
      == if retry.fingerprint == first.op.value.fingerprint then Ok((s, first.id)) else Err(OperationConflict)
  {
    var receipt := Receipt(first.op.value.fingerprint, first.id, first.now + RECEIPT_TTL);
    assert Lookup(Next(world, first).store.receipts, (first.uid, first.op.value.opId)) == Some(receipt);
    ReceiptStands(Next(world, first), steps, (first.uid, first.op.value.opId), receipt);
  }
}
