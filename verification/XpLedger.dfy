/**
 What one save takes of the operations it is sent (functions/src/gamificationPersistence.ts:443-585), in
 terms of the stored documents before and after it: exactly which operations change XP and which are
 acknowledged, exactly when a save is refused, and how long the recent-operation ledger remembers an id.
 */
module XpLedger {
  import opened Prelude
  import opened StableSort
  import opened Gamification

  // ----- an initialised account -----

  /** The ledger holds the operation under one of its ids. */
  predicate Stored(account: Account, op: Operation) {
    && account.stats.Some?
    && var ledger := account.stats.value.ledger;
    && (IdOf(op) in ledger || (op.legacyId.Some? && op.legacyId.value in ledger))
  }

  /** An operation that changes XP is in the ledger under neither id; a structured one has its sequence
      passed by the save; a plain one needs the legacy map to be gone. */
  predicate Changes(before: Account, after: Account, op: Operation) {
    && !Stored(before, op)
    && if op.Streamed? then Watermark(before, op.client) < op.sequence <= Watermark(after, op.client)
       else before.stats.Some? && before.stats.value.legacy.None?
  }

  predicate Answered(before: Account, after: Account, op: Operation) {
    if op.Streamed? then op.sequence <= Watermark(after, op.client)
    else Stored(before, op) || (before.stats.Some? && before.stats.value.legacy.None?)
  }

  function Changing(before: Account, after: Account): Operation -> bool {
    op => Changes(before, after, op)
  }

  function Answering(before: Account, after: Account): Operation -> bool {
    op => Answered(before, after, op)
  }

  /** The same, against the marks of a tally. */
  function Counting(low: Marks, high: Marks, ctx: Context): Operation -> bool {
    (op: Operation) =>
      && !Known(ctx, op)
      && if op.Streamed? then Mark(low, op.client) < op.sequence <= Mark(high, op.client) else !ctx.legacy
  }

  function Covering(high: Marks, ctx: Context): Operation -> bool {
    (op: Operation) => if op.Streamed? then op.sequence <= Mark(high, op.client) else Known(ctx, op) || !ctx.legacy
  }

  function Start(low: Marks): Tally {
    Tally(low, [], [], false)
  }

  /** Only the mark of a taken operation moves, and only to its sequence. */
  lemma OneMarkMoves(t: Tally, op: Operation, ctx: Context, o: Operation)
    requires ctx.initialised && !t.gap && o.Streamed?
    requires op.Streamed? ==> !(o.client == op.client && o.sequence == op.sequence)
    ensures o.sequence <= Mark(Classify(t, op, ctx).marks, o.client) <==> o.sequence <= Mark(t.marks, o.client)
  {
  }

  lemma FrontIsOnceEach(ops: seq<Operation>, k: nat)
    requires OnceEach(ops) && k <= |ops|
    ensures OnceEach(ops[..k])
  {
  }

  lemma TakenMember(ops: seq<Operation>, client: nat, sequence: nat) returns (op: Operation)
    requires Taken(ops, client, sequence)
    ensures op in ops && op.Streamed? && op.client == client && op.sequence == sequence
  {
    var k :| 0 <= k < |ops| && ops[k].Streamed? && ops[k].client == client && ops[k].sequence == sequence;
    op := ops[k];
  }

  /** An operation that no earlier one shares its sequence with lies outside what has been passed. */
  lemma NotTakenBefore(low: Marks, t: Tally, front: seq<Operation>, op: Operation)
    requires NoGaps(low, t.marks, t.acked) && op.Streamed? && forall o :: o in t.acked ==> o in front
    requires forall o :: o in front && o.Streamed? ==> !(o.client == op.client && o.sequence == op.sequence)
    ensures !(Mark(low, op.client) < op.sequence <= Mark(t.marks, op.client))
  {
    if Mark(low, op.client) < op.sequence <= Mark(t.marks, op.client) {
      var o := TakenMember(t.acked, op.client, op.sequence);
    }
  }

  /** Classifying the requests of an initialised account, in closed form. */
  lemma {:induction false} ClassifiedExactly(low: Marks, ops: seq<Operation>, ctx: Context)
    requires ctx.initialised && OnceEach(ops)
    ensures var t := ClassifyAll(Start(low), ops, ctx);
      && !t.gap
      && t.applied == Filter(Counting(low, t.marks, ctx), ops)
      && t.acked == Filter(Covering(t.marks, ctx), ops)
  {
    if ops != [] {
      var front, op := ops[..|ops| - 1], ops[|ops| - 1];
      FrontIsOnceEach(ops, |ops| - 1);
      ClassifiedExactly(low, front, ctx);
      ClassifyAllInv(low, front, ctx);
      assert ops == front + [op];
      forall o | o in front && o.Streamed? && op.Streamed?
        ensures !(o.client == op.client && o.sequence == op.sequence)
      {
        var i :| 0 <= i < |front| && front[i] == o;
        assert ops[i] == o;
      }
      ClassifiedOneMore(low, ClassifyAll(Start(low), front, ctx), front, op, ctx);
    }
  }

  lemma ClassifiedOneMore(low: Marks, t: Tally, front: seq<Operation>, op: Operation, ctx: Context)
    requires ctx.initialised && !t.gap && TallyInv(low, t)
    requires t.applied == Filter(Counting(low, t.marks, ctx), front)
    requires t.acked == Filter(Covering(t.marks, ctx), front)
    requires forall o :: o in front && o.Streamed? && op.Streamed? ==>
      !(o.client == op.client && o.sequence == op.sequence)
    ensures var u := Classify(t, op, ctx);
      && !u.gap
      && u.applied == Filter(Counting(low, u.marks, ctx), front + [op])
      && u.acked == Filter(Covering(u.marks, ctx), front + [op])
  {
    var u := Classify(t, op, ctx);
    if op.Streamed? { NotTakenBefore(low, t, front, op); }
    forall o | o in front && o.Streamed?
      ensures o.sequence <= Mark(u.marks, o.client) <==> o.sequence <= Mark(t.marks, o.client)
    {
      OneMarkMoves(t, op, ctx, o);
    }
    FilterAgrees(Counting(low, t.marks, ctx), Counting(low, u.marks, ctx), front);
    FilterAgrees(Covering(t.marks, ctx), Covering(u.marks, ctx), front);
    FilterOfSnoc(Counting(low, u.marks, ctx), front, op);
    FilterOfSnoc(Covering(u.marks, ctx), front, op);
  }

  /** The marks of a save's tally are the watermarks before and after it. */
  lemma MarksOfSave(account: Account, request: Request, op: Operation)
    requires account.stats.Some? && Save(account, request).Ok? && op in request.operations && op.Streamed?
    ensures Mark(StartMarks(account, Clients(account, request)), op.client) == Watermark(account, op.client)
    ensures Mark(Classified(account, request).marks, op.client)
         == Watermark(Save(account, request).value.account, op.client)
  {
    assert op in Offered(account, request);
    StartMarksAreWatermarks(account, Clients(account, request), op.client);
    SavedWatermark(account, request, op.client);
  }

  /** Exactly the operations that change XP, in the order sent; exactly those acknowledged; and the XP. */
  lemma SaveExactly(account: Account, request: Request)
    requires account.stats.Some? && Save(account, request).Ok? && OnceEach(request.operations)
    ensures var saved := Save(account, request).value;
      && saved.applied == Filter(Changing(account, saved.account), request.operations)
      && saved.acked == Filter(Answering(account, saved.account), request.operations)
      && saved.account.stats.Some?
      && saved.account.stats.value.xp == ApplyDeltas(account.stats.value.xp, saved.applied)
  {
    var after, ctx, ops := Save(account, request).value.account, ContextOf(account), request.operations;
    var t, low := SaveTally(account, request);
    ClassifiedExactly(low, ops, ctx);
    SavedFields(account, request, t);
    forall op | op in ops
      ensures Counting(low, t.marks, ctx)(op) == Changing(account, after)(op)
      ensures Covering(t.marks, ctx)(op) == Answering(account, after)(op)
    {
      if op.Streamed? { MarksOfSave(account, request, op); }
      SameConditions(account, after, low, t.marks, op);
    }
    FilterAgrees(Counting(low, t.marks, ctx), Changing(account, after), ops);
    FilterAgrees(Covering(t.marks, ctx), Answering(account, after), ops);
  }

  lemma SameConditions(before: Account, after: Account, low: Marks, high: Marks, op: Operation)
    requires before.stats.Some?
    requires op.Streamed? ==>
      Mark(low, op.client) == Watermark(before, op.client) && Mark(high, op.client) == Watermark(after, op.client)
    ensures Counting(low, high, ContextOf(before))(op) == Changing(before, after)(op)
    ensures Covering(high, ContextOf(before))(op) == Answering(before, after)(op)
  {
  }

  lemma SavedFields(account: Account, request: Request, t: Tally)
    requires account.stats.Some? && Save(account, request).Ok? && t == Classified(account, request)
    ensures var saved := Save(account, request).value;
      && saved.applied == t.applied && saved.acked == t.acked && saved.account.stats.Some?
      && saved.account.stats.value.xp == ApplyDeltas(account.stats.value.xp, t.applied)
  {
  }

  // ----- operations sent again -----

  lemma {:induction false} KnownIsNotApplied(low: Marks, ops: seq<Operation>, ctx: Context, op: Operation)
    requires ctx.initialised && Known(ctx, op)
    ensures var t := ClassifyAll(Start(low), ops, ctx);
      !t.gap && op !in t.applied && (op in ops && op.Plain? ==> op in t.acked)
  {
    if ops != [] {
      KnownIsNotApplied(low, ops[..|ops| - 1], ctx, op);
      assert ops == ops[..|ops| - 1] + [ops[|ops| - 1]];
    }
  }

  /** What the ledger holds under either id changes no XP; and sent again as a plain operation it is
      acknowledged. */
  lemma StoredIsNotApplied(account: Account, request: Request, op: Operation)
    requires Save(account, request).Ok? && Stored(account, op)
    ensures op !in Save(account, request).value.applied
    ensures op in request.operations && op.Plain? ==> op in Save(account, request).value.acked
  {
    KnownIsNotApplied(StartMarks(account, Clients(account, request)), request.operations, ContextOf(account), op);
  }

  /** A structured operation that comes right behind the stored watermark, under neither id in the ledger,
      does change XP. */
  lemma NextInLineIsApplied(account: Account, request: Request, op: Operation)
    requires account.stats.Some? && Save(account, request).Ok? && OnceEach(request.operations)
    requires op in request.operations && op.Streamed? && !Stored(account, op)
    requires op.sequence == Watermark(account, op.client) + 1
    ensures op in Save(account, request).value.applied && op in Save(account, request).value.acked
  {
    SaveExactly(account, request);
    var j :| 0 <= j < |request.operations| && request.operations[j] == op;
    TakenInTurn(account, request, j);
  }

  // ----- which watermarks a save reaches -----

  /** Operation i comes right before operation j in one client's sequence. */
  predicate Precedes(ops: seq<Operation>, i: nat, j: nat)
    requires i < |ops| && j < |ops|
  {
    && ops[i].Streamed? && ops[j].Streamed?
    && ops[i].client == ops[j].client && ops[i].sequence + 1 == ops[j].sequence
  }

  ghost predicate InTurn(low: Marks, high: Marks, ops: seq<Operation>, j: nat)
    requires j < |ops| && ops[j].Streamed?
  {
    || ops[j].sequence <= Mark(low, ops[j].client) + 1
    || exists i: nat :: i < j && Precedes(ops, i, j) && ops[i].sequence <= Mark(high, ops[i].client)
  }

  lemma {:induction false} MarksInTurn(low: Marks, ops: seq<Operation>, ctx: Context, j: nat)
    requires ctx.initialised && OnceEach(ops) && j < |ops| && ops[j].Streamed?
    ensures var t := ClassifyAll(Start(low), ops, ctx);
      ops[j].sequence <= Mark(t.marks, ops[j].client) <==> InTurn(low, t.marks, ops, j)
  {
    var front := ops[..|ops| - 1];
    var t, u := ClassifyAll(Start(low), front, ctx), ClassifyAll(Start(low), ops, ctx);
    FrontIsOnceEach(ops, |ops| - 1);
    FrontMarks(low, ops, ctx);
    if j < |front| {
      MarksInTurn(low, front, ctx, j);
      SameTurn(low, t.marks, u.marks, ops, |front|, j);
    } else {
      LastInTurn(low, t, u, ops, ctx);
    }
  }

  /** The last operation leaves covered what the ones in front of it cover, and no more of them. */
  lemma FrontMarks(low: Marks, ops: seq<Operation>, ctx: Context)
    requires ctx.initialised && OnceEach(ops) && ops != []
    ensures var t, u := ClassifyAll(Start(low), ops[..|ops| - 1], ctx), ClassifyAll(Start(low), ops, ctx);
      && !t.gap && TallyInv(low, t) && u == Classify(t, ops[|ops| - 1], ctx)
      && (forall o :: o in t.acked ==> o in ops[..|ops| - 1])
      && (forall i: nat :: i < |ops| - 1 && ops[i].Streamed? ==>
            (ops[i].sequence <= Mark(u.marks, ops[i].client) <==> ops[i].sequence <= Mark(t.marks, ops[i].client)))
  {
    var front := ops[..|ops| - 1];
    FrontIsOnceEach(ops, |ops| - 1);
    ClassifiedExactly(low, front, ctx);
    ClassifyAllInv(low, front, ctx);
    var t := ClassifyAll(Start(low), front, ctx);
    forall i: nat | i < |ops| - 1 && ops[i].Streamed?
      ensures ops[i].sequence <= Mark(Classify(t, ops[|ops| - 1], ctx).marks, ops[i].client)
         <==> ops[i].sequence <= Mark(t.marks, ops[i].client)
    {
      OneMarkMoves(t, ops[|ops| - 1], ctx, ops[i]);
    }
  }

  /** Whether an operation's turn has come shows on the operations in front of it. */
  lemma SameTurn(low: Marks, high: Marks, more: Marks, ops: seq<Operation>, k: nat, j: nat)
    requires j < k <= |ops| && ops[j].Streamed?
    requires forall i: nat :: i < k && ops[i].Streamed? ==>
      (ops[i].sequence <= Mark(more, ops[i].client) <==> ops[i].sequence <= Mark(high, ops[i].client))
    ensures InTurn(low, high, ops[..k], j) <==> InTurn(low, more, ops, j)
  {
    forall i: nat | i < j ensures Precedes(ops[..k], i, j) <==> Precedes(ops, i, j) {}
  }

  lemma LastInTurn(low: Marks, t: Tally, u: Tally, ops: seq<Operation>, ctx: Context)
    requires ops != [] && ctx.initialised && !t.gap && TallyInv(low, t) && u == Classify(t, ops[|ops| - 1], ctx)
    requires ops[|ops| - 1].Streamed? && forall o :: o in t.acked ==> o in ops[..|ops| - 1]
    requires forall i: nat :: i < |ops| - 1 && ops[i].Streamed? ==>
      (ops[i].sequence <= Mark(u.marks, ops[i].client) <==> ops[i].sequence <= Mark(t.marks, ops[i].client))
    ensures var j := |ops| - 1;
      ops[j].sequence <= Mark(u.marks, ops[j].client) <==> InTurn(low, u.marks, ops, j)
  {
    var j := |ops| - 1;
    var c, s := ops[j].client, ops[j].sequence;
    assert s <= Mark(u.marks, c) <==> s <= Mark(t.marks, c) + 1;
    if Mark(low, c) + 1 < s <= Mark(t.marks, c) + 1 {
      var before := TakenMember(t.acked, c, s - 1);
      var i: nat :| i < j && ops[i] == before;
      assert Precedes(ops, i, j) && ops[i].sequence <= Mark(u.marks, ops[i].client);
    }
  }

  /** A structured operation is covered after the save exactly when it is at most one past the stored
      watermark, or the one right before it was sent in front of it and is itself covered. */
  lemma TakenInTurn(account: Account, request: Request, j: nat)
    requires account.stats.Some? && Save(account, request).Ok? && OnceEach(request.operations)
    requires j < |request.operations| && request.operations[j].Streamed?
    ensures var after, ops := Save(account, request).value.account, request.operations;
      ops[j].sequence <= Watermark(after, ops[j].client) <==>
        || ops[j].sequence <= Watermark(account, ops[j].client) + 1
        || exists i: nat :: i < j && Precedes(ops, i, j) && ops[i].sequence <= Watermark(after, ops[i].client)
  {
    var after, ops := Save(account, request).value.account, request.operations;
    var t, low := SaveTally(account, request);
    MarksOfSave(account, request, ops[j]);
    MarksInTurn(low, ops, ContextOf(account), j);
    TurnsAgree(low, t.marks, ops, j, after);
  }

  lemma TurnsAgree(low: Marks, high: Marks, ops: seq<Operation>, j: nat, after: Account)
    requires j < |ops| && ops[j].Streamed? && Mark(high, ops[j].client) == Watermark(after, ops[j].client)
    ensures InTurn(low, high, ops, j) <==>
      || ops[j].sequence <= Mark(low, ops[j].client) + 1
      || exists i: nat :: i < j && Precedes(ops, i, j) && ops[i].sequence <= Watermark(after, ops[i].client)
  {
  }

  // ----- when a save is refused -----

  /** The clients of the operations with sequence 1. */
  function Beginners(ops: seq<Operation>): set<nat> {
    set op | op in ops && op.Streamed? && op.sequence == 1 :: op.client
  }

  lemma {:induction false} KeysGrow(low: Marks, ops: seq<Operation>, ctx: Context)
    requires ctx.initialised
    ensures var t := ClassifyAll(Start(low), ops, ctx); !t.gap && t.marks.Keys == low.Keys + Beginners(ops)
  {
    if ops == [] {
      assert Beginners(ops) == {};
    } else {
      var front, op := ops[..|ops| - 1], ops[|ops| - 1];
      KeysGrow(low, front, ctx);
      assert ops == front + [op];
      assert Beginners(ops) == Beginners(front) + Beginners([op]);
      OneKeyMore(ClassifyAll(Start(low), front, ctx), op, ctx);
    }
  }

  lemma OneKeyMore(t: Tally, op: Operation, ctx: Context)
    requires ctx.initialised && !t.gap
    ensures Classify(t, op, ctx).marks.Keys == t.marks.Keys + Beginners([op])
  {
    if op.Streamed? && op.sequence == 1 {
      assert op in [op];
      assert Beginners([op]) == {op.client};
    } else {
      assert Beginners([op]) == {};
    }
  }

  /** The stream documents that a save would have to add, within the limit. */
  predicate Fits(account: Account, added: set<nat>) {
    added == {} || Min(|account.streams|, MAX_STREAMS + 1) + |added| <= MAX_STREAMS
  }

  /** A save of an initialised account fails only for want of stream documents: one for every client of
      the legacy map, and one for every client whose first operation is sent, that has none yet. */
  lemma SaveSucceedsExactly(account: Account, request: Request, legacy: set<nat>)
    requires account.stats.Some?
    requires legacy == if account.stats.value.legacy.Some? then account.stats.value.legacy.value.Keys else {}
    ensures Save(account, request).Ok? <==>
      Fits(account, legacy + Beginners(request.operations) - account.streams.Keys)
    ensures Save(account, request).Err? ==> Save(account, request).error == StreamLimit
  {
    var clients := Clients(account, request);
    KeysGrow(StartMarks(account, clients), request.operations, ContextOf(account));
    KeysToAdd(account, clients, Beginners(request.operations), legacy);
    StreamDecision(account, request, Classified(account, request));
  }

  /** Past the checks on what was sent, only the stream documents decide. */
  lemma StreamDecision(account: Account, request: Request, t: Tally)
    requires account.stats.None? ==> |Clients(account, request)| <= MAX_STREAMS
    requires t == Classified(account, request) && !t.gap
    ensures Save(account, request).Ok? <==> Fits(account, t.marks.Keys - account.streams.Keys)
    ensures Save(account, request).Err? ==> Save(account, request) == Err(StreamLimit)
  {
  }

  lemma KeysToAdd(account: Account, clients: set<nat>, beginners: set<nat>, legacy: set<nat>)
    requires legacy == LegacyOf(account).Keys && legacy <= clients
    ensures StartMarks(account, clients).Keys + beginners - account.streams.Keys
         == legacy + beginners - account.streams.Keys
  {
  }

  // ----- the first save -----

  /** Every structured operation comes right behind the stored watermark or behind another one. */
  ghost predicate Consecutive(low: Marks, ops: seq<Operation>) {
    forall j: nat :: j < |ops| && ops[j].Streamed? ==> BehindAnother(low, ops, j)
  }

  ghost predicate BehindAnother(low: Marks, ops: seq<Operation>, j: nat)
    requires j < |ops| && ops[j].Streamed?
  {
    && Mark(low, ops[j].client) < ops[j].sequence
    && (ops[j].sequence == Mark(low, ops[j].client) + 1 || exists i: nat :: i < |ops| && Precedes(ops, i, j))
  }

  /** While no gap is met a first save acknowledges everything and passes every sequence. */
  lemma {:induction false} WithoutGap(low: Marks, ops: seq<Operation>, ctx: Context)
    requires !ctx.initialised && ctx.ledger == []
    ensures var t := ClassifyAll(Start(low), ops, ctx);
      !t.gap ==>
        && t.acked == ops
        && forall op :: op in ops && op.Streamed? ==>
             op.client in t.marks && Mark(low, op.client) < op.sequence <= Mark(t.marks, op.client)
  {
    if ops != [] {
      var front, op := ops[..|ops| - 1], ops[|ops| - 1];
      WithoutGap(low, front, ctx);
      ClassifyAllInv(low, front, ctx);
      assert ops == front + [op];
      OneMoreTaken(low, ClassifyAll(Start(low), front, ctx), front, op, ctx);
    }
  }

  lemma OneMoreTaken(low: Marks, t: Tally, front: seq<Operation>, op: Operation, ctx: Context)
    requires !ctx.initialised && ctx.ledger == [] && Rising(low, t.marks)
    requires !t.gap ==> t.acked == front && forall o :: o in front && o.Streamed? ==>
      o.client in t.marks && Mark(low, o.client) < o.sequence <= Mark(t.marks, o.client)
    ensures var u := Classify(t, op, ctx);
      !u.gap ==> u.acked == front + [op] && forall o :: o in front + [op] && o.Streamed? ==>
        o.client in u.marks && Mark(low, o.client) < o.sequence <= Mark(u.marks, o.client)
  {
  }

  lemma NoGapMeansConsecutive(low: Marks, ops: seq<Operation>, ctx: Context)
    requires !ctx.initialised && ctx.ledger == [] && !ClassifyAll(Start(low), ops, ctx).gap
    ensures Consecutive(low, ops)
  {
    WithoutGap(low, ops, ctx);
    ClassifyAllInv(low, ops, ctx);
    var t := ClassifyAll(Start(low), ops, ctx);
    forall j: nat | j < |ops| && ops[j].Streamed? ensures BehindAnother(low, ops, j) {
      assert ops[j] in ops;
      if ops[j].sequence != Mark(low, ops[j].client) + 1 {
        var before := TakenMember(t.acked, ops[j].client, ops[j].sequence - 1);
        var i: nat :| i < |ops| && ops[i] == before;
        assert Precedes(ops, i, j);
      }
    }
  }

  lemma {:induction false} ConsecutiveMeansNoGap(low: Marks, ops: seq<Operation>, ctx: Context, k: nat)
    requires !ctx.initialised && ctx.ledger == [] && Sorted(BySequence, ops) && OnceEach(ops) && Consecutive(low, ops)
    requires k <= |ops|
    ensures !ClassifyAll(Start(low), ops[..k], ctx).gap
  {
    if k > 0 {
      ConsecutiveMeansNoGap(low, ops, ctx, k - 1);
      WithoutGap(low, ops[..k - 1], ctx);
      ClassifyAllInv(low, ops[..k - 1], ctx);
      assert ops[..k][..k - 1] == ops[..k - 1];
      var t := ClassifyAll(Start(low), ops[..k - 1], ctx);
      if ops[k - 1].Streamed? { NextIsExpected(low, t, ops, k - 1); }
      ExpectedIsNoGap(t, ops[k - 1], ctx);
    }
  }

  lemma ExpectedIsNoGap(t: Tally, op: Operation, ctx: Context)
    requires !t.gap && (op.Streamed? ==> op.sequence == Mark(t.marks, op.client) + 1)
    ensures !Classify(t, op, ctx).gap
  {
  }

  lemma NextIsExpected(low: Marks, t: Tally, ops: seq<Operation>, k: nat)
    requires k < |ops| && ops[k].Streamed? && BehindAnother(low, ops, k)
    requires Sorted(BySequence, ops) && OnceEach(ops) && TallyInv(low, t) && t.acked == ops[..k]
    requires forall op :: op in ops[..k] && op.Streamed? ==> op.sequence <= Mark(t.marks, op.client)
    ensures ops[k].sequence == Mark(t.marks, ops[k].client) + 1
  {
    forall o | o in ops[..k] && o.Streamed? ensures !(o.client == ops[k].client && o.sequence == ops[k].sequence) {
      var i :| 0 <= i < k && ops[i] == o;
    }
    NotTakenBefore(low, t, ops[..k], ops[k]);
    if ops[k].sequence != Mark(low, ops[k].client) + 1 {
      var i: nat :| i < |ops| && Precedes(ops, i, k);
      assert i < k && ops[i] in ops[..k];
    }
  }

  /** A first save is refused for a gap exactly when, among the operations as classified, one is behind
      neither the stored watermark nor another one. */
  lemma GapExactly(low: Marks, ops: seq<Operation>, ctx: Context)
    requires !ctx.initialised && ctx.ledger == [] && Sorted(BySequence, ops) && OnceEach(ops)
    ensures ClassifyAll(Start(low), ops, ctx).gap <==> !Consecutive(low, ops)
  {
    if Consecutive(low, ops) {
      ConsecutiveMeansNoGap(low, ops, ctx, |ops|);
      assert ops[..|ops|] == ops;
    } else if !ClassifyAll(Start(low), ops, ctx).gap {
      NoGapMeansConsecutive(low, ops, ctx);
    }
  }

  // ----- the order in which a first save takes them -----

  lemma BySequenceIsAnOrder()
    ensures StrictWeakOrder(BySequence)
  {
  }

  function IsStreamed(): Operation -> bool {
    (op: Operation) => op.Streamed?
  }

  function IsPlain(): Operation -> bool {
    (op: Operation) => op.Plain?
  }

  lemma {:induction false} TwoKinds(ops: seq<Operation>)
    ensures multiset(Filter(IsStreamed(), ops)) + multiset(Filter(IsPlain(), ops)) == multiset(ops)
  {
    if ops != [] {
      TwoKinds(ops[1..]);
      assert ops == [ops[0]] + ops[1..];
    }
  }

  /** The structured ones by client and sequence, then the plain ones: a rearrangement of what was sent. */
  lemma FirstOrder(account: Account, request: Request, ops: seq<Operation>)
    requires account.stats.None? && ops == if request.pending.Some? then request.pending.value else request.operations
    ensures multiset(InOrder(account, request)) == multiset(ops)
    ensures Sorted(BySequence, InOrder(account, request))
  {
    var structured, plain := Filter(IsStreamed(), ops), Filter(IsPlain(), ops);
    FilterAgrees((op: Operation) => op.Streamed?, IsStreamed(), ops);
    FilterAgrees((op: Operation) => op.Plain?, IsPlain(), ops);
    TwoKinds(ops);
    BySequenceIsAnOrder();
    SortKeepsElements(BySequence, structured);
    SortSorts(BySequence, structured);
    PlainLast(Sort(BySequence, structured), plain);
    assert InOrder(account, request) == Sort(BySequence, structured) + plain;
  }

  lemma PlainLast(structured: seq<Operation>, plain: seq<Operation>)
    requires Sorted(BySequence, structured) && forall op :: op in plain ==> op.Plain?
    ensures Sorted(BySequence, structured + plain)
  {
    var all := structured + plain;
    forall i, j | 0 <= i < j < |all| ensures !BySequence(all[j], all[i]) {
      if j >= |structured| { assert all[j] == plain[j - |structured|] && all[j] in plain; }
    }
  }

  lemma TwoOfAKind(ops: seq<Operation>, op: Operation) returns (i: nat, j: nat)
    requires multiset(ops)[op] >= 2
    ensures i < j < |ops| && ops[i] == op && ops[j] == op
  {
    assert op in ops;
    i :| 0 <= i < |ops| && ops[i] == op;
    assert ops == ops[..i] + [op] + ops[i + 1..];
    var others := ops[..i] + ops[i + 1..];
    assert multiset(others)[op] >= 1;
    assert op in others;
    var k: nat :| k < |others| && others[k] == op;
    i, j := if k < i then k else i, if k < i then i else k + 1;
  }

  lemma OnceEachRearranged(a: seq<Operation>, b: seq<Operation>)
    requires multiset(a) == multiset(b) && OnceEach(a)
    ensures OnceEach(b)
  {
    MembersAgree(a, b);
    forall i, j | 0 <= i < j < |b| && b[i].Streamed? && b[j].Streamed?
      ensures !(b[i].client == b[j].client && b[i].sequence == b[j].sequence)
    {
      if b[i] == b[j] {
        assert b == b[..i] + [b[i]] + b[i + 1..j] + [b[j]] + b[j + 1..];
        var p, q := TwoOfAKind(a, b[i]);
      } else {
        assert b[i] in a && b[j] in a;
        var p: nat :| p < |a| && a[p] == b[i];
        var q: nat :| q < |a| && a[q] == b[j];
        assert if p < q then OnceAt(a, p, q) else OnceAt(a, q, p);
      }
    }
  }

  predicate OnceAt(ops: seq<Operation>, i: nat, j: nat)
    requires i < j < |ops|
  {
    ops[i].Streamed? && ops[j].Streamed? ==>
      !(ops[i].client == ops[j].client && ops[i].sequence == ops[j].sequence)
  }

  lemma ConsecutiveRearranged(low: Marks, a: seq<Operation>, b: seq<Operation>)
    requires multiset(a) == multiset(b) && Consecutive(low, a)
    ensures Consecutive(low, b)
  {
    MembersAgree(a, b);
    forall j: nat | j < |b| && b[j].Streamed? ensures BehindAnother(low, b, j) {
      assert b[j] in a;
      var k: nat :| k < |a| && a[k] == b[j];
      assert BehindAnother(low, a, k);
      if b[j].sequence != Mark(low, b[j].client) + 1 {
        var i: nat :| i < |a| && Precedes(a, i, k);
        assert a[i] in b;
        var m: nat :| m < |b| && b[m] == a[i];
        assert Precedes(b, m, j);
      }
    }
  }

  // ----- what a first save does -----

  function StreamClients(ops: seq<Operation>): set<nat> {
    set op | op in ops && op.Streamed? :: op.client
  }

  /** A first save succeeds exactly when its clients are within the budget, its structured operations run
      on from the stored streams without a gap, and the stream documents fit; and each refusal has its cause. */
  lemma FirstSaveSucceedsExactly(account: Account, request: Request, ops: seq<Operation>)
    requires account.stats.None? && OnceEach(ops)
    requires ops == if request.pending.Some? then request.pending.value else request.operations
    ensures var clients, added := StreamClients(ops), StreamClients(ops) - account.streams.Keys;
      && (Save(account, request) == Err(BootstrapBudget) <==> |clients| > MAX_STREAMS)
      && (Save(account, request) == Err(SequenceGap) <==>
            |clients| <= MAX_STREAMS && !Consecutive(account.streams, ops))
      && (Save(account, request) == Err(StreamLimit) <==>
            |clients| <= MAX_STREAMS && Consecutive(account.streams, ops) && !Fits(account, added))
  {
    var sent, ctx := InOrder(account, request), ContextOf(account);
    var t, low := SaveTally(account, request);
    FirstOrder(account, request, ops);
    OnceEachRearranged(ops, sent);
    GapExactly(low, sent, ctx);
    FirstMarks(account, request, ops, low);
    FirstGap(account.streams, low, ops, sent);
    if !t.gap {
      WithoutGap(low, sent, ctx);
      MembersAgree(sent, ops);
      MarksOfAll(ops, t.marks, account.streams.Keys);
    }
    FirstDecision(account, request, t);
  }

  lemma FirstDecision(account: Account, request: Request, t: Tally)
    requires account.stats.None? && t == Classified(account, request)
    ensures var clients := Clients(account, request);
      && (Save(account, request) == Err(BootstrapBudget) <==> |clients| > MAX_STREAMS)
      && (Save(account, request) == Err(SequenceGap) <==> |clients| <= MAX_STREAMS && t.gap)
      && (Save(account, request) == Err(StreamLimit) <==>
            |clients| <= MAX_STREAMS && !t.gap && !Fits(account, t.marks.Keys - account.streams.Keys))
  {
  }

  lemma MarksOfAll(ops: seq<Operation>, marks: Marks, stored: set<nat>)
    requires marks.Keys <= StreamClients(ops) && forall op :: op in ops && op.Streamed? ==> op.client in marks
    ensures marks.Keys - stored == StreamClients(ops) - stored
  {
    assert marks.Keys == StreamClients(ops);
  }

  lemma FirstGap(streams: Marks, low: Marks, ops: seq<Operation>, sent: seq<Operation>)
    requires multiset(sent) == multiset(ops)
    requires forall op :: op in sent && op.Streamed? ==> Mark(low, op.client) == Mark(streams, op.client)
    ensures Consecutive(streams, ops) <==> Consecutive(low, sent)
  {
    SameStart(streams, low, sent);
    if Consecutive(streams, ops) { ConsecutiveRearranged(streams, ops, sent); }
    if Consecutive(streams, sent) { ConsecutiveRearranged(streams, sent, ops); }
  }

  /** The marks a first save starts from agree with the stream documents on every client that it names. */
  lemma FirstMarks(account: Account, request: Request, ops: seq<Operation>, low: Marks)
    requires account.stats.None? && ops == if request.pending.Some? then request.pending.value else request.operations
    requires low == StartMarks(account, Clients(account, request))
    ensures Clients(account, request) == StreamClients(ops)
    ensures forall op :: op in InOrder(account, request) && op.Streamed? ==>
      Mark(low, op.client) == Mark(account.streams, op.client)
  {
    assert LegacyOf(account) == map[];
    forall op | op in InOrder(account, request) && op.Streamed?
      ensures Mark(low, op.client) == Mark(account.streams, op.client)
    {
      OrderKeepsClients(account, request, op);
      StartMarksAreWatermarks(account, Clients(account, request), op.client);
    }
  }

  lemma SameStart(a: Marks, b: Marks, ops: seq<Operation>)
    requires forall op :: op in ops && op.Streamed? ==> Mark(a, op.client) == Mark(b, op.client)
    ensures Consecutive(a, ops) <==> Consecutive(b, ops)
  {
    forall j: nat | j < |ops| && ops[j].Streamed? ensures BehindAnother(a, ops, j) <==> BehindAnother(b, ops, j) {
      assert ops[j] in ops;
    }
  }

  /** A first save stores the XP it was sent, changes it by nothing, acknowledges everything, and leaves
      each watermark at the last sequence sent. */
  lemma FirstSave(account: Account, request: Request, ops: seq<Operation>)
    requires account.stats.None? && Save(account, request).Ok?
    requires ops == if request.pending.Some? then request.pending.value else request.operations
    ensures var saved := Save(account, request).value;
      && saved.account.stats.Some? && saved.account.stats.value.xp == request.xp && saved.applied == []
      && multiset(saved.acked) == multiset(ops)
      && forall op :: op in ops && op.Streamed? ==>
           Mark(account.streams, op.client) < op.sequence <= Watermark(saved.account, op.client)
  {
    var sent, ctx := InOrder(account, request), ContextOf(account);
    var t, low := SaveTally(account, request);
    FirstOrder(account, request, ops);
    WithoutGap(low, sent, ctx);
    FirstMarks(account, request, ops, low);
    MembersAgree(sent, ops);
    FirstFields(account, request, t);
    forall op | op in ops && op.Streamed?
      ensures Mark(account.streams, op.client) < op.sequence
           <= Watermark(Save(account, request).value.account, op.client)
    {
      FirstWatermark(account, request, t, low, op);
    }
  }

  lemma FirstWatermark(account: Account, request: Request, t: Tally, low: Marks, op: Operation)
    requires account.stats.None? && Save(account, request).Ok? && t == Classified(account, request) && op.Streamed?
    requires Mark(low, op.client) == Mark(account.streams, op.client)
    requires Mark(low, op.client) < op.sequence <= Mark(t.marks, op.client)
    ensures Mark(account.streams, op.client) < op.sequence
         <= Watermark(Save(account, request).value.account, op.client)
  {
    SavedWatermark(account, request, op.client);
  }

  lemma FirstFields(account: Account, request: Request, t: Tally)
    requires account.stats.None? && Save(account, request).Ok? && t == Classified(account, request)
    ensures var saved := Save(account, request).value;
      && saved.account.stats.Some? && saved.account.stats.value.xp == request.xp && saved.applied == []
      && saved.acked == t.acked && !t.gap
  {
  }

  // ----- what the ledger remembers -----

  /** The last occurrence of a comes before an occurrence of b. */
  predicate Before(ids: seq<OpId>, a: OpId, b: OpId) {
    exists p :: 0 <= p < |ids| && ids[p] == b && a !in ids[p..]
  }

  ghost predicate SameIds(a: seq<OpId>, b: seq<OpId>) {
    forall x :: x in a <==> x in b
  }

  lemma BeforeInLonger(x: OpId, ids: seq<OpId>, a: OpId, b: OpId)
    requires Before(ids, a, b)
    ensures Before([x] + ids, a, b)
  {
    var p :| 0 <= p < |ids| && ids[p] == b && a !in ids[p..];
    assert ([x] + ids)[p + 1..] == ids[p..];
  }

  lemma {:induction false} WithoutKeepsBefore(ids: seq<OpId>, id: OpId, a: OpId, b: OpId)
    requires Before(Without(ids, id), a, b) && a != id
    ensures Before(ids, a, b)
  {
    var kept := Without(ids, id);
    var p :| 0 <= p < |kept| && kept[p] == b && a !in kept[p..];
    assert ids == [ids[0]] + ids[1..];
    if ids[0] == id || p > 0 {
      if ids[0] != id {
        assert kept[1..] == Without(ids[1..], id) && kept[p..] == kept[1..][p - 1..] && kept[1..][p - 1] == b;
      }
      WithoutKeepsBefore(ids[1..], id, a, b);
      BeforeInLonger(ids[0], ids[1..], a, b);
    } else {
      assert kept[p..] == kept && a !in kept && ids[0] == b && ids[0..] == ids;
    }
  }

  /** A suffix of what is left is, but for the id taken out, a suffix of the whole. */
  lemma {:induction false} WithoutKeepsSuffix(ids: seq<OpId>, id: OpId, k: nat) returns (m: nat)
    requires k <= |Without(ids, id)|
    ensures m <= |ids| && (k == 0 ==> m == 0)
    ensures forall x :: x != id ==> (x in Without(ids, id)[k..] <==> x in ids[m..])
  {
    if k == 0 { return 0; }
    assert ids == [ids[0]] + ids[1..];
    var kept := Without(ids, id);
    var rest: nat;
    if ids[0] == id {
      rest := WithoutKeepsSuffix(ids[1..], id, k);
    } else {
      assert kept[1..] == Without(ids[1..], id) && kept[k..] == kept[1..][k - 1..];
      rest := WithoutKeepsSuffix(ids[1..], id, k - 1);
    }
    m := rest + 1;
    assert ids[m..] == ids[1..][rest..];
  }

  /** The list holds the ids of a suffix, of the whole unless it is full. */
  lemma {:induction false} RecentIdsAreNewest(ids: seq<OpId>, room: nat) returns (k: nat)
    ensures k <= |ids| && SameIds(RecentIds(ids, room), ids[k..]) && |RecentIds(ids, room)| <= room
    ensures k == 0 || |RecentIds(ids, room)| == room
    decreases room
  {
    if ids == [] || room == 0 { return |ids|; }
    var last, front := ids[|ids| - 1], ids[..|ids| - 1];
    var rest := RecentIdsAreNewest(Without(front, last), room - 1);
    k := WithoutKeepsSuffix(front, last, rest);
    assert ids[k..] == front[k..] + [last];
  }

  lemma LastIsLatest(ids: seq<OpId>, a: OpId)
    requires ids != [] && a != ids[|ids| - 1]
    ensures Before(ids, a, ids[|ids| - 1])
  {
    assert ids[|ids| - 1..] == [ids[|ids| - 1]];
  }

  /** Oldest first, by last occurrence; so no id is listed twice. */
  lemma {:induction false} RecentIdsInOrder(ids: seq<OpId>, room: nat, i: nat, j: nat)
    requires i < j < |RecentIds(ids, room)|
    ensures Before(ids, RecentIds(ids, room)[i], RecentIds(ids, room)[j])
    decreases room
  {
    var last, front := ids[|ids| - 1], ids[..|ids| - 1];
    var rest := RecentIds(Without(front, last), room - 1);
    RecentIdsAreIds(Without(front, last), room - 1, rest[i]);
    if j == |rest| {
      LastIsLatest(ids, rest[i]);
    } else {
      RecentIdsInOrder(Without(front, last), room - 1, i, j);
      WithoutKeepsBefore(front, last, rest[i], rest[j]);
      BeforeInFront(front, last, rest[i], rest[j]);
    }
  }

  lemma BeforeInFront(front: seq<OpId>, last: OpId, a: OpId, b: OpId)
    requires Before(front, a, b) && a != last
    ensures Before(front + [last], a, b)
  {
    var p :| 0 <= p < |front| && front[p] == b && a !in front[p..];
    assert (front + [last])[p..] == front[p..] + [last];
  }

  /** The ids from the given one on. */
  predicate Within(ids: seq<OpId>, id: OpId, depth: nat) {
    exists p :: 0 <= p < |ids| && ids[p] == id && |ids| - p <= depth
  }

  lemma {:induction false} WithoutIsNoDeeper(ids: seq<OpId>, other: OpId, id: OpId, depth: nat)
    requires Within(ids, id, depth) && id != other
    ensures Within(Without(ids, other), id, depth)
  {
    var p :| 0 <= p < |ids| && ids[p] == id && |ids| - p <= depth;
    var kept := Without(ids, other);
    if p == 0 {
      assert kept[0] == id && |kept| <= |ids|;
    } else {
      assert ids[1..][p - 1] == id;
      WithoutIsNoDeeper(ids[1..], other, id, depth);
      if ids[0] != other {
        var q :| 0 <= q < |kept| - 1 && Without(ids[1..], other)[q] == id && |kept| - 1 - q <= depth;
        assert kept[q + 1] == id;
      }
    }
  }

  /** An id among the newest stays, and no further from the end. */
  lemma {:induction false} RecentIdsKeep(ids: seq<OpId>, room: nat, id: OpId, depth: nat)
    requires Within(ids, id, depth) && depth <= room
    ensures Within(RecentIds(ids, room), id, depth)
    decreases room
  {
    var p :| 0 <= p < |ids| && ids[p] == id && |ids| - p <= depth;
    var last, front, kept := ids[|ids| - 1], ids[..|ids| - 1], RecentIds(ids, room);
    if id == last {
      assert kept[|kept| - 1] == id;
    } else {
      assert front[p] == id && Within(front, id, depth - 1);
      WithoutIsNoDeeper(front, last, id, depth - 1);
      RecentIdsKeep(Without(front, last), room - 1, id, depth - 1);
      var q :| 0 <= q < |kept| - 1 && RecentIds(Without(front, last), room - 1)[q] == id && |kept| - 1 - q <= depth - 1;
      assert kept[q] == id;
    }
  }

  /** After a save the ledger holds the newest ids, oldest first: those of some suffix of what it held
      and what has been acknowledged, of all of it unless it is full. */
  lemma LedgerIsNewest(account: Account, request: Request) returns (k: nat)
    requires Save(account, request).Ok?
    ensures var saved := Save(account, request).value;
      var ids, ledger := LedgerOf(account) + Ids(saved.acked), LedgerOf(saved.account);
      && k <= |ids| && SameIds(ledger, ids[k..]) && |ledger| <= MAX_LEDGER && (k == 0 || |ledger| == MAX_LEDGER)
      && forall i: nat, j: nat :: i < j < |ledger| ==> Before(ids, ledger[i], ledger[j])
  {
    var saved := Save(account, request).value;
    var ids := LedgerOf(account) + Ids(saved.acked);
    LedgerWritten(account, request);
    k := RecentIdsAreNewest(ids, MAX_LEDGER);
    forall i: nat, j: nat | i < j < |RecentIds(ids, MAX_LEDGER)|
      ensures Before(ids, RecentIds(ids, MAX_LEDGER)[i], RecentIds(ids, MAX_LEDGER)[j])
    {
      RecentIdsInOrder(ids, MAX_LEDGER, i, j);
    }
  }

  lemma LedgerWritten(account: Account, request: Request)
    requires Save(account, request).Ok?
    ensures var saved := Save(account, request).value;
      && saved.account.stats.Some?
      && LedgerOf(saved.account) == RecentIds(LedgerOf(account) + Ids(saved.acked), MAX_LEDGER)
  {
  }

  lemma SaveKeepsDepth(account: Account, request: Request, id: OpId, depth: nat)
    requires Save(account, request).Ok? && Within(LedgerOf(account), id, depth)
    requires depth + |Save(account, request).value.acked| <= MAX_LEDGER
    ensures var saved := Save(account, request).value;
      saved.account.stats.Some? && Within(LedgerOf(saved.account), id, depth + |saved.acked|)
  {
    var acked := Ids(Save(account, request).value.acked);
    LedgerWritten(account, request);
    DeeperByAppended(LedgerOf(account), acked, id, depth);
    RecentIdsKeep(LedgerOf(account) + acked, MAX_LEDGER, id, depth + |acked|);
  }

  lemma DeeperByAppended(ids: seq<OpId>, more: seq<OpId>, id: OpId, depth: nat)
    requires Within(ids, id, depth)
    ensures Within(ids + more, id, depth + |more|)
  {
    var p :| 0 <= p < |ids| && ids[p] == id && |ids| - p <= depth;
    assert (ids + more)[p] == id;
  }

  predicate Bears(op: Operation, id: OpId) {
    IdOf(op) == id || op.legacyId == Some(id)
  }

  /** Over a run, an id in the ledger is remembered until as many operations as the ledger has room for
      behind it have been acknowledged; and until then no operation that bears it changes XP. */
  lemma {:induction false} RememberedIsNotAppliedAgain(account: Account, requests: seq<Request>, id: OpId, depth: nat)
    requires account.stats.Some? && Within(LedgerOf(account), id, depth)
    requires depth + |Acked(account, requests)| <= MAX_LEDGER
    ensures Within(LedgerOf(Run(account, requests)), id, depth + |Acked(account, requests)|)
    ensures forall op :: op in Applied(account, requests) ==> !Bears(op, id)
    decreases |requests|
  {
    if requests != [] {
      var r := Save(account, requests[0]);
      if r.Ok? {
        SaveKeepsDepth(account, requests[0], id, depth);
        forall op | op in r.value.applied ensures !Bears(op, id) {
          if Bears(op, id) { StoredIsNotApplied(account, requests[0], op); }
        }
        RememberedIsNotAppliedAgain(r.value.account, requests[1..], id, depth + |r.value.acked|);
      } else {
        RememberedIsNotAppliedAgain(account, requests[1..], id, depth);
      }
    }
  }
}
