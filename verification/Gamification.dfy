/**
 Saving XP operations (functions/src/gamificationPersistence.ts:365-381, 443-585): per-client sequence
 watermarks, the recent-operation ledger, the move from the legacy sequence map to stream documents,
 and the clamped XP counter.  Day history, streaks and stored-document validation are not part of
 this model.
 */
module Gamification {
  import opened Prelude
  import opened StableSort

  const MAX_XP: int := MAX_SAFE_INTEGER
  const MAX_STREAMS: nat := 128
  const MAX_LEDGER: nat := 2048

  datatype OpId = StreamId(client: nat, sequence: nat) | PlainId(name: nat)

  /** A structured operation's id is its client and sequence; a plain one may carry any id. */
  datatype Operation =
    | Streamed(client: nat, sequence: nat, delta: int, legacyId: Option<OpId>)
    | Plain(id: OpId, delta: int, legacyId: Option<OpId>)

  function IdOf(op: Operation): OpId {
    if op.Streamed? then StreamId(op.client, op.sequence) else op.id
  }

  datatype Stats = Stats(xp: int, ledger: seq<OpId>, legacy: Option<map<nat, nat>>)

  datatype Account = Account(stats: Option<Stats>, streams: map<nat, nat>)

  datatype Request = Request(xp: int, pending: Option<seq<Operation>>, operations: seq<Operation>)

  datatype SaveError = BootstrapBudget | SequenceGap | StreamLimit

  /** A committed save, with the operations it acknowledged and those that changed XP. */
  datatype Saved = Saved(account: Account, acked: seq<Operation>, applied: seq<Operation>)

  // ----- XP -----

  function AddDelta(value: int, delta: int): int {
    if delta > 0 then (if value > MAX_XP - delta then MAX_XP else value + delta)
    else if value < -delta then 0 else value + delta
  }

  function ApplyDeltas(xp: int, ops: seq<Operation>): int
    decreases ops
  {
    if ops == [] then xp else ApplyDeltas(AddDelta(xp, ops[0].delta), ops[1..])
  }

  method ApplyOperations(xp: int, ops: seq<Operation>) returns (r: int)
    ensures r == ApplyDeltas(xp, ops)
  {
    r := xp;
    var k := 0;
    while k < |ops|
      invariant 0 <= k <= |ops|
      invariant ApplyDeltas(r, ops[k..]) == ApplyDeltas(xp, ops)
    {
      r := AddDelta(r, ops[k].delta);
      assert ops[k..][1..] == ops[k + 1..];
      k := k + 1;
    }
  }

  // ----- classifying one request -----

  type Marks = map<nat, nat>

  function Mark(marks: Marks, client: nat): nat {
    if client in marks then marks[client] else 0
  }

  datatype Tally = Tally(marks: Marks, acked: seq<Operation>, applied: seq<Operation>, gap: bool)

  function Register(t: Tally, op: Operation, apply: bool): Tally
    requires op.Streamed?
  {
    var previous := Mark(t.marks, op.client);
    if op.sequence <= previous then t.(acked := t.acked + [op])
    else if op.sequence != previous + 1 then t
    else t.(marks := t.marks[op.client := op.sequence], acked := t.acked + [op],
            applied := if apply then t.applied + [op] else t.applied)
  }

  datatype Context = Context(ledger: seq<OpId>, initialised: bool, legacy: bool)

  predicate Known(ctx: Context, op: Operation) {
    IdOf(op) in ctx.ledger || (op.legacyId.Some? && op.legacyId.value in ctx.ledger)
  }

  /** A bootstrap registers without applying, and refuses the first gap. */
  function Classify(t: Tally, op: Operation, ctx: Context): Tally {
    if t.gap then t
    else if op.Streamed? then
      if ctx.initialised then Register(t, op, !Known(ctx, op))
      else if op.sequence != Mark(t.marks, op.client) + 1 then t.(gap := true)
      else Register(t, op, false)
    else if Known(ctx, op) then t.(acked := t.acked + [op])
    else if !ctx.initialised || !ctx.legacy then t.(acked := t.acked + [op], applied := t.applied + [op])
    else t
  }

  function ClassifyAll(t: Tally, ops: seq<Operation>, ctx: Context): Tally {
    if ops == [] then t else Classify(ClassifyAll(t, ops[..|ops| - 1], ctx), ops[|ops| - 1], ctx)
  }

  // ----- one save -----

  function LegacyOf(account: Account): Marks {
    if account.stats.Some? && account.stats.value.legacy.Some? then account.stats.value.legacy.value else map[]
  }

  function LedgerOf(account: Account): seq<OpId> {
    if account.stats.Some? then account.stats.value.ledger else []
  }

  /** The last sequence of the client that has been taken. */
  function Watermark(account: Account, client: nat): nat {
    Max(Mark(LegacyOf(account), client), Mark(account.streams, client))
  }

  function Pending(request: Request): seq<Operation> {
    if request.pending.Some? then request.pending.value else request.operations
  }

  function Offered(account: Account, request: Request): seq<Operation> {
    if account.stats.Some? then request.operations else Pending(request)
  }

  function Clients(account: Account, request: Request): set<nat> {
    LegacyOf(account).Keys + set op | op in Offered(account, request) && op.Streamed? :: op.client
  }

  function StartMarks(account: Account, clients: set<nat>): Marks {
    map c | c in clients && (c in LegacyOf(account) || c in account.streams) :: Watermark(account, c)
  }

  predicate BySequence(a: Operation, b: Operation) {
    && a.Streamed?
    && (b.Plain? || a.client < b.client || (a.client == b.client && a.sequence < b.sequence))
  }

  /** An initialised account takes the operations as sent; a bootstrap takes the structured ones first,
      by client and sequence. */
  function InOrder(account: Account, request: Request): seq<Operation> {
    if account.stats.Some? then request.operations
    else Sort(BySequence, Filter((op: Operation) => op.Streamed?, Pending(request)))
         + Filter((op: Operation) => op.Plain?, Pending(request))
  }

  /** The newest distinct ids, at most MAX_LEDGER of them, oldest first. */
  function RecentIds(ids: seq<OpId>, room: nat): seq<OpId>
    decreases room
  {
    if ids == [] || room == 0 then []
    else
      var last := ids[|ids| - 1];
      RecentIds(Without(ids[..|ids| - 1], last), room - 1) + [last]
  }

  function Without(ids: seq<OpId>, id: OpId): (r: seq<OpId>)
    ensures |r| <= |ids|
    ensures forall x :: x in r <==> x in ids && x != id
  {
    if ids == [] then [] else if ids[0] == id then Without(ids[1..], id) else [ids[0]] + Without(ids[1..], id)
  }

  function Ids(ops: seq<Operation>): (r: seq<OpId>)
    ensures |r| == |ops|
  {
    seq(|ops|, i requires 0 <= i < |ops| => IdOf(ops[i]))
  }

  function ContextOf(account: Account): Context {
    Context(LedgerOf(account), account.stats.Some?, account.stats.Some? && account.stats.value.legacy.Some?)
  }

  function Classified(account: Account, request: Request): Tally {
    ClassifyAll(Tally(StartMarks(account, Clients(account, request)), [], [], false), InOrder(account, request),
                ContextOf(account))
  }

  function NewStreams(account: Account, marks: Marks): set<nat> {
    marks.Keys - account.streams.Keys
  }

  function Save(account: Account, request: Request): Result<Saved, SaveError> {
    var t := Classified(account, request);
    var added := NewStreams(account, t.marks);
    if account.stats.None? && |Clients(account, request)| > MAX_STREAMS then Err(BootstrapBudget)
    else if t.gap then Err(SequenceGap)
    else if |added| > 0 && Min(|account.streams|, MAX_STREAMS + 1) + |added| > MAX_STREAMS
    then Err(StreamLimit)
    else
      var xp := if account.stats.Some? then ApplyDeltas(account.stats.value.xp, t.applied) else request.xp;
      var ledger := RecentIds(LedgerOf(account) + Ids(t.acked), MAX_LEDGER);
      Ok(Saved(Account(Some(Stats(xp, ledger, None)), account.streams + t.marks), t.acked,
               if account.stats.Some? then t.applied else []))
  }

  // ----- what classifying guarantees -----

  predicate Taken(ops: seq<Operation>, client: nat, sequence: nat) {
    exists i :: 0 <= i < |ops| && ops[i].Streamed? && ops[i].client == client && ops[i].sequence == sequence
  }

  /** No structured operation occurs twice. */
  predicate OnceEach(ops: seq<Operation>) {
    forall i, j :: 0 <= i < j < |ops| && ops[i].Streamed? && ops[j].Streamed? ==>
      !(ops[i].client == ops[j].client && ops[i].sequence == ops[j].sequence)
  }

  ghost predicate Between(ops: seq<Operation>, low: Marks, high: Marks) {
    forall i :: 0 <= i < |ops| && ops[i].Streamed? ==>
      Mark(low, ops[i].client) < ops[i].sequence <= Mark(high, ops[i].client)
  }

  ghost predicate NotBeyond(ops: seq<Operation>, high: Marks) {
    forall i :: 0 <= i < |ops| && ops[i].Streamed? ==> ops[i].sequence <= Mark(high, ops[i].client)
  }

  /** Watermarks rise without gaps: everything passed over was acknowledged. */
  ghost predicate NoGaps(low: Marks, high: Marks, acked: seq<Operation>) {
    forall c: nat, s: nat :: Mark(low, c) < s <= Mark(high, c) ==> Taken(acked, c, s)
  }

  ghost predicate Rising(low: Marks, high: Marks) {
    && low.Keys <= high.Keys
    && forall c: nat :: Mark(low, c) <= Mark(high, c)
  }

  ghost predicate TallyInv(low: Marks, t: Tally) {
    && Rising(low, t.marks) && NoGaps(low, t.marks, t.acked) && NotBeyond(t.acked, t.marks)
    && Between(t.applied, low, t.marks) && OnceEach(t.applied)
  }

  lemma ClassifyLeavesNoGap(low: Marks, t: Tally, op: Operation, ctx: Context)
    requires NoGaps(low, t.marks, t.acked)
    ensures NoGaps(low, Classify(t, op, ctx).marks, Classify(t, op, ctx).acked)
  {
    var u := Classify(t, op, ctx);
    forall c: nat, s: nat | Mark(low, c) < s <= Mark(u.marks, c) ensures Taken(u.acked, c, s) {
      if s <= Mark(t.marks, c) {
        assert Taken(t.acked, c, s);
        var i :| 0 <= i < |t.acked| && t.acked[i].Streamed? && t.acked[i].client == c && t.acked[i].sequence == s;
        assert u.acked[i] == t.acked[i];
      } else {
        assert u.acked[|u.acked| - 1] == op;
      }
    }
  }

  lemma ClassifyRaises(low: Marks, t: Tally, op: Operation, ctx: Context)
    requires Rising(low, t.marks) && NotBeyond(t.acked, t.marks)
    ensures Rising(low, Classify(t, op, ctx).marks)
    ensures NotBeyond(Classify(t, op, ctx).acked, Classify(t, op, ctx).marks)
  {
  }

  lemma ClassifyAppliesOnce(low: Marks, t: Tally, op: Operation, ctx: Context)
    requires Rising(low, t.marks) && Between(t.applied, low, t.marks) && OnceEach(t.applied)
    ensures Between(Classify(t, op, ctx).applied, low, Classify(t, op, ctx).marks)
    ensures OnceEach(Classify(t, op, ctx).applied)
  {
  }

  lemma ClassifyKeepsInv(low: Marks, t: Tally, op: Operation, ctx: Context)
    requires TallyInv(low, t)
    ensures TallyInv(low, Classify(t, op, ctx))
  {
    ClassifyLeavesNoGap(low, t, op, ctx);
    ClassifyRaises(low, t, op, ctx);
    ClassifyAppliesOnce(low, t, op, ctx);
  }

  lemma {:induction false} ClassifyAllInv(start: Marks, ops: seq<Operation>, ctx: Context)
    ensures TallyInv(start, ClassifyAll(Tally(start, [], [], false), ops, ctx))
  {
    if ops != [] {
      ClassifyAllInv(start, ops[..|ops| - 1], ctx);
      ClassifyKeepsInv(start, ClassifyAll(Tally(start, [], [], false), ops[..|ops| - 1], ctx), ops[|ops| - 1], ctx);
    }
  }

  // ----- what one save guarantees -----

  lemma StartMarksAreWatermarks(account: Account, clients: set<nat>, c: nat)
    requires LegacyOf(account).Keys <= clients
    ensures c in clients ==> Mark(StartMarks(account, clients), c) == Watermark(account, c)
    ensures c !in clients ==> Mark(StartMarks(account, clients), c) == 0
  {
  }

  /** Marks are kept only for clients of the request or of the legacy map. */
  lemma {:induction false} MarksStayInside(start: Marks, ops: seq<Operation>, ctx: Context, clients: set<nat>)
    requires start.Keys <= clients && forall op :: op in ops && op.Streamed? ==> op.client in clients
    ensures ClassifyAll(Tally(start, [], [], false), ops, ctx).marks.Keys <= clients
  {
    if ops != [] {
      forall op | op in ops[..|ops| - 1] && op.Streamed? ensures op.client in clients { assert op in ops; }
      MarksStayInside(start, ops[..|ops| - 1], ctx, clients);
    }
  }

  lemma OrderKeepsClients(account: Account, request: Request, op: Operation)
    requires op in InOrder(account, request) && op.Streamed?
    ensures op.client in Clients(account, request)
  {
    if account.stats.None? {
      var structured := Filter((o: Operation) => o.Streamed?, Pending(request));
      SortKeepsElements(BySequence, structured);
      assert op in multiset(Sort(BySequence, structured)) || op in Filter((o: Operation) => o.Plain?, Pending(request));
      assert op in Pending(request);
    }
    assert op in Offered(account, request);
  }

  /** The tally of a save, against the stored watermarks. */
  lemma SaveTally(account: Account, request: Request) returns (t: Tally, low: Marks)
    ensures t == Classified(account, request) && TallyInv(low, t)
    ensures low == StartMarks(account, Clients(account, request))
    ensures t.marks.Keys <= Clients(account, request)
  {
    t, low := Classified(account, request), StartMarks(account, Clients(account, request));
    ClassifyAllInv(low, InOrder(account, request), ContextOf(account));
    forall op | op in InOrder(account, request) && op.Streamed? ensures op.client in Clients(account, request) {
      OrderKeepsClients(account, request, op);
    }
    MarksStayInside(low, InOrder(account, request), ContextOf(account), Clients(account, request));
  }

  /** What a save writes. */
  lemma SaveWrites(account: Account, request: Request)
    requires Save(account, request).Ok?
    ensures var t, account' := Classified(account, request), Save(account, request).value.account;
      && account'.stats.Some? && account'.stats.value.legacy.None?
      && account'.streams == account.streams + t.marks
  {
  }

  lemma MarkOfUnion(streams: Marks, marks: Marks, c: nat)
    ensures Mark(streams + marks, c) == if c in marks then marks[c] else Mark(streams, c)
  {
  }

  lemma WatermarkWithoutLegacy(account: Account, c: nat)
    requires LegacyOf(account) == map[]
    ensures Watermark(account, c) == Mark(account.streams, c)
  {
  }

  lemma UnmarkedWatermark(account: Account, clients: set<nat>, marks: Marks, c: nat)
    requires LegacyOf(account).Keys <= clients && StartMarks(account, clients).Keys <= marks.Keys && c !in marks
    ensures Mark(LegacyOf(account), c) == 0 && (c in clients ==> Mark(account.streams, c) == 0)
  {
    if c in clients { assert c !in StartMarks(account, clients); }
  }

  /** After a save the watermark of a client is its mark, and the legacy map is gone. */
  lemma SavedWatermark(account: Account, request: Request, c: nat)
    requires Save(account, request).Ok?
    ensures var account' := Save(account, request).value.account;
      && account'.stats.Some? && account'.stats.value.legacy.None?
      && Watermark(account', c) == Max(Watermark(account, c), Mark(Classified(account, request).marks, c))
      && (c in Clients(account, request) ==> Watermark(account', c) == Mark(Classified(account, request).marks, c))
  {
    SaveWrites(account, request);
    var t, low := SaveTally(account, request);
    var account' := Save(account, request).value.account;
    NewWatermark(account, account', Clients(account, request), low, t.marks, c);
  }

  lemma NewWatermark(account: Account, account': Account, clients: set<nat>, low: Marks, marks: Marks, c: nat)
    requires LegacyOf(account).Keys <= clients && low == StartMarks(account, clients) && Rising(low, marks)
    requires marks.Keys <= clients && LegacyOf(account') == map[] && account'.streams == account.streams + marks
    ensures Watermark(account', c) == Max(Watermark(account, c), Mark(marks, c))
    ensures c in clients ==> Watermark(account', c) == Mark(marks, c)
  {
    StartMarksAreWatermarks(account, clients, c);
    MarkOfUnion(account.streams, marks, c);
    WatermarkWithoutLegacy(account', c);
    assert Mark(low, c) <= Mark(marks, c);
    if c !in marks { UnmarkedWatermark(account, clients, marks, c); }
  }

  /** What one committed save does to the watermarks: none falls, each rises one acknowledged operation
      at a time, everything acknowledged is covered, and an operation changes XP only as its sequence
      is passed. */
  ghost predicate SaveOk(account: Account, saved: Saved) {
    && (forall c: nat :: Watermark(account, c) <= Watermark(saved.account, c))
    && (forall c: nat, s: nat :: Watermark(account, c) < s <= Watermark(saved.account, c) ==> Taken(saved.acked, c, s))
    && (forall i :: 0 <= i < |saved.acked| && saved.acked[i].Streamed? ==>
          saved.acked[i].sequence <= Watermark(saved.account, saved.acked[i].client))
    && OnceEach(saved.applied)
    && (forall i :: 0 <= i < |saved.applied| && saved.applied[i].Streamed? ==>
          Watermark(account, saved.applied[i].client) < saved.applied[i].sequence
            <= Watermark(saved.account, saved.applied[i].client))
  }

  lemma SaveIsOk(account: Account, request: Request)
    requires Save(account, request).Ok?
    ensures SaveOk(account, Save(account, request).value)
  {
    var saved := Save(account, request).value;
    var t, low := SaveTally(account, request);
    forall c: nat ensures Watermark(account, c) <= Watermark(saved.account, c) { SavedWatermark(account, request, c); }
    forall c: nat, s: nat | Watermark(account, c) < s <= Watermark(saved.account, c) ensures Taken(saved.acked, c, s) {
      SavedWatermark(account, request, c);
      StartMarksAreWatermarks(account, Clients(account, request), c);
      assert Mark(low, c) < s <= Mark(t.marks, c);
    }
    forall i | 0 <= i < |saved.acked| && saved.acked[i].Streamed?
      ensures saved.acked[i].sequence <= Watermark(saved.account, saved.acked[i].client)
    {
      SavedWatermark(account, request, saved.acked[i].client);
    }
    forall i | 0 <= i < |saved.applied| && saved.applied[i].Streamed?
      ensures Watermark(account, saved.applied[i].client) < saved.applied[i].sequence
           <= Watermark(saved.account, saved.applied[i].client)
    {
      AppliedInside(account, request, t, low, saved.applied[i]);
    }
  }

  lemma AppliedInside(account: Account, request: Request, t: Tally, low: Marks, op: Operation)
    requires Save(account, request).Ok? && t == Classified(account, request) && TallyInv(low, t)
    requires low == StartMarks(account, Clients(account, request)) && t.marks.Keys <= Clients(account, request)
    requires op in t.applied && op.Streamed?
    ensures Watermark(account, op.client) < op.sequence <= Watermark(Save(account, request).value.account, op.client)
  {
    SavedWatermark(account, request, op.client);
    StartMarksAreWatermarks(account, Clients(account, request), op.client);
    assert op.client in t.marks;
  }

  // ----- the stream documents -----

  lemma UnionSize(a: set<nat>, b: set<nat>)
    ensures |a + b| == |a| + |b - a|
  {
    assert a + b == a + (b - a);
  }

  /** Stream documents never exceed their limit, and none is dropped. */
  lemma StreamsStayBounded(account: Account, request: Request)
    requires Save(account, request).Ok? && |account.streams| <= MAX_STREAMS
    ensures |Save(account, request).value.account.streams| <= MAX_STREAMS
    ensures account.streams.Keys <= Save(account, request).value.account.streams.Keys
  {
    var t := Classified(account, request);
    var merged := account.streams + t.marks;
    assert merged.Keys == account.streams.Keys + t.marks.Keys;
    UnionSize(account.streams.Keys, t.marks.Keys);
    assert |merged| == |merged.Keys| && |account.streams| == |account.streams.Keys|;
  }

  // ----- whole runs -----

  /** Saves arrive in any order, repeated and overlapping; a refused save changes nothing. */
  function Run(account: Account, requests: seq<Request>): Account
    decreases requests
  {
    if requests == [] then account
    else
      var r := Save(account, requests[0]);
      Run(if r.Ok? then r.value.account else account, requests[1..])
  }

  /** Every operation that changed XP in the run, in order. */
  function Applied(account: Account, requests: seq<Request>): seq<Operation>
    decreases requests
  {
    if requests == [] then []
    else
      var r := Save(account, requests[0]);
      if r.Ok? then r.value.applied + Applied(r.value.account, requests[1..]) else Applied(account, requests[1..])
  }

  function Acked(account: Account, requests: seq<Request>): seq<Operation>
    decreases requests
  {
    if requests == [] then []
    else
      var r := Save(account, requests[0]);
      if r.Ok? then r.value.acked + Acked(r.value.account, requests[1..]) else Acked(account, requests[1..])
  }

  /** Watermarks never fall, and stream documents stay within their limit. */
  lemma {:induction false} WatermarksNeverFall(account: Account, requests: seq<Request>, c: nat)
    ensures Watermark(account, c) <= Watermark(Run(account, requests), c)
    ensures |account.streams| <= MAX_STREAMS ==> |Run(account, requests).streams| <= MAX_STREAMS
    decreases |requests|
  {
    if requests != [] {
      var r := Save(account, requests[0]);
      if r.Ok? {
        SaveIsOk(account, requests[0]);
        if |account.streams| <= MAX_STREAMS { StreamsStayBounded(account, requests[0]); }
      }
      WatermarksNeverFall(if r.Ok? then r.value.account else account, requests[1..], c);
    }
  }

  ghost predicate AllBetween(ops: seq<Operation>, before: Account, after: Account) {
    forall i :: 0 <= i < |ops| && ops[i].Streamed? ==>
      Watermark(before, ops[i].client) < ops[i].sequence <= Watermark(after, ops[i].client)
  }

  /** Over any run, each structured operation changes XP at most once, and only while its sequence is
      being passed. */
  lemma {:induction false} AppliedAtMostOnce(account: Account, requests: seq<Request>)
    ensures OnceEach(Applied(account, requests))
    ensures AllBetween(Applied(account, requests), account, Run(account, requests))
    decreases |requests|
  {
    if requests != [] {
      var r := Save(account, requests[0]);
      if r.Ok? {
        var next := r.value.account;
        SaveIsOk(account, requests[0]);
        AppliedAtMostOnce(next, requests[1..]);
        JoinApplied(r.value.applied, Applied(next, requests[1..]), account, next, Run(next, requests[1..]));
        forall c: nat ensures Watermark(next, c) <= Watermark(Run(next, requests[1..]), c) {
          WatermarksNeverFall(next, requests[1..], c);
        }
      } else {
        AppliedAtMostOnce(account, requests[1..]);
      }
    }
  }

  lemma JoinApplied(first: seq<Operation>, rest: seq<Operation>, a: Account, b: Account, c: Account)
    requires OnceEach(first) && OnceEach(rest) && AllBetween(first, a, b) && AllBetween(rest, b, c)
    ensures OnceEach(first + rest)
  {
  }

  ghost predicate Covered(ops: seq<Operation>, account: Account) {
    forall i :: 0 <= i < |ops| && ops[i].Streamed? ==> ops[i].sequence <= Watermark(account, ops[i].client)
  }

  /** Every sequence passed between the two accounts is among the operations. */
  ghost predicate Accounted(before: Account, after: Account, ops: seq<Operation>) {
    forall c: nat, s: nat :: Watermark(before, c) < s <= Watermark(after, c) ==> Taken(ops, c, s)
  }

  lemma TakenInEither(first: seq<Operation>, rest: seq<Operation>, c: nat, s: nat)
    requires Taken(first, c, s) || Taken(rest, c, s)
    ensures Taken(first + rest, c, s)
  {
    if Taken(first, c, s) {
      var i :| 0 <= i < |first| && first[i].Streamed? && first[i].client == c && first[i].sequence == s;
      assert (first + rest)[i] == first[i];
    } else {
      var i :| 0 <= i < |rest| && rest[i].Streamed? && rest[i].client == c && rest[i].sequence == s;
      assert (first + rest)[|first| + i] == rest[i];
    }
  }

  lemma AccountedInTurn(a: Account, b: Account, c: Account, first: seq<Operation>, rest: seq<Operation>)
    requires Accounted(a, b, first) && Accounted(b, c, rest)
    ensures Accounted(a, c, first + rest)
  {
    forall k: nat, s: nat | Watermark(a, k) < s <= Watermark(c, k) ensures Taken(first + rest, k, s) {
      TakenInEither(first, rest, k, s);
    }
  }

  /** Everything ever acknowledged stays at or below the stored watermark, the move from the legacy map
      to stream documents included; and watermarks rise without gaps: every sequence passed was
      acknowledged. */
  lemma {:induction false} AckedIsCovered(account: Account, requests: seq<Request>)
    ensures Covered(Acked(account, requests), Run(account, requests))
    ensures Accounted(account, Run(account, requests), Acked(account, requests))
    decreases |requests|
  {
    if requests != [] {
      var r := Save(account, requests[0]);
      if r.Ok? {
        var next := r.value.account;
        SaveIsOk(account, requests[0]);
        AckedIsCovered(next, requests[1..]);
        forall c: nat ensures Watermark(next, c) <= Watermark(Run(next, requests[1..]), c) {
          WatermarksNeverFall(next, requests[1..], c);
        }
        AccountedInTurn(account, next, Run(next, requests[1..]), r.value.acked, Acked(next, requests[1..]));
      } else {
        AckedIsCovered(account, requests[1..]);
      }
    }
  }

  // ----- XP does not depend on the schedule -----

  function SumDeltas(ops: seq<Operation>): int {
    if ops == [] then 0 else ops[0].delta + SumDeltas(ops[1..])
  }

  /** No partial sum leaves the counter's range. */
  predicate NoClamp(xp: int, ops: seq<Operation>)
    decreases ops
  {
    ops == [] || (0 <= xp + ops[0].delta <= MAX_XP && NoClamp(xp + ops[0].delta, ops[1..]))
  }

  lemma {:induction false} UnclampedIsExact(xp: int, ops: seq<Operation>)
    requires 0 <= xp <= MAX_XP && NoClamp(xp, ops)
    ensures ApplyDeltas(xp, ops) == xp + SumDeltas(ops)
    decreases ops
  {
    if ops != [] { UnclampedIsExact(xp + ops[0].delta, ops[1..]); }
  }

  lemma {:induction false} ApplyInTurn(xp: int, first: seq<Operation>, rest: seq<Operation>)
    ensures ApplyDeltas(xp, first + rest) == ApplyDeltas(ApplyDeltas(xp, first), rest)
    decreases first
  {
    if first == [] {
      assert first + rest == rest;
    } else {
      assert (first + rest)[0] == first[0] && (first + rest)[1..] == first[1..] + rest;
      ApplyInTurn(AddDelta(xp, first[0].delta), first[1..], rest);
    }
  }

  /** The XP of an initialised account is its starting XP with the applied operations, in turn. */
  lemma {:induction false} RunXp(account: Account, requests: seq<Request>)
    requires account.stats.Some?
    ensures Run(account, requests).stats.Some?
    ensures Run(account, requests).stats.value.xp == ApplyDeltas(account.stats.value.xp, Applied(account, requests))
    decreases |requests|
  {
    if requests != [] {
      var r := Save(account, requests[0]);
      if r.Ok? {
        RunXp(r.value.account, requests[1..]);
        ApplyInTurn(account.stats.value.xp, r.value.applied, Applied(r.value.account, requests[1..]));
      } else {
        RunXp(account, requests[1..]);
      }
    }
  }

  /** The structured operations that exist: one for each client and sequence. */
  type Universe = (nat, nat) -> Operation

  predicate DrawnFrom(ops: seq<Operation>, u: Universe) {
    forall i :: 0 <= i < |ops| ==> ops[i].Streamed? && ops[i] == u(ops[i].client, ops[i].sequence)
  }

  predicate AllDrawn(requests: seq<Request>, u: Universe) {
    forall k :: 0 <= k < |requests| ==> DrawnFrom(requests[k].operations, u)
  }

  /** None of the operations still to come is in the recent ledger, under either of its ids. */
  ghost predicate Unseen(account: Account, u: Universe) {
    && (forall c: nat, s: nat :: StreamId(c, s) in LedgerOf(account) ==> s <= Watermark(account, c))
    && (forall c: nat, s: nat :: u(c, s).legacyId.Some? ==>
          u(c, s).legacyId.value.PlainId? && u(c, s).legacyId.value !in LedgerOf(account))
  }

  /** With nothing known in advance, every rise of a watermark applies its operation. */
  lemma {:induction false} RisesAreApplied(low: Marks, ops: seq<Operation>, ctx: Context)
    requires ctx.initialised
    requires forall op :: op in ops ==> op.Streamed? && (Known(ctx, op) ==> op.sequence <= Mark(low, op.client))
    ensures var t := ClassifyAll(Tally(low, [], [], false), ops, ctx);
      && NoGaps(low, t.marks, t.applied) && !t.gap
      && (forall op :: op in t.applied ==> op in ops) && (forall op :: op in t.acked ==> op in ops)
  {
    if ops != [] {
      var front, op := ops[..|ops| - 1], ops[|ops| - 1];
      forall o | o in front ensures o.Streamed? && (Known(ctx, o) ==> o.sequence <= Mark(low, o.client)) {
        assert o in ops;
      }
      RisesAreApplied(low, front, ctx);
      ClassifyAllInv(low, front, ctx);
      var t := ClassifyAll(Tally(low, [], [], false), front, ctx);
      assert ops == front + [op];
      RiseIsApplied(low, t, op, ctx);
    }
  }

  lemma RiseIsApplied(low: Marks, t: Tally, op: Operation, ctx: Context)
    requires TallyInv(low, t) && NoGaps(low, t.marks, t.applied) && !t.gap
    requires ctx.initialised && op.Streamed? && (Known(ctx, op) ==> op.sequence <= Mark(low, op.client))
    ensures NoGaps(low, Classify(t, op, ctx).marks, Classify(t, op, ctx).applied) && !Classify(t, op, ctx).gap
  {
    var u := Classify(t, op, ctx);
    forall c: nat, s: nat | Mark(low, c) < s <= Mark(u.marks, c) ensures Taken(u.applied, c, s) {
      if s <= Mark(t.marks, c) {
        assert Taken(t.applied, c, s);
        var i :| 0 <= i < |t.applied|
                 && t.applied[i].Streamed? && t.applied[i].client == c && t.applied[i].sequence == s;
        assert u.applied[i] == t.applied[i];
      } else {
        assert u.applied[|u.applied| - 1] == op;
      }
    }
  }

  lemma {:induction false} RecentIdsAreIds(ids: seq<OpId>, room: nat, id: OpId)
    requires id in RecentIds(ids, room)
    ensures id in ids
    decreases room
  {
    if ids != [] && room > 0 && id != ids[|ids| - 1] {
      RecentIdsAreIds(Without(ids[..|ids| - 1], ids[|ids| - 1]), room - 1, id);
    }
  }

  /** One save of drawn operations applies exactly the operations it passes, and leaves the rest unseen. */
  lemma SaveAppliesWhatItPasses(account: Account, request: Request, u: Universe)
    requires account.stats.Some? && DrawnFrom(request.operations, u) && Unseen(account, u)
    requires Save(account, request).Ok?
    ensures var saved := Save(account, request).value;
      Accounted(account, saved.account, saved.applied) && DrawnFrom(saved.applied, u) && Unseen(saved.account, u)
  {
    var saved := Save(account, request).value;
    var t, low := SaveTally(account, request);
    forall op | op in request.operations
      ensures op.Streamed? && (Known(ContextOf(account), op) ==> op.sequence <= Mark(low, op.client))
    {
      assert op == u(op.client, op.sequence);
      assert op in Offered(account, request);
      StartMarksAreWatermarks(account, Clients(account, request), op.client);
    }
    RisesAreApplied(low, request.operations, ContextOf(account));
    PassedAreApplied(account, request, t, low);
    UnseenAfter(account, request, u);
  }

  lemma UnseenAfter(account: Account, request: Request, u: Universe)
    requires account.stats.Some? && Unseen(account, u) && Save(account, request).Ok?
    requires forall op :: op in Save(account, request).value.acked ==> op.Streamed?
    ensures Unseen(Save(account, request).value.account, u)
  {
    var saved := Save(account, request).value;
    forall c: nat, s: nat | StreamId(c, s) in LedgerOf(saved.account) ensures s <= Watermark(saved.account, c) {
      LedgerCovered(account, request, u, c, s);
    }
    forall c: nat, s: nat | u(c, s).legacyId.Some?
      ensures u(c, s).legacyId.value.PlainId? && u(c, s).legacyId.value !in LedgerOf(saved.account)
    {
      if u(c, s).legacyId.value in LedgerOf(saved.account) {
        RecentIdsAreIds(LedgerOf(account) + Ids(saved.acked), MAX_LEDGER, u(c, s).legacyId.value);
      }
    }
  }

  lemma PassedAreApplied(account: Account, request: Request, t: Tally, low: Marks)
    requires Save(account, request).Ok? && account.stats.Some? && t == Classified(account, request)
    requires low == StartMarks(account, Clients(account, request)) && NoGaps(low, t.marks, t.applied)
    ensures Accounted(account, Save(account, request).value.account, t.applied)
  {
    var account' := Save(account, request).value.account;
    forall c: nat, s: nat | Watermark(account, c) < s <= Watermark(account', c) ensures Taken(t.applied, c, s) {
      SavedWatermark(account, request, c);
      StartMarksAreWatermarks(account, Clients(account, request), c);
      assert Mark(low, c) < s <= Mark(t.marks, c);
    }
  }

  lemma LedgerCovered(account: Account, request: Request, u: Universe, c: nat, s: nat)
    requires account.stats.Some? && Unseen(account, u) && Save(account, request).Ok?
    requires forall op :: op in Save(account, request).value.acked ==> op.Streamed?
    requires StreamId(c, s) in LedgerOf(Save(account, request).value.account)
    ensures s <= Watermark(Save(account, request).value.account, c)
  {
    var saved := Save(account, request).value;
    RecentIdsAreIds(LedgerOf(account) + Ids(saved.acked), MAX_LEDGER, StreamId(c, s));
    SaveIsOk(account, request);
    if StreamId(c, s) in LedgerOf(account) {
    } else {
      var i :| 0 <= i < |saved.acked| && Ids(saved.acked)[i] == StreamId(c, s);
    }
  }

  lemma {:induction false} RunAppliesWhatItPasses(account: Account, requests: seq<Request>, u: Universe)
    requires account.stats.Some? && AllDrawn(requests, u) && Unseen(account, u)
    ensures Accounted(account, Run(account, requests), Applied(account, requests))
    ensures DrawnFrom(Applied(account, requests), u)
    decreases |requests|
  {
    if requests != [] {
      var r := Save(account, requests[0]);
      assert AllDrawn(requests[1..], u);
      if r.Ok? {
        SaveAppliesWhatItPasses(account, requests[0], u);
        RunAppliesWhatItPasses(r.value.account, requests[1..], u);
        AccountedInTurn(account, r.value.account, Run(r.value.account, requests[1..]), r.value.applied,
                        Applied(r.value.account, requests[1..]));
      } else {
        RunAppliesWhatItPasses(account, requests[1..], u);
      }
    }
  }

  predicate NoRepeats(ops: seq<Operation>) {
    forall i, j :: 0 <= i < j < |ops| ==> ops[i] != ops[j]
  }

  lemma {:induction false} SumWithout(ops: seq<Operation>, k: nat)
    requires k < |ops|
    ensures SumDeltas(ops) == ops[k].delta + SumDeltas(ops[..k] + ops[k + 1..])
  {
    if k == 0 {
      assert ops[..0] + ops[1..] == ops[1..];
    } else {
      SumWithout(ops[1..], k - 1);
      assert (ops[..k] + ops[k + 1..])[1..] == ops[1..][..k - 1] + ops[1..][k..];
    }
  }

  lemma NothingToHave(b: seq<Operation>)
    ensures (forall op :: op !in b) ==> b == []
  {
    assert b != [] ==> b[0] in b;
  }

  /** Lists of distinct operations with the same members have the same sum. */
  lemma {:induction false} SameMembersSameSum(a: seq<Operation>, b: seq<Operation>)
    requires NoRepeats(a) && NoRepeats(b) && forall op :: op in a <==> op in b
    ensures SumDeltas(a) == SumDeltas(b)
    decreases |a|
  {
    if a == [] {
      NothingToHave(b);
    } else {
      assert a[0] in b;
      var k :| 0 <= k < |b| && b[k] == a[0];
      var rest := b[..k] + b[k + 1..];
      SumWithout(b, k);
      forall op ensures op in a[1..] <==> op in rest { MemberOfRest(a, b, k, op); }
      SameMembersSameSum(a[1..], rest);
    }
  }

  lemma MemberOfRest(a: seq<Operation>, b: seq<Operation>, k: nat, op: Operation)
    requires NoRepeats(a) && NoRepeats(b) && (forall o :: o in a <==> o in b)
    requires a != [] && k < |b| && b[k] == a[0]
    ensures op in a[1..] <==> op in b[..k] + b[k + 1..]
  {
    var rest := b[..k] + b[k + 1..];
    if op in a[1..] {
      assert op in a && op != a[0];
      var i :| 0 <= i < |b| && b[i] == op;
      assert if i < k then rest[i] == op else rest[i - 1] == op;
    }
    if op in rest {
      var i :| 0 <= i < |rest| && rest[i] == op;
      assert op == b[if i < k then i else i + 1];
      assert op in b && op in a && op != a[0];
    }
  }

  function XpOf(account: Account): int {
    if account.stats.Some? then account.stats.value.xp else 0
  }

  /** Two delivery schedules that end at the same watermarks, neither of them clamped, give the same XP:
      the start plus the deltas of everything passed. */
  lemma ScheduleDoesNotMatter(account: Account, one: seq<Request>, two: seq<Request>, u: Universe)
    requires account.stats.Some? && 0 <= account.stats.value.xp <= MAX_XP
    requires AllDrawn(one, u) && AllDrawn(two, u) && Unseen(account, u)
    requires forall c: nat :: Watermark(Run(account, one), c) == Watermark(Run(account, two), c)
    requires NoClamp(account.stats.value.xp, Applied(account, one))
    requires NoClamp(account.stats.value.xp, Applied(account, two))
    ensures XpOf(Run(account, one)) == XpOf(Run(account, two))
    ensures XpOf(Run(account, one)) == XpOf(account) + SumDeltas(Applied(account, one))
  {
    var a, b := Applied(account, one), Applied(account, two);
    RunXp(account, one);
    RunXp(account, two);
    UnclampedIsExact(account.stats.value.xp, a);
    UnclampedIsExact(account.stats.value.xp, b);
    AppliedAreThePassed(account, one, u);
    AppliedAreThePassed(account, two, u);
    forall op ensures op in a <==> op in b {
      assert op in a <==> IsPassed(account, Run(account, one), u, op);
      assert op in b <==> IsPassed(account, Run(account, two), u, op);
    }
    SameMembersSameSum(a, b);
  }

  predicate IsPassed(before: Account, after: Account, u: Universe, op: Operation) {
    && op.Streamed? && op == u(op.client, op.sequence)
    && Watermark(before, op.client) < op.sequence <= Watermark(after, op.client)
  }

  lemma AppliedAreThePassed(account: Account, requests: seq<Request>, u: Universe)
    requires account.stats.Some? && AllDrawn(requests, u) && Unseen(account, u)
    ensures NoRepeats(Applied(account, requests))
    ensures forall op :: op in Applied(account, requests) <==> IsPassed(account, Run(account, requests), u, op)
  {
    var a, end := Applied(account, requests), Run(account, requests);
    AppliedAtMostOnce(account, requests);
    RunAppliesWhatItPasses(account, requests, u);
    forall op | IsPassed(account, end, u, op) ensures op in a {
      assert Taken(a, op.client, op.sequence);
      var i :| 0 <= i < |a| && a[i].Streamed? && a[i].client == op.client && a[i].sequence == op.sequence;
      assert a[i] == op;
    }
  }

  function Single(c: nat, s: nat, delta: int): Request {
    Request(0, None, [Streamed(c, s, delta, None)])
  }

  ghost predicate NextInLine(account: Account, c: nat, s: nat) {
    && account.stats.Some? && account.stats.value.legacy.None?
    && (c in account.streams || |account.streams| < MAX_STREAMS)
    && s == Mark(account.streams, c) + 1 && StreamId(c, s) !in LedgerOf(account)
  }

  lemma SingleTally(account: Account, c: nat, s: nat, delta: int)
    requires NextInLine(account, c, s)
    ensures var t, op := Classified(account, Single(c, s, delta)), Streamed(c, s, delta, None);
      t.marks.Keys == {c} && t.marks[c] == s && t.acked == [op] && t.applied == [op] && !t.gap
  {
    var op := Streamed(c, s, delta, None);
    var request := Single(c, s, delta);
    var low := StartMarks(account, Clients(account, request));
    assert op in Offered(account, request);
    StartMarksAreWatermarks(account, Clients(account, request), c);
    assert [op][..0] == [];
    assert ClassifyAll(Tally(low, [], [], false), [], ContextOf(account)) == Tally(low, [], [], false);
  }

  lemma ApplyOne(xp: int, op: Operation)
    ensures ApplyDeltas(xp, [op]) == AddDelta(xp, op.delta)
  {
    assert [op][1..] == [];
    assert ApplyDeltas(AddDelta(xp, op.delta), []) == AddDelta(xp, op.delta);
  }

  /** The ledger holds only ids it held before or has just acknowledged. */
  lemma LedgerAfter(account: Account, request: Request, id: OpId)
    requires Save(account, request).Ok? && id in LedgerOf(Save(account, request).value.account)
    ensures id in LedgerOf(account) || id in Ids(Save(account, request).value.acked)
  {
    RecentIdsAreIds(LedgerOf(account) + Ids(Save(account, request).value.acked), MAX_LEDGER, id);
  }

  /** A save of the one operation that comes next. */
  lemma SingleSave(account: Account, c: nat, s: nat, delta: int)
    requires NextInLine(account, c, s)
    ensures Save(account, Single(c, s, delta)).Ok?
    ensures var account' := Save(account, Single(c, s, delta)).value.account;
      && account'.stats.Some? && account'.stats.value.legacy.None?
      && account'.stats.value.xp == AddDelta(account.stats.value.xp, delta)
      && account'.streams == account.streams[c := s]
      && Save(account, Single(c, s, delta)).value.acked == [Streamed(c, s, delta, None)]
  {
    SingleTally(account, c, s, delta);
    var t := Classified(account, Single(c, s, delta));
    OneAtMost(NewStreams(account, t.marks), c);
    AddOneMark(account.streams, t.marks, c, s);
    ApplyOne(account.stats.value.xp, Streamed(c, s, delta, None));
    SaveOfTally(account, Single(c, s, delta), t);
  }

  lemma SaveOfTally(account: Account, request: Request, t: Tally)
    requires account.stats.Some? && t == Classified(account, request) && !t.gap
    requires NewStreams(account, t.marks) == {}
          || (|account.streams| < MAX_STREAMS && |NewStreams(account, t.marks)| <= 1)
    ensures Save(account, request).Ok?
    ensures var saved := Save(account, request).value;
      && saved.acked == t.acked && saved.account.streams == account.streams + t.marks
      && saved.account.stats.Some? && saved.account.stats.value.legacy.None?
      && saved.account.stats.value.xp == ApplyDeltas(account.stats.value.xp, t.applied)
  {
  }

  lemma AddOneMark(streams: Marks, marks: Marks, c: nat, s: nat)
    requires marks.Keys == {c} && marks[c] == s
    ensures streams + marks == streams[c := s]
  {
  }

  lemma EitherWayRound(c: nat, d: nat)
    ensures map[c := 1, d := 1] == map[d := 1, c := 1]
  {
  }

  lemma OneAtMost(a: set<nat>, c: nat)
    requires a <= {c}
    ensures |a| <= 1
  {
    if a != {} { assert a == {c}; }
  }

  /** Two saves in turn, for two new clients. */
  lemma TwoSaves(account: Account, c: nat, x: int, d: nat, y: int)
    requires account == Account(Some(Stats(0, [], None)), map[]) && c != d
    ensures var end := Run(account, [Single(c, 1, x), Single(d, 1, y)]);
      XpOf(end) == AddDelta(AddDelta(0, x), y) && end.streams == map[c := 1, d := 1]
  {
    SingleSave(account, c, 1, x);
    var next := Save(account, Single(c, 1, x)).value.account;
    if StreamId(d, 1) in LedgerOf(next) { LedgerAfter(account, Single(c, 1, x), StreamId(d, 1)); }
    SingleSave(next, d, 1, y);
    RunOfTwo(account, Single(c, 1, x), Single(d, 1, y));
  }

  /** With clamping the order does matter: the same two operations, delivered either way round, leave
      the same watermarks and different XP. */
  lemma ClampingDependsOnOrder(account: Account, down: Request, up: Request)
    requires account == Account(Some(Stats(0, [], None)), map[])
    requires down == Single(1, 1, -5) && up == Single(2, 1, 5)
    ensures XpOf(Run(account, [down, up])) == 5 && XpOf(Run(account, [up, down])) == 0
    ensures Run(account, [down, up]).streams == Run(account, [up, down]).streams
  {
    TwoSaves(account, 1, -5, 2, 5);
    TwoSaves(account, 2, 5, 1, -5);
    EitherWayRound(1, 2);
  }

  lemma RunOfTwo(account: Account, first: Request, second: Request)
    requires Save(account, first).Ok? && Save(Save(account, first).value.account, second).Ok?
    ensures Run(account, [first, second]) == Save(Save(account, first).value.account, second).value.account
  {
    var next := Save(account, first).value.account;
    assert [first, second][1..] == [second];
    assert Run(next, [second]) == Run(Save(next, second).value.account, []);
  }

  // ----- the transaction, as it updates the stored documents -----

  class XpStore {
    var stats: Option<Stats>
    var streams: map<nat, nat>

    function View(): Account
      reads this
    {
      Account(stats, streams)
    }

    /** Classify every operation of a request in turn. */
    static method ClassifyOperations(start: Marks, ops: seq<Operation>, ctx: Context) returns (t: Tally)
      ensures t == ClassifyAll(Tally(start, [], [], false), ops, ctx)
    {
      t := Tally(start, [], [], false);
      var k := 0;
      assert ops[..0] == [];
      while k < |ops|
        invariant 0 <= k <= |ops|
        invariant t == ClassifyAll(Tally(start, [], [], false), ops[..k], ctx)
      {
        t := Classify(t, ops[k], ctx);
        assert ops[..k + 1][..k] == ops[..k];
        k := k + 1;
      }
      assert ops[..k] == ops;
    }

    /** One save transaction: a refused one leaves the documents alone. */
    method ApplyGamificationForOwner(request: Request) returns (r: Result<seq<Operation>, SaveError>)
      modifies this
      ensures var want := Save(old(View()), request);
        && View() == (if want.Ok? then want.value.account else old(View()))
        && r == (if want.Ok? then Ok(want.value.acked) else Err(want.error))
    {
      var account := View();
      var clients := Clients(account, request);
      if stats.None? && |clients| > MAX_STREAMS { return Err(BootstrapBudget); }
      var t := ClassifyOperations(StartMarks(account, clients), InOrder(account, request), ContextOf(account));
      if t.gap { return Err(SequenceGap); }
      var added := |NewStreams(account, t.marks)|;
      if added > 0 && Min(|streams|, MAX_STREAMS + 1) + added > MAX_STREAMS { return Err(StreamLimit); }
      var xp := request.xp;
      if stats.Some? { xp := ApplyOperations(stats.value.xp, t.applied); }
      stats := Some(Stats(xp, RecentIds(LedgerOf(account) + Ids(t.acked), MAX_LEDGER), None));
      streams := streams + t.marks;
      return Ok(t.acked);
    }
  }
}
