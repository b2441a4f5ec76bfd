/**
 Whether the order in which structured operations arrive shows in the clamped XP counter
 (functions/src/gamificationPersistence.ts:365-381): the exact condition, for the counter and for runs of
 saves.
 */
module XpOrder {
  import opened Prelude
  import opened StableSort
  import opened Gamification

  // ----- the counter -----

  /** The sum of the gains. */
  function Gains(ops: seq<Operation>): nat {
    if ops == [] then 0 else (if ops[0].delta > 0 then ops[0].delta else 0) + Gains(ops[1..])
  }

  /** The sum of the losses, as a magnitude. */
  function Losses(ops: seq<Operation>): nat {
    if ops == [] then 0 else (if ops[0].delta < 0 then -ops[0].delta else 0) + Losses(ops[1..])
  }

  ghost predicate OrderFree(xp: int, ops: seq<Operation>) {
    forall a, b :: multiset(a) == multiset(ops) && multiset(b) == multiset(ops) ==>
      ApplyDeltas(xp, a) == ApplyDeltas(xp, b)
  }

  /** All deltas have one sign, or the counter can hold all gains and afford all losses. */
  predicate OneSignOrRoom(xp: int, ops: seq<Operation>) {
    Gains(ops) == 0 || Losses(ops) == 0 || (xp + Gains(ops) <= MAX_XP && Losses(ops) <= xp)
  }

  lemma {:induction false} GainsWithout(ops: seq<Operation>, k: nat)
    requires k < |ops|
    ensures Gains(ops) == Gains([ops[k]]) + Gains(ops[..k] + ops[k + 1..])
    ensures Losses(ops) == Losses([ops[k]]) + Losses(ops[..k] + ops[k + 1..])
  {
    assert [ops[k]][1..] == [];
    if k == 0 {
      assert ops[..0] + ops[1..] == ops[1..];
    } else {
      GainsWithout(ops[1..], k - 1);
      assert (ops[..k] + ops[k + 1..])[1..] == ops[1..][..k - 1] + ops[1..][k..];
    }
  }

  lemma Removed(ops: seq<Operation>, k: nat)
    requires k < |ops|
    ensures multiset(ops[..k] + ops[k + 1..]) == multiset(ops) - multiset{ops[k]}
  {
    assert ops == ops[..k] + [ops[k]] + ops[k + 1..];
  }

  /** The sums do not depend on the order. */
  lemma {:induction false} SumsIgnoreOrder(a: seq<Operation>, b: seq<Operation>)
    requires multiset(a) == multiset(b)
    ensures Gains(a) == Gains(b) && Losses(a) == Losses(b)
    decreases |a|
  {
    MembersAgree(a, b);
    if a != [] {
      assert a[0] in b;
      var k :| 0 <= k < |b| && b[k] == a[0];
      GainsWithout(a, 0);
      GainsWithout(b, k);
      Removed(a, 0);
      Removed(b, k);
      SumsIgnoreOrder(a[..0] + a[1..], b[..k] + b[k + 1..]);
    }
  }

  lemma {:induction false} OnlyGains(xp: int, ops: seq<Operation>)
    requires 0 <= xp <= MAX_XP && Losses(ops) == 0
    ensures ApplyDeltas(xp, ops) == Min(MAX_XP, xp + Gains(ops))
    decreases ops
  {
    if ops != [] { OnlyGains(AddDelta(xp, ops[0].delta), ops[1..]); }
  }

  lemma {:induction false} OnlyLosses(xp: int, ops: seq<Operation>)
    requires 0 <= xp <= MAX_XP && Gains(ops) == 0
    ensures ApplyDeltas(xp, ops) == Max(0, xp - Losses(ops))
    decreases ops
  {
    if ops != [] { OnlyLosses(AddDelta(xp, ops[0].delta), ops[1..]); }
  }

  lemma {:induction false} WithRoom(xp: int, ops: seq<Operation>)
    requires 0 <= xp && xp + Gains(ops) <= MAX_XP && Losses(ops) <= xp
    ensures ApplyDeltas(xp, ops) == xp + Gains(ops) - Losses(ops)
    decreases ops
  {
    if ops != [] { WithRoom(xp + ops[0].delta, ops[1..]); }
  }

  function Rises(): Operation -> bool {
    (op: Operation) => op.delta > 0
  }

  function Falls(): Operation -> bool {
    (op: Operation) => op.delta <= 0
  }

  lemma SumsOfCons(op: Operation, ops: seq<Operation>)
    ensures Gains([op] + ops) == (if op.delta > 0 then op.delta else 0) + Gains(ops)
    ensures Losses([op] + ops) == (if op.delta < 0 then -op.delta else 0) + Losses(ops)
  {
    assert ([op] + ops)[1..] == ops;
  }

  /** A list of operations, and the same operations parted into gains and losses. */
  ghost predicate Parted(ops: seq<Operation>, ups: seq<Operation>, downs: seq<Operation>) {
    && multiset(ups + downs) == multiset(ops)
    && Losses(ups) == 0 && Gains(ups) == Gains(ops) && Gains(downs) == 0 && Losses(downs) == Losses(ops)
  }

  lemma PartedCons(op: Operation, ops: seq<Operation>, ups: seq<Operation>, downs: seq<Operation>)
    requires Parted(ops, ups, downs)
    ensures if op.delta > 0 then Parted([op] + ops, [op] + ups, downs) else Parted([op] + ops, ups, [op] + downs)
  {
    SumsOfCons(op, ops);
    SumsOfCons(op, ups);
    SumsOfCons(op, downs);
    if op.delta > 0 { assert [op] + ups + downs == [op] + (ups + downs); }
  }

  lemma {:induction false} SplitBySign(ops: seq<Operation>)
    ensures Parted(ops, Filter(Rises(), ops), Filter(Falls(), ops))
  {
    if ops != [] {
      var op, rest := ops[0], ops[1..];
      SplitBySign(rest);
      PartedCons(op, rest, Filter(Rises(), rest), Filter(Falls(), rest));
      FilterOfCons(Rises(), op, rest);
      FilterOfCons(Falls(), op, rest);
      assert ops == [op] + rest;
    }
  }

  lemma GainsFirst(xp: int, ups: seq<Operation>, downs: seq<Operation>)
    requires 0 <= xp <= MAX_XP && Losses(ups) == 0 && Gains(downs) == 0
    ensures ApplyDeltas(xp, ups + downs) == Max(0, Min(MAX_XP, xp + Gains(ups)) - Losses(downs))
  {
    ApplyInTurn(xp, ups, downs);
    OnlyGains(xp, ups);
    OnlyLosses(Min(MAX_XP, xp + Gains(ups)), downs);
  }

  lemma LossesFirst(xp: int, ups: seq<Operation>, downs: seq<Operation>)
    requires 0 <= xp <= MAX_XP && Losses(ups) == 0 && Gains(downs) == 0
    ensures ApplyDeltas(xp, downs + ups) == Min(MAX_XP, Max(0, xp - Losses(downs)) + Gains(ups))
  {
    ApplyInTurn(xp, downs, ups);
    OnlyLosses(xp, downs);
    OnlyGains(Max(0, xp - Losses(downs)), ups);
  }

  /** Gains first and losses first differ whenever there are both and the counter hits an end. */
  lemma EndsTell(xp: int, gains: nat, losses: nat)
    requires 0 <= xp <= MAX_XP && gains > 0 && losses > 0 && (xp + gains > MAX_XP || losses > xp)
    ensures Max(0, Min(MAX_XP, xp + gains) - losses) != Min(MAX_XP, Max(0, xp - losses) + gains)
  {
  }

  lemma OrderOfRoom(xp: int, ops: seq<Operation>, a: seq<Operation>)
    requires 0 <= xp <= MAX_XP && OneSignOrRoom(xp, ops) && multiset(a) == multiset(ops)
    ensures ApplyDeltas(xp, a) == if Losses(ops) == 0 then Min(MAX_XP, xp + Gains(ops))
                                  else if Gains(ops) == 0 then Max(0, xp - Losses(ops))
                                  else xp + Gains(ops) - Losses(ops)
  {
    SumsIgnoreOrder(a, ops);
    if Losses(ops) == 0 {
      OnlyGains(xp, a);
    } else if Gains(ops) == 0 {
      OnlyLosses(xp, a);
    } else {
      WithRoom(xp, a);
    }
  }

  /** Every order of the operations gives the same XP exactly when all deltas have one sign, or the counter
      can hold all gains and afford all losses. */
  lemma OrderFreeExactly(xp: int, ops: seq<Operation>)
    requires 0 <= xp <= MAX_XP
    ensures OrderFree(xp, ops) <==> OneSignOrRoom(xp, ops)
  {
    if OneSignOrRoom(xp, ops) {
      forall a, b | multiset(a) == multiset(ops) && multiset(b) == multiset(ops)
        ensures ApplyDeltas(xp, a) == ApplyDeltas(xp, b)
      {
        OrderOfRoom(xp, ops, a);
        OrderOfRoom(xp, ops, b);
      }
    } else {
      SplitBySign(ops);
      OrderShows(xp, ops, Filter(Rises(), ops), Filter(Falls(), ops));
    }
  }

  lemma OrderShows(xp: int, ops: seq<Operation>, ups: seq<Operation>, downs: seq<Operation>)
    requires 0 <= xp <= MAX_XP && !OneSignOrRoom(xp, ops) && Parted(ops, ups, downs)
    ensures !OrderFree(xp, ops)
  {
    GainsFirst(xp, ups, downs);
    LossesFirst(xp, ups, downs);
    EndsTell(xp, Gains(ops), Losses(ops));
    assert multiset(downs + ups) == multiset(ups + downs);
  }

  // ----- runs of saves -----

  /** One save for each operation, in order. */
  function Deliveries(ops: seq<Operation>): seq<Request>
    ensures |Deliveries(ops)| == |ops|
  {
    if ops == [] then [] else [Request(0, None, [ops[0]])] + Deliveries(ops[1..])
  }

  /** The operation that comes next for its client, with no legacy id. */
  ghost predicate Due(account: Account, op: Operation) {
    op.Streamed? && op.legacyId.None? && NextInLine(account, op.client, op.sequence)
  }

  /** The clients among them that have no stream yet. */
  function NewClients(account: Account, ops: seq<Operation>): set<nat> {
    set op | op in ops && op.Streamed? && op.client !in account.streams :: op.client
  }

  /** One due operation for each of several clients, with room for the streams that are new. */
  ghost predicate AllDue(account: Account, ops: seq<Operation>) {
    && (forall op :: op in ops ==> Due(account, op) && multiset(ops)[op] == 1)
    && (forall x, y :: x in ops && y in ops && x.client == y.client ==> x == y)
    && (NewClients(account, ops) != {} ==> |account.streams| + |NewClients(account, ops)| <= MAX_STREAMS)
  }

  lemma DueInAnyOrder(account: Account, a: seq<Operation>, b: seq<Operation>)
    requires AllDue(account, a) && multiset(a) == multiset(b)
    ensures AllDue(account, b)
  {
    MembersAgree(a, b);
    assert NewClients(account, a) == NewClients(account, b);
  }

  lemma OthersStayDue(account: Account, account': Account, op: Operation, other: Operation)
    requires Due(account, op) && Due(account, other) && other.client != op.client
    requires account'.stats.Some? && account'.stats.value.legacy.None?
    requires account'.streams == account.streams[op.client := op.sequence]
    requires other.client in account'.streams || |account'.streams| < MAX_STREAMS
    requires forall id :: id in LedgerOf(account') ==> id in LedgerOf(account) || id == IdOf(op)
    ensures Due(account', other)
  {
    assert Mark(account'.streams, other.client) == Mark(account.streams, other.client);
  }

  /** A new stream takes the place of one of the new clients. */
  lemma OneFewer(streams: Marks, clients: set<nat>, c: nat, s: nat)
    requires c in clients <==> c !in streams
    requires clients != {} ==> |streams| + |clients| <= MAX_STREAMS
    ensures clients - {c} != {} ==> |streams[c := s]| + |clients - {c}| <= MAX_STREAMS
  {
    assert streams[c := s].Keys == streams.Keys + {c};
    if c in streams {
      assert streams.Keys + {c} == streams.Keys && clients - {c} == clients;
    }
  }

  lemma RoomStays(account: Account, account': Account, ops: seq<Operation>)
    requires ops != [] && AllDue(account, ops) && ops[0] !in ops[1..] && ops[0].Streamed?
    requires account'.streams == account.streams[ops[0].client := ops[0].sequence]
    ensures NewClients(account', ops[1..]) == NewClients(account, ops) - {ops[0].client}
    ensures NewClients(account', ops[1..]) != {} ==>
      |account'.streams| + |NewClients(account', ops[1..])| <= MAX_STREAMS
  {
    var c, before := ops[0].client, NewClients(account, ops);
    forall k ensures k in NewClients(account', ops[1..]) <==> k in before - {c} {
      if k in before - {c} {
        var op :| op in ops && op.Streamed? && op.client !in account.streams && op.client == k;
        assert op in ops[1..];
      }
    }
    assert c in before <==> c !in account.streams by { assert ops[0] in ops; }
    OneFewer(account.streams, before, c, ops[0].sequence);
  }

  lemma FirstOfDistinct(ops: seq<Operation>)
    requires ops != [] && multiset(ops)[ops[0]] == 1
    ensures ops[0] !in ops[1..]
  {
    assert ops == [ops[0]] + ops[1..];
    assert multiset(ops) == multiset{ops[0]} + multiset(ops[1..]);
  }

  lemma CountInTail(ops: seq<Operation>, op: Operation)
    requires ops != [] && op in ops[1..] && multiset(ops)[op] == 1
    ensures multiset(ops[1..])[op] == 1
  {
    assert ops == [ops[0]] + ops[1..];
    assert multiset(ops) == multiset{ops[0]} + multiset(ops[1..]);
    assert op in multiset(ops[1..]);
  }

  lemma SavedOne(account: Account, op: Operation)
    requires Due(account, op)
    ensures Save(account, Request(0, None, [op])).Ok?
    ensures var account' := Save(account, Request(0, None, [op])).value.account;
      && account'.stats.Some? && account'.stats.value.legacy.None?
      && account'.stats.value.xp == AddDelta(account.stats.value.xp, op.delta)
      && account'.streams == account.streams[op.client := op.sequence]
      && forall id :: id in LedgerOf(account') ==> id in LedgerOf(account) || id == IdOf(op)
  {
    SingleSave(account, op.client, op.sequence, op.delta);
    var request := Single(op.client, op.sequence, op.delta);
    assert request == Request(0, None, [op]);
    forall id | id in LedgerOf(Save(account, request).value.account) ensures id in LedgerOf(account) || id == IdOf(op) {
      LedgerAfter(account, request, id);
    }
  }

  lemma RestDue(account: Account, account': Account, ops: seq<Operation>)
    requires ops != [] && AllDue(account, ops) && Due(account, ops[0])
    requires account'.stats.Some? && account'.stats.value.legacy.None?
    requires account'.streams == account.streams[ops[0].client := ops[0].sequence]
    requires forall id :: id in LedgerOf(account') ==> id in LedgerOf(account) || id == IdOf(ops[0])
    ensures AllDue(account', ops[1..])
  {
    var rest := ops[1..];
    FirstOfDistinct(ops);
    RoomStays(account, account', ops);
    forall op | op in rest ensures op in ops && Due(account', op) && multiset(rest)[op] == 1 {
      assert op in ops && op != ops[0];
      if op.client !in account'.streams { assert op.client in NewClients(account', rest); }
      OthersStayDue(account, account', ops[0], op);
      CountInTail(ops, op);
    }
  }

  /** Delivered one by one, due operations are applied to the counter in the order of delivery. */
  lemma {:induction false} DeliveredXp(account: Account, ops: seq<Operation>)
    requires account.stats.Some? && AllDue(account, ops)
    ensures XpOf(Run(account, Deliveries(ops))) == ApplyDeltas(account.stats.value.xp, ops)
    decreases |ops|
  {
    if ops != [] {
      assert ops[0] in ops;
      SavedOne(account, ops[0]);
      var next := Save(account, Request(0, None, [ops[0]])).value.account;
      RestDue(account, next, ops);
      DeliveredXp(next, ops[1..]);
      assert Deliveries(ops)[1..] == Deliveries(ops[1..]);
    }
  }

  ghost predicate DeliveryOrderFree(account: Account, ops: seq<Operation>) {
    forall a, b :: multiset(a) == multiset(ops) && multiset(b) == multiset(ops) ==>
      XpOf(Run(account, Deliveries(a))) == XpOf(Run(account, Deliveries(b)))
  }

  /** For one due operation of each of several clients: every order of delivery leaves the same XP exactly
      when all deltas have one sign, or the counter can hold all gains and afford all losses. */
  lemma DeliveryOrderExactly(account: Account, ops: seq<Operation>)
    requires account.stats.Some? && 0 <= account.stats.value.xp <= MAX_XP && AllDue(account, ops)
    ensures DeliveryOrderFree(account, ops) <==> OneSignOrRoom(account.stats.value.xp, ops)
  {
    OrderFreeExactly(account.stats.value.xp, ops);
    forall a | multiset(a) == multiset(ops)
      ensures XpOf(Run(account, Deliveries(a))) == ApplyDeltas(account.stats.value.xp, a)
    {
      DueInAnyOrder(account, ops, a);
      DeliveredXp(account, a);
    }
    if DeliveryOrderFree(account, ops) {
      forall a, b | multiset(a) == multiset(ops) && multiset(b) == multiset(ops)
        ensures ApplyDeltas(account.stats.value.xp, a) == ApplyDeltas(account.stats.value.xp, b)
      {
        assert XpOf(Run(account, Deliveries(a))) == XpOf(Run(account, Deliveries(b)));
      }
    }
  }

  // ----- several operations of each client -----

  /** An order of delivery that keeps each client's own: what each part holds comes in turn. */
  ghost predicate Interleaves(a: seq<Operation>, parts: seq<seq<Operation>>)
    decreases |a|, 1
  {
    if a == [] then forall i :: 0 <= i < |parts| ==> parts[i] == []
    else exists i :: 0 <= i < |parts| && TakesFrom(a, parts, i)
  }

  ghost predicate TakesFrom(a: seq<Operation>, parts: seq<seq<Operation>>, i: nat)
    requires a != [] && i < |parts|
    decreases |a|, 0
  {
    parts[i] != [] && parts[i][0] == a[0] && Interleaves(a[1..], parts[i := parts[i][1..]])
  }

  /** How far the sum of the first operations rises above its start, and how far it falls below. */
  function Peak(ops: seq<Operation>): nat {
    if ops == [] then 0 else Max(0, ops[0].delta + Peak(ops[1..]))
  }

  function Dip(ops: seq<Operation>): nat {
    if ops == [] then 0 else Max(0, Dip(ops[1..]) - ops[0].delta)
  }

  function Peaks(parts: seq<seq<Operation>>): nat {
    if parts == [] then 0 else Peak(parts[0]) + Peaks(parts[1..])
  }

  function Dips(parts: seq<seq<Operation>>): nat {
    if parts == [] then 0 else Dip(parts[0]) + Dips(parts[1..])
  }

  function SumOf(parts: seq<seq<Operation>>): int {
    if parts == [] then 0 else SumDeltas(parts[0]) + SumOf(parts[1..])
  }

  function Total(parts: seq<seq<Operation>>): nat {
    if parts == [] then 0 else |parts[0]| + Total(parts[1..])
  }

  /** What taking the first operation of a part changes. */
  lemma {:induction false} Taken(parts: seq<seq<Operation>>, i: nat)
    requires i < |parts| && parts[i] != []
    ensures var rest := parts[i := parts[i][1..]];
      && Peaks(rest) == Peaks(parts) - Peak(parts[i]) + Peak(parts[i][1..])
      && Dips(rest) == Dips(parts) - Dip(parts[i]) + Dip(parts[i][1..])
      && SumOf(rest) == SumOf(parts) - parts[i][0].delta && Total(rest) == Total(parts) - 1
    decreases i
  {
    var rest := parts[i := parts[i][1..]];
    if i == 0 {
      assert rest[1..] == parts[1..];
    } else {
      assert rest[1..] == parts[1..][i - 1 := parts[i][1..]];
      Taken(parts[1..], i - 1);
    }
  }

  /** With room for all peaks above and all dips below, no interleaving is clamped. */
  lemma {:induction false} RoomNeverClamps(xp: int, parts: seq<seq<Operation>>, a: seq<Operation>)
    requires xp + Peaks(parts) <= MAX_XP && Dips(parts) <= xp && Interleaves(a, parts)
    ensures NoClamp(xp, a)
    decreases |a|
  {
    if a != [] {
      var i :| 0 <= i < |parts| && TakesFrom(a, parts, i);
      Taken(parts, i);
      RoomNeverClamps(xp + a[0].delta, parts[i := parts[i][1..]], a[1..]);
    }
  }

  lemma {:induction false} NothingLeft(parts: seq<seq<Operation>>)
    requires Total(parts) == 0
    ensures forall i :: 0 <= i < |parts| ==> parts[i] == []
  {
    if parts != [] {
      NothingLeft(parts[1..]);
      forall i | 0 < i < |parts| ensures parts[i] == [] { assert parts[i] == parts[1..][i - 1]; }
    }
  }

  lemma {:induction false} SomethingLeft(parts: seq<seq<Operation>>) returns (i: nat)
    requires Total(parts) > 0
    ensures i < |parts| && parts[i] != []
  {
    i := 0;
    if parts[0] == [] {
      var j := SomethingLeft(parts[1..]);
      i := j + 1;
    }
  }

  lemma TakeFirst(parts: seq<seq<Operation>>, i: nat, rest: seq<Operation>)
    requires i < |parts| && parts[i] != [] && Interleaves(rest, parts[i := parts[i][1..]])
    ensures Interleaves([parts[i][0]] + rest, parts)
  {
    var a := [parts[i][0]] + rest;
    assert a[1..] == rest && TakesFrom(a, parts, i);
  }

  lemma {:induction false} SomeInterleaving(parts: seq<seq<Operation>>) returns (a: seq<Operation>)
    ensures Interleaves(a, parts)
    decreases Total(parts)
  {
    if Total(parts) == 0 {
      NothingLeft(parts);
      a := [];
    } else {
      var i := SomethingLeft(parts);
      Taken(parts, i);
      var rest := SomeInterleaving(parts[i := parts[i][1..]]);
      TakeFirst(parts, i, rest);
      a := [parts[i][0]] + rest;
    }
  }

  lemma {:induction false} SomePeak(parts: seq<seq<Operation>>) returns (i: nat)
    requires Peaks(parts) > 0
    ensures i < |parts| && Peak(parts[i]) > 0
  {
    i := 0;
    if Peak(parts[0]) == 0 {
      var j := SomePeak(parts[1..]);
      i := j + 1;
    }
  }

  lemma {:induction false} SomeDip(parts: seq<seq<Operation>>) returns (i: nat)
    requires Dips(parts) > 0
    ensures i < |parts| && Dip(parts[i]) > 0
  {
    i := 0;
    if Dip(parts[0]) == 0 {
      var j := SomeDip(parts[1..]);
      i := j + 1;
    }
  }

  /** Without that room, taking every part to its peak first, or to its dip first, is clamped. */
  lemma {:induction false} TightClamps(xp: int, parts: seq<seq<Operation>>, up: bool) returns (a: seq<Operation>)
    requires 0 <= xp <= MAX_XP && (if up then xp + Peaks(parts) > MAX_XP else Dips(parts) > xp)
    ensures Interleaves(a, parts) && !NoClamp(xp, a)
    decreases Total(parts)
  {
    var i;
    if up { i := SomePeak(parts); } else { i := SomeDip(parts); }
    var next, rest := xp + parts[i][0].delta, parts[i := parts[i][1..]];
    Taken(parts, i);
    var later;
    if 0 <= next <= MAX_XP { later := TightClamps(next, rest, up); } else { later := SomeInterleaving(rest); }
    TakeFirst(parts, i, later);
    a := [parts[i][0]] + later;
    assert a[1..] == later;
  }

  /** No delivery that keeps each client's order is ever clamped, exactly when the counter has room above for
      the highest sums of all clients together and below for their lowest. */
  lemma NeverClampsExactly(xp: int, parts: seq<seq<Operation>>)
    requires 0 <= xp <= MAX_XP
    ensures (forall a :: Interleaves(a, parts) ==> NoClamp(xp, a)) <==> xp + Peaks(parts) <= MAX_XP && Dips(parts) <= xp
  {
    if xp + Peaks(parts) <= MAX_XP && Dips(parts) <= xp {
      forall a | Interleaves(a, parts) ensures NoClamp(xp, a) { RoomNeverClamps(xp, parts, a); }
    } else {
      var a := TightClamps(xp, parts, xp + Peaks(parts) > MAX_XP);
    }
  }

  lemma {:induction false} SumOfInterleaving(parts: seq<seq<Operation>>, a: seq<Operation>)
    requires Interleaves(a, parts)
    ensures SumDeltas(a) == SumOf(parts)
    decreases |a|
  {
    if a == [] {
      NoSum(parts);
    } else {
      var i :| 0 <= i < |parts| && TakesFrom(a, parts, i);
      Taken(parts, i);
      SumOfInterleaving(parts[i := parts[i][1..]], a[1..]);
    }
  }

  lemma {:induction false} NoSum(parts: seq<seq<Operation>>)
    requires forall i :: 0 <= i < |parts| ==> parts[i] == []
    ensures SumOf(parts) == 0
  {
    if parts != [] { NoSum(parts[1..]); }
  }

  /** And then every such delivery leaves the same XP: the start and all deltas. */
  lemma RoomIsOrderFree(xp: int, parts: seq<seq<Operation>>, a: seq<Operation>)
    requires 0 <= xp <= MAX_XP && xp + Peaks(parts) <= MAX_XP && Dips(parts) <= xp && Interleaves(a, parts)
    ensures ApplyDeltas(xp, a) == xp + SumOf(parts)
  {
    RoomNeverClamps(xp, parts, a);
    UnclampedIsExact(xp, a);
    SumOfInterleaving(parts, a);
  }
}
