/**
 Compacting a queue again (dev/sharedDeviceStoreAdapter.ts:242-297): the commands of each card stand,
 and the order across cards stands exactly when it already follows the order in which cards appear.
 */
module PendingOrder {
  import opened Prelude
  import opened StableSort
  import opened PendingQueue

  /** The place of a card's first command; the length of the queue if it has none. */
  function FirstAt(queue: seq<Command>, id: nat): nat {
    if queue == [] then 0 else if queue[0].cardId == id then 0 else 1 + FirstAt(queue[1..], id)
  }

  function ByFirst(queue: seq<Command>): (Command, Command) -> bool {
    (a: Command, b: Command) => FirstAt(queue, a.cardId) < FirstAt(queue, b.cardId)
  }

  /** Commands of the same time stand in the order in which their cards first appear. */
  ghost predicate FollowsCards(queue: seq<Command>) {
    forall i, j :: 0 <= i < j < |queue| && queue[i].time == queue[j].time ==>
      FirstAt(queue, queue[i].cardId) <= FirstAt(queue, queue[j].cardId)
  }

  predicate Has(queue: seq<Command>, id: nat) {
    exists c :: c in queue && c.cardId == id
  }

  lemma {:induction false} FirstAtFinds(queue: seq<Command>, id: nat)
    ensures FirstAt(queue, id) <= |queue|
    ensures FirstAt(queue, id) < |queue| <==> Has(queue, id)
    ensures FirstAt(queue, id) < |queue| ==> queue[FirstAt(queue, id)].cardId == id
  {
    if queue != [] {
      FirstAtFinds(queue[1..], id);
      if queue[0].cardId == id {
        assert queue[0] in queue;
      } else if Has(queue, id) {
        var c :| c in queue && c.cardId == id;
        assert c in queue[1..];
      } else {
        forall c | c in queue[1..] ensures c.cardId != id { assert c in queue; }
      }
    }
  }

  lemma {:induction false} FirstAtSnoc(queue: seq<Command>, c: Command, id: nat)
    ensures FirstAt(queue + [c], id) ==
      if FirstAt(queue, id) < |queue| then FirstAt(queue, id) else if c.cardId == id then |queue| else |queue| + 1
    ensures FirstAt(queue, id) <= |queue|
  {
    if queue == [] {
      assert [] + [c] == [c] && [c][1..] == [];
    } else {
      assert (queue + [c])[0] == queue[0] && (queue + [c])[1..] == queue[1..] + [c];
      FirstAtSnoc(queue[1..], c, id);
    }
  }

  /** The table lists its cards in the order of their first commands. */
  ghost predicate KeysByFirst(keys: seq<nat>, queue: seq<Command>) {
    && (forall i :: 0 <= i < |keys| ==> FirstAt(queue, keys[i]) < |queue|)
    && forall i, j :: 0 <= i < j < |keys| ==> FirstAt(queue, keys[i]) < FirstAt(queue, keys[j])
  }

  lemma AddKeepsKeysByFirst(t: Table, queue: seq<Command>, c: Command)
    requires KeysByFirst(t.keys, queue) && TableOk(t, queue)
    ensures KeysByFirst(Add(t, c).keys, queue + [c])
  {
    forall id: nat ensures FirstAt(queue + [c], id) ==
      if FirstAt(queue, id) < |queue| then FirstAt(queue, id) else if c.cardId == id then |queue| else |queue| + 1
    {
      FirstAtSnoc(queue, c, id);
    }
    if c.cardId !in t.commands { NotYetFirst(t, queue, c.cardId); }
  }

  lemma NotYetFirst(t: Table, queue: seq<Command>, id: nat)
    requires TableOk(t, queue) && id !in t.commands
    ensures FirstAt(queue, id) == |queue|
  {
    FirstAtFinds(queue, id);
    assert CommandsOf(t, id) == CompactAll(Filter(Of(id), queue));
    if Has(queue, id) {
      var c :| c in queue && c.cardId == id;
      assert c in Filter(Of(id), queue);
      CompactedShape(Filter(Of(id), queue));
    }
  }

  lemma {:induction false} TableByFirst(queue: seq<Command>)
    ensures KeysByFirst(TableOf(queue).keys, queue)
    decreases |queue|
  {
    if queue != [] {
      var front, c := queue[..|queue| - 1], queue[|queue| - 1];
      TableByFirst(front);
      TableIsOk(front);
      AddKeepsKeysByFirst(TableOf(front), front, c);
      assert queue == front + [c];
    }
  }

  lemma ByFirstIsAnOrder(queue: seq<Command>)
    ensures StrictWeakOrder(ByFirst(queue))
  {
  }

  // ----- grouping by card is sorting by first appearance -----

  ghost predicate OwnCommands(commands: map<nat, seq<Command>>) {
    forall k, c :: k in commands && c in commands[k] ==> c.cardId == k
  }

  lemma {:induction false} FlattenSorted(keys: seq<nat>, commands: map<nat, seq<Command>>, queue: seq<Command>)
    requires (forall k :: k in keys ==> k in commands) && OwnCommands(commands) && KeysByFirst(keys, queue)
    ensures Sorted(ByFirst(queue), Flatten(keys, commands))
    ensures forall c :: c in Flatten(keys, commands) ==> c.cardId in keys
  {
    if keys != [] {
      var rest := keys[1..];
      FlattenSorted(rest, commands, queue);
      forall c | c in Flatten(rest, commands) ensures FirstAt(queue, keys[0]) < FirstAt(queue, c.cardId) {
        var i :| 0 <= i < |rest| && rest[i] == c.cardId;
        assert keys[i + 1] == rest[i];
      }
      JoinSorted(ByFirst(queue), commands[keys[0]], Flatten(rest, commands));
    }
  }

  lemma JoinSorted(before: (Command, Command) -> bool, a: seq<Command>, b: seq<Command>)
    requires Sorted(before, a) && Sorted(before, b)
    requires forall x, y :: x in a && y in b ==> !before(y, x)
    ensures Sorted(before, a + b)
  {
  }

  /** A queue whose cards' commands are compact already. */
  ghost predicate CompactQueue(queue: seq<Command>) {
    Sorted(Earlier, queue) && forall id: nat :: CompactAll(Filter(Of(id), queue)) == Filter(Of(id), queue)
  }

  lemma TiesAreCards(queue: seq<Command>, s: seq<Command>, x: Command)
    requires forall c :: c in s ==> FirstAt(queue, c.cardId) < |queue|
    ensures Filter(TiedWith(ByFirst(queue), x), s) == Filter(Of(x.cardId), s)
  {
    forall c | c in s ensures TiedWith(ByFirst(queue), x)(c) == Of(x.cardId)(c) {
      FirstAtFinds(queue, x.cardId);
      FirstAtFinds(queue, c.cardId);
    }
    FilterAgrees(TiedWith(ByFirst(queue), x), Of(x.cardId), s);
  }

  lemma GroupedByCard(queue: seq<Command>)
    requires CompactQueue(queue)
    ensures var t := TableOf(queue);
      (forall k :: k in t.keys ==> k in t.commands) && Flatten(t.keys, t.commands) == Sort(ByFirst(queue), queue)
  {
    var t := TableOf(queue);
    TableIsOk(queue);
    TableByFirst(queue);
    TableHolds(t, queue);
    var grouped, sorted := Flatten(t.keys, t.commands), Sort(ByFirst(queue), queue);
    FlattenSorted(t.keys, t.commands, queue);
    ByFirstIsAnOrder(queue);
    SortSorts(ByFirst(queue), queue);
    forall x ensures Filter(TiedWith(ByFirst(queue), x), grouped) == Filter(TiedWith(ByFirst(queue), x), sorted) {
      SortKeepsTies(ByFirst(queue), x, queue);
      forall c | c in queue ensures FirstAt(queue, c.cardId) < |queue| { FirstAtFinds(queue, c.cardId); }
      TiesAreCards(queue, queue, x);
      TiesAreCards(queue, grouped, x);
      FlattenByCard(t.keys, t.commands, x.cardId);
      assert CommandsOf(t, x.cardId) == Filter(Of(x.cardId), queue);
    }
    SortedByTies(ByFirst(queue), grouped, sorted);
  }

  lemma TableHolds(t: Table, queue: seq<Command>)
    requires TableOk(t, queue) && CompactQueue(queue)
    ensures OwnCommands(t.commands)
  {
    forall k, c | k in t.commands && c in t.commands[k] ensures c.cardId == k {
      assert CommandsOf(t, k) == Filter(Of(k), queue);
    }
  }

  // ----- the exact condition -----

  function AtTime(time: nat): Command -> bool {
    (c: Command) => c.time == time
  }

  lemma TimeTies(x: Command, s: seq<Command>)
    ensures Filter(TiedWith(Earlier, x), s) == Filter(AtTime(x.time), s)
  {
    forall c | c in s ensures TiedWith(Earlier, x)(c) == AtTime(x.time)(c) {
      assert TiedWith(Earlier, x)(c) == (!Earlier(x, c) && !Earlier(c, x));
    }
    FilterAgrees(TiedWith(Earlier, x), AtTime(x.time), s);
  }

  /** Each instant's commands keep an order. */
  ghost predicate InstantsKeep(queue: seq<Command>, before: (Command, Command) -> bool) {
    forall i, j :: 0 <= i < j < |queue| && queue[i].time == queue[j].time ==> !before(queue[j], queue[i])
  }

  lemma InstantSorted(queue: seq<Command>, before: (Command, Command) -> bool, time: nat)
    requires InstantsKeep(queue, before)
    ensures Sorted(before, Filter(AtTime(time), queue))
  {
    FilterSorted(before, AtTime(time), queue);
  }

  lemma InstantsSorted(queue: seq<Command>, before: (Command, Command) -> bool)
    requires forall time: nat :: Sorted(before, Filter(AtTime(time), queue))
    ensures InstantsKeep(queue, before)
  {
    forall i, j | 0 <= i < j < |queue| && queue[i].time == queue[j].time ensures !before(queue[j], queue[i]) {
      FilterSorted(before, AtTime(queue[i].time), queue);
      assert InPlace(before, AtTime(queue[i].time), queue);
    }
  }

  /** Regrouping and sorting by time sorts each instant's commands by the grouping. */
  lemma InstantOfRegrouped(queue: seq<Command>, before: (Command, Command) -> bool, x: Command)
    requires StrictWeakOrder(before)
    ensures Filter(AtTime(x.time), Sort(Earlier, Sort(before, queue))) == Sort(before, Filter(AtTime(x.time), queue))
  {
    EarlierIsAnOrder();
    SortKeepsTies(Earlier, x, Sort(before, queue));
    TimeTies(x, Sort(Earlier, Sort(before, queue)));
    TimeTies(x, Sort(before, queue));
    FilterOfSort(before, AtTime(x.time), queue);
  }

  /** Sorting a regrouped queue by time gives it back exactly when each instant's commands keep the
      order of their cards. */
  lemma RegroupedExactly(queue: seq<Command>, before: (Command, Command) -> bool)
    requires Sorted(Earlier, queue) && StrictWeakOrder(before)
    ensures Sort(Earlier, Sort(before, queue)) == queue <==> InstantsKeep(queue, before)
  {
    if Sort(Earlier, Sort(before, queue)) == queue {
      forall time: nat ensures Sorted(before, Filter(AtTime(time), queue)) {
        InstantOfRegrouped(queue, before, Delete(0, time, Version(0, 0)));
        SortSorts(before, Filter(AtTime(time), queue));
      }
      InstantsSorted(queue, before);
    }
    if InstantsKeep(queue, before) { RegroupedBack(queue, before); }
  }

  lemma RegroupedBack(queue: seq<Command>, before: (Command, Command) -> bool)
    requires Sorted(Earlier, queue) && StrictWeakOrder(before) && InstantsKeep(queue, before)
    ensures Sort(Earlier, Sort(before, queue)) == queue
  {
    var back := Sort(Earlier, Sort(before, queue));
    EarlierIsAnOrder();
    SortSorts(Earlier, Sort(before, queue));
    forall x ensures Filter(TiedWith(Earlier, x), back) == Filter(TiedWith(Earlier, x), queue) {
      TimeTies(x, back);
      TimeTies(x, queue);
      InstantOfRegrouped(queue, before, x);
      InstantSorted(queue, before, x.time);
      SortedIsFixed(before, Filter(AtTime(x.time), queue));
    }
    SortedByTies(Earlier, back, queue);
  }

  lemma MergeOfSorted(queue: seq<Command>)
    requires Sorted(Earlier, queue)
    ensures var t := TableOf(queue);
      (forall k :: k in t.keys ==> k in t.commands) && Merge(queue, []) == Sort(Earlier, Flatten(t.keys, t.commands))
  {
    assert queue + [] == queue;
    SortedIsFixed(Earlier, queue);
    TableIsOk(queue);
  }

  /** A compact queue is a fixed point of compaction exactly when commands of the same time stand in the
      order in which their cards first appear. */
  lemma FixedExactly(queue: seq<Command>)
    requires CompactQueue(queue)
    ensures Merge(queue, []) == queue <==> FollowsCards(queue)
  {
    MergeOfSorted(queue);
    GroupedByCard(queue);
    ByFirstIsAnOrder(queue);
    RegroupedExactly(queue, ByFirst(queue));
    assert InstantsKeep(queue, ByFirst(queue)) <==> FollowsCards(queue);
  }

  lemma MergedIsCompact(existing: seq<Command>, incoming: seq<Command>)
    ensures CompactQueue(Merge(existing, incoming))
  {
    var all := Sort(Earlier, existing + incoming);
    var t := TableOf(all);
    EarlierIsAnOrder();
    TableIsOk(all);
    SortSorts(Earlier, Flatten(t.keys, t.commands));
    forall id: nat
      ensures CompactAll(Filter(Of(id), Merge(existing, incoming))) == Filter(Of(id), Merge(existing, incoming))
    {
      MergedByCard(existing, incoming, id);
      CompactIsIdempotent(Filter(Of(id), all));
    }
  }

  /** Compacting what a merge gave changes nothing exactly when the merged queue follows its cards. */
  lemma RecompactionExactly(existing: seq<Command>, incoming: seq<Command>)
    ensures var merged := Merge(existing, incoming); Merge(merged, []) == merged <==> FollowsCards(merged)
  {
    MergedIsCompact(existing, incoming);
    FixedExactly(Merge(existing, incoming));
  }

  // ----- a queue that changes -----

  /** An upsert of card 1, superseded at time 2; an upsert of card 2 at time 1, patched at time 2. */
  ghost predicate Interleaved(a0: Command, b1: Command, a2: Command, b2: Command) {
    && a0.Upsert? && b1.Upsert? && a2.Upsert? && b2.Patch?
    && a0.cardId == a2.cardId != b1.cardId == b2.cardId
    && a0.time < b1.time < a2.time == b2.time
  }

  lemma SortThree(x: Command, y: Command, z: Command)
    requires y.time < x.time == z.time
    ensures Sort(Earlier, [x, y, z]) == [y, x, z]
  {
    SortOfCons(Earlier, x, [y, z]);
    assert [x, y, z] == [x] + [y, z];
    assert Sorted(Earlier, [y, z]);
    SortedIsFixed(Earlier, [y, z]);
    assert [y, z] == [y] + [z];
    InsertPastHead(Earlier, x, y, [z]);
    InsertAtHead(Earlier, x, [z]);
  }

  lemma TableOfThree(x: Command, y: Command, z: Command)
    ensures TableOf([x, y, z]) == Add(Add(Add(Table([], map[]), x), y), z)
  {
    TableOfSnoc([], x);
    TableOfSnoc([x], y);
    TableOfSnoc([x, y], z);
    assert [] + [x] == [x] && [x] + [y] == [x, y] && [x, y] + [z] == [x, y, z];
  }

  lemma FirstTable(a0: Command, b1: Command, a2: Command, b2: Command)
    requires Interleaved(a0, b1, a2, b2)
    ensures var t := TableOf([a0, b1, a2, b2]);
      t.keys == [a0.cardId, b1.cardId] && a0.cardId in t.commands && b1.cardId in t.commands
      && t.commands[a0.cardId] == [a2] && t.commands[b1.cardId] == [b1, b2]
  {
    TableOfThree(a0, b1, a2);
    TableOfSnoc([a0, b1, a2], b2);
    assert [a0, b1, a2] + [b2] == [a0, b1, a2, b2];
  }

  lemma FirstMerge(a0: Command, b1: Command, a2: Command, b2: Command)
    requires Interleaved(a0, b1, a2, b2)
    ensures Merge([a0, b1, a2, b2], []) == [b1, a2, b2]
  {
    MergeOfSorted([a0, b1, a2, b2]);
    FirstTable(a0, b1, a2, b2);
    FlattenTwo(TableOf([a0, b1, a2, b2]), [a2], [b1, b2]);
    assert [a2] + [b1, b2] == [a2, b1, b2];
    SortThree(a2, b1, b2);
  }

  lemma FlattenTwo(t: Table, first: seq<Command>, second: seq<Command>)
    requires |t.keys| == 2 && t.keys[0] in t.commands && t.keys[1] in t.commands
    requires t.commands[t.keys[0]] == first && t.commands[t.keys[1]] == second
    ensures Flatten(t.keys, t.commands) == first + second
  {
    assert t.keys[1..][1..] == [];
    assert Flatten(t.keys[1..][1..], t.commands) == [];
    assert Flatten(t.keys[1..], t.commands) == second + [];
    assert second + [] == second;
  }

  /** Such a queue, compacted, does not follow its cards, so compacting it again moves commands. */
  lemma OrderAcrossCardsMayChange(a0: Command, b1: Command, a2: Command, b2: Command)
    requires Interleaved(a0, b1, a2, b2)
    ensures var merged := Merge([a0, b1, a2, b2], []); Merge(merged, []) != merged
  {
    FirstMerge(a0, b1, a2, b2);
    var merged := [b1, a2, b2];
    assert merged[1..] == [a2, b2] && [a2, b2][1..] == [b2];
    assert FirstAt(merged, b2.cardId) == 0;
    assert FirstAt(merged[1..], a2.cardId) == 0 && FirstAt(merged, a2.cardId) == 1;
    assert merged[1] == a2 && merged[2] == b2;
    RecompactionExactly([a0, b1, a2, b2], []);
  }
}
