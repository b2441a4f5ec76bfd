/**
 Compacting the pending queue of a device backup (dev/sharedDeviceStoreAdapter.ts:242-297) and
 replaying it over the stored cards (dev/sharedDeviceStoreAdapter.ts:350-398), for the operations of
 one owner.  Times compare as numbers, as equally formatted timestamps do.
 */
module PendingQueue {
  import opened Prelude
  import opened StableSort

  /** A card's fields by key; the protected keys are its id, epoch and revision. */
  type Card = map<nat, nat>

  const EPOCH: nat := 1
  const REVISION: nat := 2
  const PROTECTED: set<nat> := {0, EPOCH, REVISION}

  datatype Version = Version(epoch: nat, revision: nat)

  /** `base` is the version that a delete or a patch was made against. */
  datatype Command =
    | Delete(cardId: nat, time: nat, base: Version)
    | Upsert(cardId: nat, time: nat, card: Card)
    | Patch(cardId: nat, time: nat, base: Version, fields: Card)

  // ----- replay -----

  /** A patched card keeps its own protected keys. */
  function Patched(card: Card, fields: Card): Card {
    map k | k in card.Keys + fields.Keys && (k in PROTECTED ==> k in card)
      :: if k in PROTECTED then card[k] else if k in fields then fields[k] else card[k]
  }

  /** Whether a command may act on the card it finds, by their versions. */
  type Gate = (Card, Command) -> bool

  /** The effect of one command on the card it names. */
  function Act(gate: Gate, card: Option<Card>, c: Command): Option<Card> {
    match c
    case Delete(_, _, _) => if card.Some? && gate(card.value, c) then None else card
    case Upsert(_, _, to) => if card.None? || gate(card.value, c) then Some(to) else card
    case Patch(_, _, _, fields) =>
      if card.Some? && gate(card.value, c) then Some(Patched(card.value, fields)) else card
  }

  function ActAll(gate: Gate, card: Option<Card>, commands: seq<Command>): Option<Card> {
    if commands == [] then card
    else Act(gate, ActAll(gate, card, commands[..|commands| - 1]), commands[|commands| - 1])
  }

  type Cards = map<nat, Card>

  function Put(cards: Cards, id: nat, card: Option<Card>): Cards {
    if card.Some? then cards[id := card.value] else cards - {id}
  }

  function Replay(gate: Gate, cards: Cards, queue: seq<Command>): Cards {
    if queue == [] then cards
    else
      var before, c := Replay(gate, cards, queue[..|queue| - 1]), queue[|queue| - 1];
      Put(before, c.cardId, Act(gate, Lookup(before, c.cardId), c))
  }

  method ReplayPending(gate: Gate, cards: Cards, queue: seq<Command>) returns (merged: Cards)
    ensures merged == Replay(gate, cards, queue)
  {
    merged := cards;
    var k := 0;
    assert queue[..0] == [];
    while k < |queue|
      invariant 0 <= k <= |queue| && merged == Replay(gate, cards, queue[..k])
    {
      var c := queue[k];
      assert queue[..k + 1][..k] == queue[..k];
      merged := Put(merged, c.cardId, Act(gate, Lookup(merged, c.cardId), c));
      k := k + 1;
    }
    assert queue[..k] == queue;
  }

  // ----- compaction -----

  /** One more command for a card whose commands so far are compacted. */
  function Compact(commands: seq<Command>, c: Command): seq<Command> {
    if commands == [] then [c]
    else
      var previous := commands[|commands| - 1];
      if previous.Delete? then (if c.Upsert? then [c] else commands)
      else if c.Delete? then [c]
      else if previous.Upsert? && c.Patch? then commands + [c]
      else if previous.Patch? && c.Patch? then
        commands[..|commands| - 1] + [c.(fields := previous.fields + c.fields)]
      else [c]
  }

  function CompactAll(commands: seq<Command>): seq<Command> {
    if commands == [] then [] else Compact(CompactAll(commands[..|commands| - 1]), commands[|commands| - 1])
  }

  predicate Earlier(a: Command, b: Command) {
    a.time < b.time
  }

  function Of(id: nat): Command -> bool {
    (c: Command) => c.cardId == id
  }

  /** The commands of each card, in the order in which the cards first appear. */
  datatype Table = Table(keys: seq<nat>, commands: map<nat, seq<Command>>)

  function Add(t: Table, c: Command): Table {
    var commands := if c.cardId in t.commands then t.commands[c.cardId] else [];
    Table(if c.cardId in t.commands then t.keys else t.keys + [c.cardId],
          t.commands[c.cardId := Compact(commands, c)])
  }

  function TableOf(queue: seq<Command>): Table {
    if queue == [] then Table([], map[]) else Add(TableOf(queue[..|queue| - 1]), queue[|queue| - 1])
  }

  function Flatten(keys: seq<nat>, commands: map<nat, seq<Command>>): seq<Command>
    requires forall k :: k in keys ==> k in commands
  {
    if keys == [] then [] else commands[keys[0]] + Flatten(keys[1..], commands)
  }

  function CommandsOf(t: Table, id: nat): seq<Command> {
    if id in t.commands then t.commands[id] else []
  }

  ghost predicate KeysOk(t: Table) {
    && (forall k :: k in t.keys <==> k in t.commands)
    && forall i, j :: 0 <= i < j < |t.keys| ==> t.keys[i] != t.keys[j]
  }

  ghost predicate TableOk(t: Table, queue: seq<Command>) {
    KeysOk(t) && forall k: nat :: CommandsOf(t, k) == CompactAll(Filter(Of(k), queue))
  }

  lemma CompactAllSnoc(commands: seq<Command>, c: Command)
    ensures CompactAll(commands + [c]) == Compact(CompactAll(commands), c)
  {
    assert (commands + [c])[..|commands|] == commands;
  }

  lemma FilterOfStep(id: nat, queue: seq<Command>, c: Command)
    ensures CompactAll(Filter(Of(id), queue + [c]))
         == if c.cardId == id then Compact(CompactAll(Filter(Of(id), queue)), c) else CompactAll(Filter(Of(id), queue))
  {
    FilterOfSnoc(Of(id), queue, c);
    CompactAllSnoc(Filter(Of(id), queue), c);
    assert Filter(Of(id), queue) + [] == Filter(Of(id), queue);
  }

  lemma AddKeepsKeys(t: Table, c: Command)
    requires KeysOk(t)
    ensures KeysOk(Add(t, c))
  {
  }

  lemma AddAt(t: Table, c: Command, id: nat)
    ensures CommandsOf(Add(t, c), id) == if id == c.cardId then Compact(CommandsOf(t, id), c) else CommandsOf(t, id)
  {
  }

  lemma AddKeepsTable(t: Table, queue: seq<Command>, c: Command)
    requires TableOk(t, queue)
    ensures TableOk(Add(t, c), queue + [c])
  {
    AddKeepsKeys(t, c);
    forall k: nat ensures CommandsOf(Add(t, c), k) == CompactAll(Filter(Of(k), queue + [c])) {
      FilterOfStep(k, queue, c);
      AddAt(t, c, k);
    }
  }

  lemma TableOfSnoc(queue: seq<Command>, c: Command)
    ensures TableOf(queue + [c]) == Add(TableOf(queue), c)
  {
    assert (queue + [c])[..|queue|] == queue;
  }

  lemma EmptyTable()
    ensures TableOk(TableOf([]), [])
  {
  }

  lemma {:induction false} TableIsOk(queue: seq<Command>)
    ensures TableOk(TableOf(queue), queue)
    decreases |queue|
  {
    if queue == [] {
      EmptyTable();
    } else {
      var front, last := queue[..|queue| - 1], queue[|queue| - 1];
      TableIsOk(front);
      AddKeepsTable(TableOf(front), front, last);
      assert queue == front + [last];
    }
  }

  function Merge(existing: seq<Command>, incoming: seq<Command>): seq<Command> {
    var t := TableOf(Sort(Earlier, existing + incoming));
    TableIsOk(Sort(Earlier, existing + incoming));
    Sort(Earlier, Flatten(t.keys, t.commands))
  }

  method MergeLocalPendingOperations(existing: seq<Command>, incoming: seq<Command>) returns (merged: seq<Command>)
    ensures merged == Merge(existing, incoming)
  {
    var queue := Sort(Earlier, existing + incoming);
    var t := Table([], map[]);
    var k := 0;
    assert queue[..0] == [];
    while k < |queue|
      invariant 0 <= k <= |queue| && t == TableOf(queue[..k])
    {
      assert queue[..k + 1][..k] == queue[..k];
      t := Add(t, queue[k]);
      k := k + 1;
    }
    assert queue[..k] == queue;
    TableIsOk(queue);
    merged := Sort(Earlier, Flatten(t.keys, t.commands));
  }

  // ----- one card -----

  /** What compaction keeps of a card: one command, or an upsert followed by one patch. */
  predicate Shape(commands: seq<Command>) {
    |commands| == 1 || (|commands| == 2 && commands[0].Upsert? && commands[1].Patch?)
  }

  lemma {:induction false} CompactedShape(commands: seq<Command>)
    requires commands != []
    ensures Shape(CompactAll(commands))
  {
    if |commands| > 1 {
      CompactedShape(commands[..|commands| - 1]);
    } else {
      assert commands[..0] == [];
    }
  }

  /** Compacting what is compacted changes nothing. */
  lemma CompactIsIdempotent(commands: seq<Command>)
    ensures CompactAll(CompactAll(commands)) == CompactAll(commands)
  {
    if commands != [] {
      CompactedShape(commands);
      ShapeIsFixed(CompactAll(commands));
    }
  }

  lemma ShapeIsFixed(c: seq<Command>)
    requires Shape(c)
    ensures CompactAll(c) == c
  {
    assert c[..1] == [c[0]];
    assert c[..1][..0] == [];
    if |c| == 1 { assert c[..0] == []; }
  }

  ghost predicate Open(gate: Gate) {
    forall card: Card, c: Command :: gate(card, c)
  }

  lemma PatchTwice(card: Card, f: Card, g: Card)
    ensures Patched(Patched(card, f), g) == Patched(card, f + g)
  {
  }

  lemma ActSnoc(gate: Gate, card: Option<Card>, commands: seq<Command>, c: Command)
    ensures ActAll(gate, card, commands + [c]) == Act(gate, ActAll(gate, card, commands), c)
  {
    assert (commands + [c])[..|commands|] == commands;
  }

  lemma ActOne(gate: Gate, card: Option<Card>, c: Command)
    ensures ActAll(gate, card, [c]) == Act(gate, card, c)
  {
    assert [] + [c] == [c];
    ActSnoc(gate, card, [], c);
  }

  /** With its gate open, a delete or an upsert decides the card whatever it finds. */
  function Decided(card: Option<Card>, c: Command): Option<Card> {
    match c
    case Delete(_, _, _) => None
    case Upsert(_, _, to) => Some(to)
    case Patch(_, _, _, fields) => if card.Some? then Some(Patched(card.value, fields)) else None
  }

  lemma OpenAct(gate: Gate, card: Option<Card>, c: Command)
    requires Open(gate)
    ensures Act(gate, card, c) == Decided(card, c)
  {
    if card.Some? { assert gate(card.value, c); }
  }

  lemma ReplacedActs(gate: Gate, card: Option<Card>, commands: seq<Command>, c: Command)
    requires Open(gate) && !c.Patch?
    ensures ActAll(gate, card, [c]) == Act(gate, ActAll(gate, card, commands), c)
  {
    ActOne(gate, card, c);
    OpenAct(gate, card, c);
    OpenAct(gate, ActAll(gate, card, commands), c);
  }

  lemma DeletedStays(gate: Gate, card: Option<Card>, commands: seq<Command>, c: Command)
    requires Open(gate) && commands != [] && commands[|commands| - 1].Delete? && !c.Upsert?
    ensures ActAll(gate, card, commands) == Act(gate, ActAll(gate, card, commands), c)
  {
    OpenAct(gate, ActAll(gate, card, commands[..|commands| - 1]), commands[|commands| - 1]);
    OpenAct(gate, ActAll(gate, card, commands), c);
  }

  lemma MergedPatchActs(gate: Gate, card: Option<Card>, front: seq<Command>, p: Command, c: Command)
    requires Open(gate) && p.Patch? && c.Patch?
    ensures ActAll(gate, card, front + [c.(fields := p.fields + c.fields)])
         == Act(gate, ActAll(gate, card, front + [p]), c)
  {
    var both, found := c.(fields := p.fields + c.fields), ActAll(gate, card, front);
    ActSnoc(gate, card, front, both);
    ActSnoc(gate, card, front, p);
    OpenAct(gate, found, both);
    OpenAct(gate, found, p);
    OpenAct(gate, ActAll(gate, card, front + [p]), c);
    if found.Some? { PatchTwice(found.value, p.fields, c.fields); }
  }

  /** One compaction step does to the card what the plain command does. */
  lemma CompactActs(gate: Gate, card: Option<Card>, commands: seq<Command>, c: Command)
    requires Open(gate) && (commands == [] || Shape(commands))
    ensures ActAll(gate, card, Compact(commands, c)) == Act(gate, ActAll(gate, card, commands), c)
  {
    if commands == [] {
      ActOne(gate, card, c);
    } else {
      var front, previous := commands[..|commands| - 1], commands[|commands| - 1];
      if previous.Delete? && !c.Upsert? {
        DeletedStays(gate, card, commands, c);
      } else if !c.Patch? {
        ReplacedActs(gate, card, commands, c);
      } else if previous.Upsert? {
        ActSnoc(gate, card, commands, c);
      } else {
        assert commands == front + [previous];
        MergedPatchActs(gate, card, front, previous, c);
      }
    }
  }

  /** A card's compacted commands act as all its commands do. */
  lemma {:induction false} CompactedActsAlike(gate: Gate, card: Option<Card>, commands: seq<Command>)
    requires Open(gate)
    ensures ActAll(gate, card, CompactAll(commands)) == ActAll(gate, card, commands)
  {
    if commands != [] {
      var front := commands[..|commands| - 1];
      CompactedActsAlike(gate, card, front);
      if front != [] { CompactedShape(front); }
      CompactActs(gate, card, CompactAll(front), commands[|commands| - 1]);
    }
  }

  // ----- the whole queue -----

  /** Replaying a queue does to each card what that card's own commands do, in order. */
  lemma {:induction false} ReplayByCard(gate: Gate, cards: Cards, queue: seq<Command>, id: nat)
    ensures Lookup(Replay(gate, cards, queue), id) == ActAll(gate, Lookup(cards, id), Filter(Of(id), queue))
  {
    if queue != [] {
      var front, c := queue[..|queue| - 1], queue[|queue| - 1];
      ReplayByCard(gate, cards, front, id);
      FilterOfSnoc(Of(id), front, c);
      assert queue == front + [c];
      if c.cardId == id {
        ActSnoc(gate, Lookup(cards, id), Filter(Of(id), front), c);
      } else {
        assert Filter(Of(id), front) + [] == Filter(Of(id), front);
      }
    }
  }

  lemma EarlierIsAnOrder()
    ensures StrictWeakOrder(Earlier)
  {
  }

  lemma {:induction false} CompactedIsSorted(commands: seq<Command>)
    requires Sorted(Earlier, commands)
    ensures Sorted(Earlier, CompactAll(commands))
    ensures forall c :: c in CompactAll(commands) ==> commands != [] && c.time <= commands[|commands| - 1].time
    ensures forall c :: c in CompactAll(commands) ==> exists d :: d in commands && d.cardId == c.cardId
  {
    if commands != [] {
      var front, last := commands[..|commands| - 1], commands[|commands| - 1];
      CompactedIsSorted(front);
      if front != [] { assert !Earlier(last, front[|front| - 1]); }
    }
  }

  lemma {:induction false} FilterOfFilterSorted(id: nat, s: seq<Command>)
    requires Sorted(Earlier, s)
    ensures Sorted(Earlier, Filter(Of(id), s))
  {
    EarlierIsAnOrder();
    SortedIsFixed(Earlier, s);
    FilterOfSort(Earlier, Of(id), s);
    SortSorts(Earlier, Filter(Of(id), s));
  }

  lemma {:induction false} FilterOfConcat(p: Command -> bool, a: seq<Command>, b: seq<Command>)
    ensures Filter(p, a + b) == Filter(p, a) + Filter(p, b)
  {
    if a == [] {
      assert a + b == b;
    } else {
      assert (a + b)[0] == a[0] && (a + b)[1..] == a[1..] + b;
      FilterOfConcat(p, a[1..], b);
    }
  }

  lemma {:induction false} FilterAllOrNothing(p: Command -> bool, s: seq<Command>)
    ensures (forall c :: c in s ==> p(c)) ==> Filter(p, s) == s
    ensures (forall c :: c in s ==> !p(c)) ==> Filter(p, s) == []
  {
    if s != [] { FilterAllOrNothing(p, s[1..]); }
  }

  /** The flattened table holds each card's commands in one piece. */
  lemma {:induction false} FlattenByCard(keys: seq<nat>, commands: map<nat, seq<Command>>, id: nat)
    requires forall k :: k in keys ==> k in commands
    requires forall i, j :: 0 <= i < j < |keys| ==> keys[i] != keys[j]
    requires forall k, c :: k in commands && c in commands[k] ==> c.cardId == k
    ensures Filter(Of(id), Flatten(keys, commands)) == if id in keys then commands[id] else []
  {
    if keys != [] {
      FlattenByCard(keys[1..], commands, id);
      FilterOfConcat(Of(id), commands[keys[0]], Flatten(keys[1..], commands));
      FilterAllOrNothing(Of(id), commands[keys[0]]);
      if keys[0] == id { assert id !in keys[1..]; }
    }
  }

  /** After a merge each card has exactly its compacted commands, in time order. */
  lemma MergedByCard(existing: seq<Command>, incoming: seq<Command>, id: nat)
    ensures var own := Filter(Of(id), Sort(Earlier, existing + incoming));
      Filter(Of(id), Merge(existing, incoming)) == CompactAll(own) && Sorted(Earlier, CompactAll(own))
  {
    var queue := Sort(Earlier, existing + incoming);
    var t := TableOf(queue);
    EarlierIsAnOrder();
    SortSorts(Earlier, existing + incoming);
    TableIsOk(queue);
    forall k, c | k in t.commands && c in t.commands[k] ensures c.cardId == k {
      FilterOfFilterSorted(k, queue);
      CompactedIsSorted(Filter(Of(k), queue));
    }
    FlattenByCard(t.keys, t.commands, id);
    FilterOfSort(Earlier, Of(id), Flatten(t.keys, t.commands));
    FilterOfFilterSorted(id, queue);
    CompactedIsSorted(Filter(Of(id), queue));
    SortedIsFixed(Earlier, CompactAll(Filter(Of(id), queue)));
  }

  /** The main result: replaying the compacted queue from any cards gives what replaying the whole queue
      in time order gives. */
  lemma CompactionPreservesReplay(gate: Gate, cards: Cards, existing: seq<Command>, incoming: seq<Command>)
    requires Open(gate)
    ensures Replay(gate, cards, Merge(existing, incoming)) == Replay(gate, cards, Sort(Earlier, existing + incoming))
  {
    var queue, merged := Sort(Earlier, existing + incoming), Merge(existing, incoming);
    forall id: nat ensures Lookup(Replay(gate, cards, merged), id) == Lookup(Replay(gate, cards, queue), id) {
      ReplayByCard(gate, cards, merged, id);
      ReplayByCard(gate, cards, queue, id);
      MergedByCard(existing, incoming, id);
      CompactedActsAlike(gate, Lookup(cards, id), Filter(Of(id), queue));
    }
    SameCards(Replay(gate, cards, merged), Replay(gate, cards, queue));
  }

  lemma SameCards(a: Cards, b: Cards)
    requires forall id: nat :: Lookup(a, id) == Lookup(b, id)
    ensures a == b
  {
    forall id: nat ensures id in a <==> id in b { assert Lookup(a, id) == Lookup(b, id); }
    forall id: nat | id in a ensures a[id] == b[id] { assert Lookup(a, id) == Lookup(b, id); }
  }

  /** Each card keeps one command, or an upsert followed by one patch; and compacting again leaves each
      card's commands as they are. */
  lemma MergedShape(existing: seq<Command>, incoming: seq<Command>, id: nat)
    ensures var own := Filter(Of(id), Merge(existing, incoming)); own == [] || Shape(own)
    ensures Filter(Of(id), Merge(Merge(existing, incoming), [])) == Filter(Of(id), Merge(existing, incoming))
  {
    var merged := Merge(existing, incoming);
    var own := Filter(Of(id), Sort(Earlier, existing + incoming));
    MergedByCard(existing, incoming, id);
    if own != [] { CompactedShape(own); }
    assert merged + [] == merged;
    MergedByCard(merged, [], id);
    EarlierIsAnOrder();
    FilterOfSort(Earlier, Of(id), merged);
    SortedIsFixed(Earlier, Filter(Of(id), merged));
    CompactIsIdempotent(own);
  }
}
