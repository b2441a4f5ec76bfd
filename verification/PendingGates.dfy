/**
 Compaction under the version gates of the replay (dev/sharedDeviceStoreAdapter.ts:350-398,
 src/lib/deviceStore.ts:20-30): a command acts on a stored card only if the card is no newer than the
 command's boundary.  Compaction then preserves replay for some queues and not for others, and the
 condition is exact.
 */
module PendingGates {
  import opened Prelude
  import opened StableSort
  import opened PendingQueue

  predicate AtMost(a: Version, b: Version) {
    a.epoch < b.epoch || (a.epoch == b.epoch && a.revision <= b.revision)
  }

  /** A missing epoch or revision counts as zero. */
  function VersionOf(card: Card): Version {
    Version(if EPOCH in card then card[EPOCH] else 0, if REVISION in card then card[REVISION] else 0)
  }

  /** What a card must not be newer than for the command to act on it. */
  function Boundary(c: Command): Version {
    if c.Upsert? then VersionOf(c.card) else c.base
  }

  function VersionGate(): Gate {
    (card: Card, c: Command) => AtMost(VersionOf(card), Boundary(c))
  }

  function Acts(card: Option<Card>, commands: seq<Command>): Option<Card> {
    ActAll(VersionGate(), card, commands)
  }

  // ----- patches and versions -----

  /** The part of a patch that takes effect. */
  function Own(fields: Card): Card {
    map k | k in fields && k !in PROTECTED :: fields[k]
  }

  lemma PatchedIsOwn(card: Card, fields: Card)
    ensures Patched(card, fields) == card + Own(fields)
  {
  }

  lemma OwnOfSum(a: Card, b: Card)
    ensures Own(a + b) == Own(a) + Own(b)
  {
  }

  predicate Unprotected(fields: Card) {
    fields.Keys !! PROTECTED
  }

  lemma VersionKept(card: Card, fields: Card)
    requires Unprotected(fields)
    ensures VersionOf(card + fields) == VersionOf(card)
  {
    assert EPOCH in PROTECTED && REVISION in PROTECTED;
  }

  lemma SumAssociates(a: Card, b: Card, c: Card)
    ensures (a + b) + c == a + (b + c)
  {
  }

  /** The merged effect of the patches whose base is at least a version, in order. */
  function FieldsFrom(commands: seq<Command>, v: Version): Card {
    if commands == [] then map[]
    else
      var before, c := FieldsFrom(commands[..|commands| - 1], v), commands[|commands| - 1];
      if c.Patch? && AtMost(v, c.base) then before + Own(c.fields) else before
  }

  lemma {:induction false} FieldsUnprotected(commands: seq<Command>, v: Version)
    ensures Unprotected(FieldsFrom(commands, v))
  {
    if commands != [] { FieldsUnprotected(commands[..|commands| - 1], v); }
  }

  lemma FieldsSnoc(commands: seq<Command>, c: Command, v: Version)
    ensures FieldsFrom(commands + [c], v) ==
      if c.Patch? && AtMost(v, c.base) then FieldsFrom(commands, v) + Own(c.fields) else FieldsFrom(commands, v)
  {
    assert (commands + [c])[..|commands|] == commands;
  }

  // ----- what a list of commands does to a card -----

  /** No delete or upsert reaches a card of the version. */
  predicate Unstruck(commands: seq<Command>, v: Version) {
    forall c :: c in commands && !c.Patch? ==> !AtMost(v, Boundary(c))
  }

  lemma UnstruckFront(commands: seq<Command>, v: Version)
    requires commands != []
    ensures Unstruck(commands, v)
       <==> Unstruck(commands[..|commands| - 1], v) && Unstruck([commands[|commands| - 1]], v)
  {
    var front, c := commands[..|commands| - 1], commands[|commands| - 1];
    assert commands == front + [c];
    if Unstruck(commands, v) { assert c in commands; }
    if Unstruck(front, v) && Unstruck([c], v) {
      forall d | d in commands && !d.Patch? ensures !AtMost(v, Boundary(d)) { assert d in front || d in [c]; }
    }
  }

  /** Such a card survives, with exactly the patches that reach it. */
  lemma {:induction false} Survives(card: Card, commands: seq<Command>)
    requires Unstruck(commands, VersionOf(card))
    ensures Acts(Some(card), commands) == Some(card + FieldsFrom(commands, VersionOf(card)))
  {
    var v := VersionOf(card);
    if commands == [] {
      assert card + map[] == card;
    } else {
      var front, c := commands[..|commands| - 1], commands[|commands| - 1];
      UnstruckFront(commands, v);
      Survives(card, front);
      SurvivorMeets(card, front, c);
    }
  }

  lemma SurvivorMeets(card: Card, front: seq<Command>, c: Command)
    requires Unstruck([c], VersionOf(card))
    ensures var v := VersionOf(card);
      Act(VersionGate(), Some(card + FieldsFrom(front, v)), c) == Some(card + FieldsFrom(front + [c], v))
  {
    var v := VersionOf(card);
    FieldsUnprotected(front, v);
    VersionKept(card, FieldsFrom(front, v));
    FieldsSnoc(front, c, v);
    assert c in [c];
    if c.Patch? && AtMost(v, c.base) {
      PatchedIsOwn(card + FieldsFrom(front, v), c.fields);
      SumAssociates(card, FieldsFrom(front, v), Own(c.fields));
    }
  }

  /** Once struck, what a card becomes depends on its version only. */
  lemma {:induction false} StruckAlike(x: Card, y: Card, commands: seq<Command>)
    requires VersionOf(x) == VersionOf(y) && !Unstruck(commands, VersionOf(x))
    ensures Acts(Some(x), commands) == Acts(Some(y), commands)
  {
    var v := VersionOf(x);
    var front, c := commands[..|commands| - 1], commands[|commands| - 1];
    UnstruckFront(commands, v);
    if Unstruck(front, v) {
      Survives(x, front);
      Survives(y, front);
      StrikeDecides(x + FieldsFrom(front, v), y + FieldsFrom(front, v), front, c, v);
      FieldsUnprotected(front, v);
      VersionKept(x, FieldsFrom(front, v));
      VersionKept(y, FieldsFrom(front, v));
    } else {
      StruckAlike(x, y, front);
    }
  }

  lemma StrikeDecides(x: Card, y: Card, front: seq<Command>, c: Command, v: Version)
    requires !Unstruck([c], v)
    ensures VersionOf(x) == v && VersionOf(y) == v ==> Act(VersionGate(), Some(x), c) == Act(VersionGate(), Some(y), c)
  {
  }

  predicate Bounded(commands: seq<Command>, w: Version) {
    forall c :: c in commands && !c.Patch? ==> AtMost(Boundary(c), w)
  }

  predicate NoNewer(card: Option<Card>, w: Version) {
    card.Some? ==> AtMost(VersionOf(card.value), w)
  }

  /** No command lifts a card above the newest upsert. */
  lemma {:induction false} StaysBounded(card: Option<Card>, commands: seq<Command>, w: Version)
    requires Bounded(commands, w) && NoNewer(card, w)
    ensures NoNewer(Acts(card, commands), w)
  {
    if commands != [] {
      var front, c := commands[..|commands| - 1], commands[|commands| - 1];
      forall d | d in front && !d.Patch? ensures AtMost(Boundary(d), w) { assert d in commands; }
      StaysBounded(card, front, w);
      assert c in commands;
      ActStaysBounded(Acts(card, front), c, w);
    }
  }

  lemma ActStaysBounded(card: Option<Card>, c: Command, w: Version)
    requires NoNewer(card, w) && (!c.Patch? ==> AtMost(Boundary(c), w))
    ensures NoNewer(Act(VersionGate(), card, c), w)
  {
    if c.Patch? && card.Some? {
      PatchedIsOwn(card.value, c.fields);
      VersionKept(card.value, Own(c.fields));
    }
  }

  lemma {:induction false} ActsInTurn(card: Option<Card>, first: seq<Command>, rest: seq<Command>)
    ensures Acts(card, first + rest) == Acts(Acts(card, first), rest)
    decreases |rest|
  {
    if rest == [] {
      assert first + rest == first;
    } else {
      var front, c := rest[..|rest| - 1], rest[|rest| - 1];
      assert (first + rest)[..|first + rest| - 1] == first + front;
      ActsInTurn(card, first, front);
    }
  }

  predicate NoUpserts(commands: seq<Command>) {
    forall c :: c in commands ==> !c.Upsert?
  }

  lemma {:induction false} NothingComesBack(commands: seq<Command>)
    requires NoUpserts(commands)
    ensures Acts(None, commands) == None
  {
    if commands != [] {
      var front, c := commands[..|commands| - 1], commands[|commands| - 1];
      forall d | d in front ensures !d.Upsert? { assert d in commands; }
      NothingComesBack(front);
      assert c in commands;
    }
  }

  // ----- what compaction keeps -----

  predicate AllPatches(commands: seq<Command>) {
    forall c :: c in commands ==> c.Patch?
  }

  /** The merged effect of patches, whatever their bases. */
  function AllFields(commands: seq<Command>): Card {
    if commands == [] then map[]
    else
      var before, c := AllFields(commands[..|commands| - 1]), commands[|commands| - 1];
      if c.Patch? then before + Own(c.fields) else before
  }

  lemma AllFieldsSnoc(commands: seq<Command>, c: Command)
    ensures AllFields(commands + [c]) == if c.Patch? then AllFields(commands) + Own(c.fields) else AllFields(commands)
  {
    assert (commands + [c])[..|commands|] == commands;
  }

  /** A patch that stands for a list of patches: the last base, all the fields. */
  predicate StandsFor(m: Command, patches: seq<Command>) {
    && m.Patch? && patches != [] && patches[|patches| - 1].Patch?
    && m.base == patches[|patches| - 1].base && Own(m.fields) == AllFields(patches)
  }

  lemma OnePatchStands(c: Command)
    requires c.Patch?
    ensures StandsFor(c, [c])
  {
    AllFieldsSnoc([], c);
    assert [] + [c] == [c];
    assert map[] + Own(c.fields) == Own(c.fields);
  }

  lemma NextPatchStands(m: Command, patches: seq<Command>, c: Command)
    requires StandsFor(m, patches) && c.Patch?
    ensures StandsFor(c.(fields := m.fields + c.fields), patches + [c])
  {
    AllFieldsSnoc(patches, c);
    OwnOfSum(m.fields, c.fields);
  }

  lemma {:induction false} PatchesCompact(commands: seq<Command>)
    requires commands != [] && AllPatches(commands)
    ensures |CompactAll(commands)| == 1 && StandsFor(CompactAll(commands)[0], commands)
  {
    var front, c := commands[..|commands| - 1], commands[|commands| - 1];
    assert c in commands && commands == front + [c];
    if front == [] {
      OnePatchStands(c);
    } else {
      forall d | d in front ensures d.Patch? { assert d in commands; }
      PatchesCompact(front);
      NextPatchStands(CompactAll(front)[0], front, c);
    }
  }

  /** A compacted list that begins with a delete or an upsert, and what it was made from. */
  ghost predicate Anchored(commands: seq<Command>, k: seq<Command>, pre: seq<Command>, rest: seq<Command>) {
    && k != [] && !k[0].Patch? && commands == pre + [k[0]] + rest
    && (k[0].Delete? ==> k == [k[0]] && NoUpserts(rest))
    && (k[0].Upsert? ==> AllPatches(rest)
                         && (if rest == [] then k == [k[0]] else |k| == 2 && StandsFor(k[1], rest)))
  }

  /** Some delete has no upsert behind it. */
  predicate Open(commands: seq<Command>) {
    exists j: nat :: j < |commands| && commands[j].Delete? && NoUpserts(commands[j + 1..])
  }

  /** The command that decides what becomes of the card: the last upsert, if only patches follow it, or else
      the first delete behind the last upsert. */
  predicate Decides(commands: seq<Command>, i: nat) {
    && i < |commands|
    && (if commands[i].Upsert? then AllPatches(commands[i + 1..])
        else commands[i].Delete? && NoUpserts(commands[i + 1..]) && !Open(commands[..i]))
  }

  lemma OpenSnoc(front: seq<Command>, c: Command)
    ensures Open(front + [c]) <==> c.Delete? || (Open(front) && !c.Upsert?)
  {
    var all := front + [c];
    if Open(front) && !c.Upsert? {
      var j: nat :| j < |front| && front[j].Delete? && NoUpserts(front[j + 1..]);
      assert all[j + 1..] == front[j + 1..] + [c];
      assert all[j].Delete? && NoUpserts(all[j + 1..]);
    }
    if c.Delete? {
      assert all[|front| + 1..] == [];
      assert all[|front|].Delete? && NoUpserts(all[|front| + 1..]);
    }
    if Open(all) && !c.Delete? {
      var j: nat :| j < |all| && all[j].Delete? && NoUpserts(all[j + 1..]);
      assert all[j + 1..] == front[j + 1..] + [c];
      assert c in all[j + 1..];
      forall d | d in front[j + 1..] ensures !d.Upsert? { assert d in all[j + 1..]; }
    }
  }

  /** A compacted list ends in a delete exactly when some delete is open. */
  lemma {:induction false} OpenExactly(commands: seq<Command>)
    requires commands != []
    ensures CompactAll(commands) != []
    ensures CompactAll(commands)[|CompactAll(commands)| - 1].Delete? <==> Open(commands)
  {
    var front, c := commands[..|commands| - 1], commands[|commands| - 1];
    assert commands == front + [c];
    OpenSnoc(front, c);
    if front != [] { OpenExactly(front); }
  }

  /** Some command decides, unless all are patches. */
  lemma {:induction false} SomeDecides(commands: seq<Command>) returns (i: nat)
    requires !AllPatches(commands)
    ensures Decides(commands, i)
    decreases |commands|
  {
    var front, c := commands[..|commands| - 1], commands[|commands| - 1];
    assert commands == front + [c];
    i := |front|;
    if c.Patch? || (c.Delete? && Open(front)) {
      if AllPatches(front) && c.Patch? { PatchesJoin(front, c); }
      if j: nat :| j < |front| && front[j].Delete? { assert front[j] in front; }
      i := SomeDecides(front);
      assert commands[i + 1..] == front[i + 1..] + [c] && commands[..i] == front[..i];
      if front[i].Upsert? { LastUpsertCloses(front, i); }
    }
  }

  lemma LastUpsertCloses(commands: seq<Command>, i: nat)
    requires i < |commands| && commands[i].Upsert? && AllPatches(commands[i + 1..])
    ensures !Open(commands)
  {
    forall m: nat | i < m < |commands| ensures commands[m].Patch? {
      assert commands[i + 1..][m - i - 1] == commands[m];
      assert commands[m] in commands[i + 1..];
    }
    forall j: nat | j < |commands| && commands[j].Delete? ensures !NoUpserts(commands[j + 1..]) {
      if j < i {
        assert commands[j + 1..][i - j - 1] == commands[i];
        assert commands[i] in commands[j + 1..];
      }
    }
  }

  lemma DecidesFront(commands: seq<Command>, i: nat)
    requires Decides(commands, i) && i < |commands| - 1
    ensures Decides(commands[..|commands| - 1], i)
    ensures commands[i + 1..] == commands[..|commands| - 1][i + 1..] + [commands[|commands| - 1]]
    ensures if commands[i].Upsert? then commands[|commands| - 1].Patch? else !commands[|commands| - 1].Upsert?
  {
    var front, c := commands[..|commands| - 1], commands[|commands| - 1];
    assert commands[i + 1..] == front[i + 1..] + [c] && commands[..i] == front[..i];
    assert c in commands[i + 1..];
  }

  lemma DecidesLast(front: seq<Command>, c: Command)
    requires !c.Patch? && (c.Delete? ==> !Open(front))
    ensures CompactAll(front + [c]) == [c]
  {
    assert (front + [c])[..|front|] == front;
    if front != [] { OpenExactly(front); }
  }

  /** The deciding command is the first that compaction keeps. */
  lemma {:induction false} KeptIsDeciding(commands: seq<Command>, i: nat)
    requires Decides(commands, i)
    ensures Anchored(commands, CompactAll(commands), commands[..i], commands[i + 1..])
    ensures CompactAll(commands)[0] == commands[i]
    decreases |commands|
  {
    var front, c := commands[..|commands| - 1], commands[|commands| - 1];
    assert commands == front + [c];
    if i == |front| {
      assert commands[..i] == front && commands[i + 1..] == [];
      DecidesLast(front, c);
      AnchoredLast(front, c);
    } else {
      DecidesFront(commands, i);
      KeptIsDeciding(front, i);
      assert commands[..i] == front[..i];
      AnchoredOn(front, CompactAll(front), front[..i], front[i + 1..], c);
    }
  }

  lemma PatchesJoin(front: seq<Command>, c: Command)
    requires AllPatches(front) && c.Patch?
    ensures AllPatches(front + [c])
  {
  }

  lemma AnchoredLast(front: seq<Command>, c: Command)
    requires !c.Patch?
    ensures Anchored(front + [c], [c], front, [])
  {
    assert front + [c] == front + [c] + [];
  }

  lemma AnchoredOn(front: seq<Command>, k: seq<Command>, pre: seq<Command>, rest: seq<Command>, c: Command)
    requires Anchored(front, k, pre, rest) && !Replaces(k, c)
    ensures Anchored(front + [c], Compact(k, c), pre, rest + [c])
  {
    AnchorHolds(k, rest, c);
    assert pre + [k[0]] + rest + [c] == pre + [k[0]] + (rest + [c]);
  }

  /** The new command takes the place of everything kept so far. */
  predicate Replaces(k: seq<Command>, c: Command)
    requires k != []
  {
    if k[|k| - 1].Delete? then c.Upsert? else !c.Patch?
  }

  lemma AnchorHolds(k: seq<Command>, rest: seq<Command>, c: Command)
    requires k != [] && !k[0].Patch? && !Replaces(k, c)
    requires k[0].Delete? ==> k == [k[0]] && NoUpserts(rest)
    requires k[0].Upsert? ==>
      AllPatches(rest) && (if rest == [] then k == [k[0]] else |k| == 2 && StandsFor(k[1], rest))
    ensures var l, more := Compact(k, c), rest + [c];
      && l != [] && l[0] == k[0]
      && (k[0].Delete? ==> l == [l[0]] && NoUpserts(more))
      && (k[0].Upsert? ==> AllPatches(more) && |l| == 2 && StandsFor(l[1], more))
  {
    if k[0].Upsert? {
      if rest == [] {
        OnePatchStands(c);
        assert rest + [c] == [c];
      } else {
        NextPatchStands(k[1], rest, c);
      }
    }
  }

  // ----- the condition -----

  /** What the compacted list does to a surviving card of the version. */
  function KeptFields(commands: seq<Command>, v: Version): Card {
    var k := CompactAll(commands);
    if k != [] && k[|k| - 1].Patch? && AtMost(v, k[|k| - 1].base) then Own(k[|k| - 1].fields) else map[]
  }

  /** One patch in the place of several: all their fields, against the base of the last. */
  function MergedFields(patches: seq<Command>, v: Version): Card {
    if patches != [] && patches[|patches| - 1].Patch? && AtMost(v, patches[|patches| - 1].base)
    then AllFields(patches) else map[]
  }

  /** The patches that count behind a deciding command. */
  function TailOf(commands: seq<Command>, i: nat): seq<Command>
    requires i < |commands|
  {
    if commands[i].Upsert? then commands[i + 1..] else []
  }

  /** Where the patch reaches, the patches that reach as far come to what the tail's merged patch does. */
  predicate PatchAgrees(commands: seq<Command>, tail: seq<Command>, c: Command) {
    c.Patch? ==> FieldsFrom(commands, c.base) == MergedFields(tail, c.base)
  }

  /** With a deciding command: no delete or upsert has a boundary above its own; patches based above it agree
      with the tail's; and behind an upsert, the patches that reach its card leave it as the merged one does. */
  predicate FaithfulAt(commands: seq<Command>, i: nat)
    requires i < |commands|
  {
    var w, tail := Boundary(commands[i]), TailOf(commands, i);
    && Bounded(commands, w)
    && (forall c :: c in commands && !AtMost(Boundary(c), w) ==> PatchAgrees(commands, tail, c))
    && (commands[i].Upsert? ==> commands[i].card + FieldsFrom(tail, w) == commands[i].card + MergedFields(tail, w))
  }

  /** Exactly when compaction preserves what one card's commands do, said of the commands alone. */
  ghost predicate CompactsFaithfully(commands: seq<Command>) {
    if AllPatches(commands) then forall c :: c in commands ==> PatchAgrees(commands, commands, c)
    else exists i: nat :: Decides(commands, i) && FaithfulAt(commands, i)
  }

  /** What compaction keeps is the deciding command and its tail, merged. */
  lemma KeptIsMerged(commands: seq<Command>, i: nat, v: Version)
    requires Decides(commands, i)
    ensures KeptFields(commands, v) == MergedFields(TailOf(commands, i), v)
  {
    KeptIsDeciding(commands, i);
    var k, rest := CompactAll(commands), commands[i + 1..];
    if commands[i].Upsert? && rest != [] { assert StandsFor(k[1], rest); }
  }

  lemma PatchesAreMerged(commands: seq<Command>, v: Version)
    requires AllPatches(commands)
    ensures KeptFields(commands, v) == MergedFields(commands, v)
  {
    if commands != [] { PatchesCompact(commands); }
  }

  // ----- it is enough -----

  lemma OneCommand(k: seq<Command>, v: Version)
    requires |k| == 1
    ensures FieldsFrom(k, v) == if k[0].Patch? && AtMost(v, k[0].base) then Own(k[0].fields) else map[]
  {
    FieldsSnoc([], k[0], v);
    assert [] + [k[0]] == k;
    if k[0].Patch? { assert map[] + Own(k[0].fields) == Own(k[0].fields); }
  }

  lemma UpsertAndPatch(k: seq<Command>, v: Version)
    requires |k| == 2 && !k[0].Patch? && k[1].Patch?
    ensures FieldsFrom(k, v) == if AtMost(v, k[1].base) then Own(k[1].fields) else map[]
  {
    OneCommand([k[0]], v);
    FieldsSnoc([k[0]], k[1], v);
    assert [k[0]] + [k[1]] == k;
    assert map[] + Own(k[1].fields) == Own(k[1].fields);
  }

  lemma KeptIsFieldsOfCompact(commands: seq<Command>, v: Version)
    requires CompactAll(commands) != [] && Shape(CompactAll(commands))
    ensures FieldsFrom(CompactAll(commands), v) == KeptFields(commands, v)
  {
    if |CompactAll(commands)| == 1 {
      OneCommand(CompactAll(commands), v);
    } else {
      UpsertAndPatch(CompactAll(commands), v);
    }
  }

  /** The patch with the least base that is at least a version; none if no patch reaches it. */
  lemma {:induction false} NextBase(commands: seq<Command>, v: Version) returns (next: Option<Command>)
    ensures next.Some? ==> next.value in commands && next.value.Patch? && AtMost(v, next.value.base)
    ensures forall c :: c in commands && c.Patch? && AtMost(v, c.base) ==> next.Some? && AtMost(next.value.base, c.base)
    ensures next.None? ==> FieldsFrom(commands, v) == map[]
    ensures next.Some? ==> FieldsFrom(commands, v) == FieldsFrom(commands, next.value.base)
  {
    if commands == [] { return None; }
    var front, c := commands[..|commands| - 1], commands[|commands| - 1];
    assert commands == front + [c];
    next := NextBase(front, v);
    if c.Patch? && AtMost(v, c.base) && (next.None? || !AtMost(next.value.base, c.base)) { next := Some(c); }
    if next.Some? { SameReach(commands, v, next.value.base); }
    forall d | d in commands && d.Patch? && AtMost(v, d.base) ensures next.Some? && AtMost(next.value.base, d.base) {
      assert d in front || d == c;
    }
  }

  /** Versions that the same patches reach have the same fields. */
  lemma {:induction false} SameReach(commands: seq<Command>, v: Version, w: Version)
    requires AtMost(v, w)
    ensures (forall c :: c in commands && c.Patch? && AtMost(v, c.base) ==> AtMost(w, c.base)) ==>
      FieldsFrom(commands, v) == FieldsFrom(commands, w)
  {
    if commands != [] && forall c :: c in commands && c.Patch? && AtMost(v, c.base) ==> AtMost(w, c.base) {
      var front, c := commands[..|commands| - 1], commands[|commands| - 1];
      forall d | d in front && d.Patch? && AtMost(v, d.base) ensures AtMost(w, d.base) { assert d in commands; }
      SameReach(front, v, w);
      assert c in commands;
    }
  }

  predicate KeptAgrees(commands: seq<Command>, v: Version) {
    FieldsFrom(commands, v) == KeptFields(commands, v)
  }

  /** Agreement at the bases in use is agreement everywhere above a version. */
  lemma AgreesAbove(commands: seq<Command>, v: Version)
    requires CompactAll(commands) != []
    requires CompactAll(commands)[|CompactAll(commands)| - 1].Patch? ==>
      exists c :: c in commands && c.Patch? && c.base == CompactAll(commands)[|CompactAll(commands)| - 1].base
    requires forall c :: c in commands && c.Patch? && AtMost(v, c.base) ==> KeptAgrees(commands, c.base)
    ensures KeptAgrees(commands, v)
  {
    var next := NextBase(commands, v);
    var last := CompactAll(commands)[|CompactAll(commands)| - 1];
    if next.Some? {
      assert KeptAgrees(commands, next.value.base);
      if last.Patch? { assert AtMost(v, last.base) <==> AtMost(next.value.base, last.base); }
    }
  }

  /** The compacted patch, if there is one, has the base of one of the commands. */
  lemma LastBaseUsed(commands: seq<Command>)
    requires commands != []
    ensures var k := CompactAll(commands);
      k != [] && Shape(k) && (k[|k| - 1].Patch? ==>
        exists c :: c in commands && c.Patch? && c.base == k[|k| - 1].base)
  {
    CompactedShape(commands);
    if AllPatches(commands) {
      PatchesCompact(commands);
      assert commands[|commands| - 1] in commands;
    } else {
      var i := SomeDecides(commands);
      KeptIsDeciding(commands, i);
      var rest := commands[i + 1..];
      if rest != [] { assert rest[|rest| - 1] in commands; }
    }
  }

  /** A card that no delete or upsert reaches. */
  lemma SurvivorsAgree(commands: seq<Command>, card: Card)
    requires commands != []
    requires Unstruck(commands, VersionOf(card)) && Unstruck(CompactAll(commands), VersionOf(card))
    ensures FieldsFrom(commands, VersionOf(card)) == KeptFields(commands, VersionOf(card)) ==>
      Acts(Some(card), CompactAll(commands)) == Acts(Some(card), commands)
  {
    LastBaseUsed(commands);
    KeptIsFieldsOfCompact(commands, VersionOf(card));
    Survives(card, commands);
    Survives(card, CompactAll(commands));
  }

  /** What the kept first command does to a card it reaches. */
  function AnchorLeaves(anchor: Command): Option<Card> {
    if anchor.Upsert? then Some(anchor.card) else None
  }

  lemma AnchorReaches(card: Option<Card>, pre: seq<Command>, anchor: Command)
    requires !anchor.Patch? && Bounded(pre, Boundary(anchor)) && NoNewer(card, Boundary(anchor))
    ensures Acts(card, pre + [anchor]) == AnchorLeaves(anchor)
  {
    StaysBounded(card, pre, Boundary(anchor));
    assert (pre + [anchor])[..|pre|] == pre;
  }

  /** The full replay of a card that the deciding command reaches. */
  lemma ReachedByAll(commands: seq<Command>, pre: seq<Command>, anchor: Command, rest: seq<Command>, card: Option<Card>)
    requires commands == pre + [anchor] + rest && !anchor.Patch?
    requires Bounded(commands, Boundary(anchor)) && NoNewer(card, Boundary(anchor))
    requires if anchor.Upsert? then AllPatches(rest) else NoUpserts(rest)
    ensures Acts(card, commands) ==
      if anchor.Upsert? then Some(anchor.card + FieldsFrom(rest, Boundary(anchor))) else None
  {
    forall c | c in pre && !c.Patch? ensures AtMost(Boundary(c), Boundary(anchor)) { assert c in commands; }
    AnchorReaches(card, pre, anchor);
    ActsInTurn(card, pre + [anchor], rest);
    if anchor.Delete? {
      NothingComesBack(rest);
    } else {
      PatchesReach(anchor.card, rest);
    }
  }

  /** And the compacted one. */
  lemma ReachedByKept(k: seq<Command>, card: Option<Card>)
    requires Shape(k) && k != [] && !k[0].Patch? && NoNewer(card, Boundary(k[0]))
    ensures Acts(card, k) ==
      if k[0].Upsert? then Some(k[0].card + FieldsFrom(k, Boundary(k[0]))) else None
  {
    assert k == [] + [k[0]] + k[1..];
    forall c | c in k && !c.Patch? ensures c == k[0] {
      var j :| 0 <= j < |k| && k[j] == c;
    }
    ReachedByAll(k, [], k[0], k[1..], card);
    if k[0].Upsert? { FieldsOfUpsertFirst(k, Boundary(k[0])); }
  }

  /** Both ways of a card that the deciding command reaches. */
  lemma ReachedCard(commands: seq<Command>, i: nat, card: Option<Card>)
    requires Decides(commands, i) && Bounded(commands, Boundary(commands[i])) && NoNewer(card, Boundary(commands[i]))
    ensures var w, tail := Boundary(commands[i]), TailOf(commands, i);
      if commands[i].Delete? then Acts(card, commands) == None && Acts(card, CompactAll(commands)) == None
      else && Acts(card, commands) == Some(commands[i].card + FieldsFrom(tail, w))
           && Acts(card, CompactAll(commands)) == Some(commands[i].card + MergedFields(tail, w))
  {
    KeptIsDeciding(commands, i);
    KeptIsMerged(commands, i, Boundary(commands[i]));
    LastBaseUsed(commands);
    KeptIsFieldsOfCompact(commands, Boundary(commands[i]));
    ReachedByAll(commands, commands[..i], commands[i], commands[i + 1..], card);
    ReachedByKept(CompactAll(commands), card);
  }

  lemma PatchesReach(card: Card, patches: seq<Command>)
    requires AllPatches(patches)
    ensures Acts(Some(card), patches) == Some(card + FieldsFrom(patches, VersionOf(card)))
  {
    Survives(card, patches);
  }

  lemma FieldsOfUpsertFirst(k: seq<Command>, v: Version)
    requires Shape(k) && k[0].Upsert?
    ensures FieldsFrom(k[1..], v) == FieldsFrom(k, v)
  {
    assert k[..1] == [k[0]] && k[..1][..0] == [];
    if |k| == 2 {
      assert k[1..] == [k[1]] && [k[1]][..0] == [] && k == [k[0]] + [k[1]];
      FieldsSnoc([k[0]], k[1], v);
      FieldsSnoc([], k[1], v);
      assert [] + [k[1]] == [k[1]];
    } else {
      assert k[1..] == [];
    }
  }

  lemma UnstruckAbove(commands: seq<Command>, w: Version, v: Version)
    requires Bounded(commands, w) && !AtMost(v, w)
    ensures Unstruck(commands, v)
  {
  }

  lemma KeptBounded(commands: seq<Command>, i: nat)
    requires Decides(commands, i)
    ensures Bounded(CompactAll(commands), Boundary(commands[i]))
  {
    KeptIsDeciding(commands, i);
    var k := CompactAll(commands);
    forall c | c in k && !c.Patch? ensures c == k[0] {
      var j :| 0 <= j < |k| && k[j] == c;
    }
  }

  lemma FaithfulIsEnough(commands: seq<Command>, card: Option<Card>)
    requires commands != [] && CompactsFaithfully(commands)
    ensures Acts(card, CompactAll(commands)) == Acts(card, commands)
  {
    if AllPatches(commands) {
      PatchesCompact(commands);
      PatchesOnly(commands, card);
    } else {
      var i: nat :| Decides(commands, i) && FaithfulAt(commands, i);
      if NoNewer(card, Boundary(commands[i])) {
        ReachedCard(commands, i, card);
      } else {
        NewerCard(commands, i, card.value);
      }
    }
  }

  /** A card that no delete or upsert reaches. */
  lemma NewerCard(commands: seq<Command>, i: nat, card: Card)
    requires Decides(commands, i) && FaithfulAt(commands, i) && !AtMost(VersionOf(card), Boundary(commands[i]))
    ensures Acts(Some(card), CompactAll(commands)) == Acts(Some(card), commands)
  {
    var w, v := Boundary(commands[i]), VersionOf(card);
    UnstruckAbove(commands, w, v);
    KeptBounded(commands, i);
    UnstruckAbove(CompactAll(commands), w, v);
    forall c | c in commands && c.Patch? && AtMost(v, c.base) ensures KeptAgrees(commands, c.base) {
      assert !AtMost(Boundary(c), w);
      assert PatchAgrees(commands, TailOf(commands, i), c);
      KeptIsMerged(commands, i, c.base);
    }
    LastBaseUsed(commands);
    AgreesAbove(commands, v);
    SurvivorsAgree(commands, card);
  }

  lemma PatchesOnly(commands: seq<Command>, card: Option<Card>)
    requires commands != [] && AllPatches(commands) && AllPatches(CompactAll(commands))
    requires forall c :: c in commands ==> PatchAgrees(commands, commands, c)
    ensures Acts(card, CompactAll(commands)) == Acts(card, commands)
  {
    if card.None? {
      NothingComesBack(commands);
      NothingComesBack(CompactAll(commands));
    } else {
      forall c | c in commands ensures KeptAgrees(commands, c.base) { PatchesAreMerged(commands, c.base); }
      LastBaseUsed(commands);
      AgreesAbove(commands, VersionOf(card.value));
      SurvivorsAgree(commands, card.value);
    }
  }

  // ----- it is needed -----

  /** The bare card of a version. */
  function Stamp(v: Version): (card: Card)
    ensures VersionOf(card) == v && card.Keys <= PROTECTED
  {
    map[EPOCH := v.epoch, REVISION := v.revision]
  }

  lemma SumsAgree(card: Card, a: Card, b: Card)
    requires card.Keys <= PROTECTED && Unprotected(a) && Unprotected(b) && card + a == card + b
    ensures a == b
  {
    forall k ensures k in a <==> k in b {
      assert k in a <==> k in card + a && k !in PROTECTED;
      assert k in b <==> k in card + b && k !in PROTECTED;
    }
    forall k | k in a ensures a[k] == b[k] {
      assert (card + a)[k] == a[k] && (card + b)[k] == b[k];
    }
  }

  lemma KeptUnprotected(commands: seq<Command>, v: Version)
    ensures Unprotected(KeptFields(commands, v))
  {
  }

  /** If compaction preserves what happens to the bare card of a version, the fields agree there. */
  lemma BareCardShows(commands: seq<Command>, v: Version)
    requires commands != [] && Unstruck(commands, v) && Unstruck(CompactAll(commands), v)
    requires Acts(Some(Stamp(v)), CompactAll(commands)) == Acts(Some(Stamp(v)), commands)
    ensures FieldsFrom(commands, v) == KeptFields(commands, v)
  {
    LastBaseUsed(commands);
    KeptIsFieldsOfCompact(commands, v);
    Survives(Stamp(v), commands);
    Survives(Stamp(v), CompactAll(commands));
    FieldsUnprotected(commands, v);
    KeptUnprotected(commands, v);
    SumsAgree(Stamp(v), FieldsFrom(commands, v), KeptFields(commands, v));
  }

  lemma {:induction false} FreshKey(keys: set<nat>) returns (key: nat)
    ensures forall k :: k in keys ==> k < key
    decreases |keys|
  {
    if keys == {} { return 0; }
    var k :| k in keys;
    var rest := FreshKey(keys - {k});
    key := if rest > k then rest else k + 1;
    forall j | j in keys ensures j < key { assert j == k || j in keys - {k}; }
  }

  /** A card that only the full replay strikes tells the two replays apart. */
  lemma StrikeShows(commands: seq<Command>, v: Version)
    requires commands != [] && !Unstruck(commands, v) && Unstruck(CompactAll(commands), v)
    ensures exists card :: Acts(Some(card), CompactAll(commands)) != Acts(Some(card), commands)
  {
    var k := CompactAll(commands);
    var key := FreshKey(PROTECTED + FieldsFrom(k, v).Keys);
    var x, y := Stamp(v), Stamp(v)[key := 0];
    assert EPOCH in PROTECTED && REVISION in PROTECTED && VersionOf(y) == v;
    StruckAlike(x, y, commands);
    Survives(x, k);
    Survives(y, k);
    assert key in y + FieldsFrom(k, v) && key !in x + FieldsFrom(k, v);
    assert Acts(Some(x), k) != Acts(Some(y), k);
  }

  ghost predicate Preserves(commands: seq<Command>) {
    forall card: Option<Card> :: Acts(card, CompactAll(commands)) == Acts(card, commands)
  }

  lemma PreservesBounds(commands: seq<Command>, i: nat)
    requires Decides(commands, i) && Preserves(commands)
    ensures Bounded(commands, Boundary(commands[i]))
  {
    var w := Boundary(commands[i]);
    KeptBounded(commands, i);
    forall c | c in commands && !c.Patch? ensures AtMost(Boundary(c), w) {
      if !AtMost(Boundary(c), w) {
        UnstruckAbove(CompactAll(commands), w, Boundary(c));
        StrikeShows(commands, Boundary(c));
      }
    }
  }

  lemma FaithfulIsNeeded(commands: seq<Command>)
    requires commands != [] && Preserves(commands)
    ensures CompactsFaithfully(commands)
  {
    if AllPatches(commands) {
      PatchesCompact(commands);
      forall c | c in commands ensures PatchAgrees(commands, commands, c) {
        BareCardShows(commands, c.base);
        PatchesAreMerged(commands, c.base);
      }
    } else {
      var i := SomeDecides(commands);
      FaithfulAtIsNeeded(commands, i);
    }
  }

  lemma FaithfulAtIsNeeded(commands: seq<Command>, i: nat)
    requires Decides(commands, i) && Preserves(commands)
    ensures FaithfulAt(commands, i)
  {
    var w := Boundary(commands[i]);
    PreservesBounds(commands, i);
    KeptBounded(commands, i);
    forall c | c in commands && !AtMost(Boundary(c), w) ensures PatchAgrees(commands, TailOf(commands, i), c) {
      UnstruckAbove(commands, w, Boundary(c));
      UnstruckAbove(CompactAll(commands), w, Boundary(c));
      BareCardShows(commands, Boundary(c));
      KeptIsMerged(commands, i, Boundary(c));
    }
    ReachedCard(commands, i, None);
  }

  /** For one card's commands: replaying what compaction keeps equals replaying them all, from every card
      and from none, exactly when the condition on their kinds, boundaries, fields and order holds. */
  lemma PreservesExactly(commands: seq<Command>)
    ensures Preserves(commands) <==> CompactsFaithfully(commands)
  {
    if commands == [] {
      assert CompactAll(commands) == commands;
    } else if Preserves(commands) {
      FaithfulIsNeeded(commands);
    } else if CompactsFaithfully(commands) {
      forall card: Option<Card> ensures Acts(card, CompactAll(commands)) == Acts(card, commands) {
        FaithfulIsEnough(commands, card);
      }
    }
  }

  // ----- the whole queue -----

  ghost predicate ReplayPreserved(existing: seq<Command>, incoming: seq<Command>) {
    forall cards: Cards ::
      Replay(VersionGate(), cards, Merge(existing, incoming))
      == Replay(VersionGate(), cards, Sort(Earlier, existing + incoming))
  }

  lemma ReplaysOfCard(existing: seq<Command>, incoming: seq<Command>, cards: Cards, id: nat)
    ensures var own := Filter(Of(id), Sort(Earlier, existing + incoming));
      && Lookup(Replay(VersionGate(), cards, Merge(existing, incoming)), id) == Acts(Lookup(cards, id), CompactAll(own))
      && Lookup(Replay(VersionGate(), cards, Sort(Earlier, existing + incoming)), id) == Acts(Lookup(cards, id), own)
  {
    ReplayByCard(VersionGate(), cards, Merge(existing, incoming), id);
    ReplayByCard(VersionGate(), cards, Sort(Earlier, existing + incoming), id);
    MergedByCard(existing, incoming, id);
  }

  /** The main result: replaying the compacted queue from any cards, under the version gates, gives what
      replaying the whole queue in time order gives, exactly when each card's commands compact faithfully. */
  lemma ReplayPreservedExactly(existing: seq<Command>, incoming: seq<Command>)
    ensures ReplayPreserved(existing, incoming)
       <==> forall id: nat :: CompactsFaithfully(Filter(Of(id), Sort(Earlier, existing + incoming)))
  {
    var queue := Sort(Earlier, existing + incoming);
    if ReplayPreserved(existing, incoming) {
      forall id: nat ensures CompactsFaithfully(Filter(Of(id), queue)) {
        var own := Filter(Of(id), queue);
        forall card: Option<Card> ensures Acts(card, CompactAll(own)) == Acts(card, own) {
          ReplaysOfCard(existing, incoming, Put(map[], id, card), id);
        }
        PreservesExactly(own);
      }
    }
    if forall id: nat :: CompactsFaithfully(Filter(Of(id), queue)) {
      forall cards: Cards
        ensures Replay(VersionGate(), cards, Merge(existing, incoming)) == Replay(VersionGate(), cards, queue)
      {
        ReplaysAgree(existing, incoming, cards);
      }
    }
  }

  lemma ReplaysAgree(existing: seq<Command>, incoming: seq<Command>, cards: Cards)
    requires forall id: nat :: CompactsFaithfully(Filter(Of(id), Sort(Earlier, existing + incoming)))
    ensures Replay(VersionGate(), cards, Merge(existing, incoming))
         == Replay(VersionGate(), cards, Sort(Earlier, existing + incoming))
  {
    var queue, merged := Sort(Earlier, existing + incoming), Merge(existing, incoming);
    forall id: nat
      ensures Lookup(Replay(VersionGate(), cards, merged), id) == Lookup(Replay(VersionGate(), cards, queue), id)
    {
      ReplaysOfCard(existing, incoming, cards, id);
      PreservesExactly(Filter(Of(id), queue));
      assert Acts(Lookup(cards, id), CompactAll(Filter(Of(id), queue)))
          == Acts(Lookup(cards, id), Filter(Of(id), queue));
    }
    SameCards(Replay(VersionGate(), cards, merged), Replay(VersionGate(), cards, queue));
  }

  // ----- queues that fail -----

  lemma PairInOrder(first: Command, second: Command)
    requires first.time <= second.time && first.cardId == second.cardId
    ensures Filter(Of(first.cardId), Sort(Earlier, [first] + [second])) == [first] + [second]
  {
    assert Sorted(Earlier, [first] + [second]);
    SortedIsFixed(Earlier, [first] + [second]);
    FilterAllOrNothing(Of(first.cardId), [first] + [second]);
  }

  lemma CompactPair(first: Command, second: Command)
    ensures CompactAll([first] + [second]) == Compact([first], second)
  {
    assert ([first] + [second])[..1] == [first];
    assert [first][..0] == [];
    assert CompactAll([first]) == Compact([], first);
  }

  /** Two patches, the second against an older base: a card that only the first may patch loses it. */
  lemma LaterBaseLosesPatch()
    ensures var first, second := Patch(7, 1, Version(0, 2), map[5 := 1]), Patch(7, 2, Version(0, 1), map[6 := 1]);
      !ReplayPreserved([first], [second])
  {
    var first, second := Patch(7, 1, Version(0, 2), map[5 := 1]), Patch(7, 2, Version(0, 1), map[6 := 1]);
    PairInOrder(first, second);
    CompactPair(first, second);
    OlderSecondPatch(first, second, 5);
    ReplayPreservedExactly([first], [second]);
  }

  lemma OlderSecondPatch(first: Command, second: Command, key: nat)
    requires first.Patch? && second.Patch? && !AtMost(first.base, second.base)
    requires key in first.fields && key !in PROTECTED
    requires CompactAll([first] + [second]) == Compact([first], second)
    ensures !CompactsFaithfully([first] + [second])
  {
    FieldsSnoc([first], second, first.base);
    FieldsSnoc([], first, first.base);
    assert [] + [first] == [first];
    assert first in [first] + [second];
    assert key in FieldsFrom([first] + [second], first.base);
  }

  /** A delete, then an upsert of an older version: a card between the two is deleted and replaced by the
      full replay, and kept by the compacted one. */
  lemma OlderUpsertKeepsCard()
    ensures var first, second := Delete(7, 1, Version(0, 2)), Upsert(7, 2, Stamp(Version(0, 1)));
      !ReplayPreserved([first], [second])
  {
    var first, second := Delete(7, 1, Version(0, 2)), Upsert(7, 2, Stamp(Version(0, 1)));
    PairInOrder(first, second);
    CompactPair(first, second);
    OlderUpsert(first, second);
    ReplayPreservedExactly([first], [second]);
  }

  lemma OlderUpsert(first: Command, second: Command)
    requires first.Delete? && second.Upsert? && !AtMost(first.base, Boundary(second))
    requires CompactAll([first] + [second]) == Compact([first], second)
    ensures !CompactsFaithfully([first] + [second])
  {
    assert first in [first] + [second] && !AllPatches([first] + [second]);
  }
}
