/**
 What the sealed chain pins (functions/src/legacySharedDeckMigration.ts:442-471, 1711-1775, 2165-2233;
 functions/src/legacySharedDeckInventoryFirestore.ts:55-209): the cut of an inventory is unique, a store is
 accepted exactly as the chain of its own entries, only the process of the frozen context stores anything,
 and the byte bound is on the canonical form.
 */
module SealedChain {
  import opened Prelude
  import opened SealedManifest

  // ----- one inventory, one chain -----

  lemma {:induction false} EntriesInTwo(a: seq<Chunk>, b: seq<Chunk>)
    ensures Entries(a + b) == Entries(a) + Entries(b)
  {
    if b == [] {
      assert a + b == a;
    } else {
      var front := b[..|b| - 1];
      assert (a + b)[..|a + b| - 1] == a + front;
      EntriesInTwo(a, front);
      assert Entries(a) + (Entries(front) + b[|b| - 1].entries) == (Entries(a) + Entries(front)) + b[|b| - 1].entries;
    }
  }

  lemma OneChunk(chunk: Chunk)
    ensures Entries([chunk]) == chunk.entries
  {
    assert [chunk][..0] == [] && Entries([]) == [];
    assert [] + chunk.entries == chunk.entries;
  }

  lemma {:induction false} ChargedPrefix(entries: seq<Entry>, n: nat)
    requires n <= |entries|
    ensures Charged(entries[..n]) <= Charged(entries)
  {
    if n == |entries| {
      assert entries[..n] == entries;
    } else {
      ChargedPrefix(entries[..|entries| - 1], n);
      assert entries[..|entries| - 1][..n] == entries[..n];
    }
  }

  /** What follows a chunk that is shorter than another of the same stretch would still have fitted. */
  lemma ShorterIsNotFull(short: seq<Entry>, long: seq<Entry>)
    requires |short| < |long| <= MAX_CHUNK_ENTRIES && Charged(long) <= MAX_CHUNK_BYTES && long[..|short|] == short
    ensures !Full(short, long[|short|])
  {
    var more := long[..|short| + 1];
    assert more[..|short|] == short && more[|short|] == long[|short|];
    ChargedPrefix(long, |short| + 1);
  }

  /** The entries behind the first k chunks begin with those of chunk k, and go on with those of the next. */
  lemma Stretch(chunks: seq<Chunk>, k: nat) returns (behind: seq<Entry>)
    requires k < |chunks|
    ensures Entries(chunks) == Entries(chunks[..k]) + chunks[k].entries + behind
    ensures behind == [] || k + 1 < |chunks|
    ensures k + 1 < |chunks| && chunks[k + 1].entries != [] ==> behind != [] && behind[0] == chunks[k + 1].entries[0]
  {
    behind := Entries(chunks[k + 1..]);
    TakeOneMore(chunks, k);
    OneChunk(chunks[k]);
    EntriesInTwo(chunks[..k], [chunks[k]]);
    EntriesInTwo(chunks[..k + 1], chunks[k + 1..]);
    assert chunks == chunks[..k + 1] + chunks[k + 1..];
    if k + 1 < |chunks| {
      OneChunk(chunks[k + 1]);
      EntriesInTwo([chunks[k + 1]], chunks[k + 2..]);
      assert chunks[k + 1..] == [chunks[k + 1]] + chunks[k + 2..];
    }
  }

  /** Two cuts of one inventory that agree up to k go on with the same entries. */
  lemma SameStretch(a: seq<Chunk>, b: seq<Chunk>, k: nat) returns (restA: seq<Entry>, restB: seq<Entry>)
    requires Entries(a) == Entries(b) && k < |a| && k < |b| && a[..k] == b[..k]
    ensures a[k].entries + restA == b[k].entries + restB
    ensures restA == [] || k + 1 < |a|
    ensures k + 1 < |a| && a[k + 1].entries != [] ==> restA != [] && restA[0] == a[k + 1].entries[0]
  {
    restA := Stretch(a, k);
    restB := Stretch(b, k);
    SameRest(Entries(a[..k]), a[k].entries, restA, b[k].entries, restB);
  }

  lemma OneIsPrefix(x: seq<Entry>, restX: seq<Entry>, y: seq<Entry>, restY: seq<Entry>)
    requires x + restX == y + restY
    ensures |x| <= |y| ==> x == y[..|x|]
    ensures |x| < |y| ==> restX != [] && restX[0] == y[|x|]
  {
    assert x == (x + restX)[..|x|] && y == (y + restY)[..|y|];
    if |x| < |y| { assert (x + restX)[|x|] == (y + restY)[|x|] == y[|x|]; }
  }

  /** If the chunk at k were shorter in one cut, the next entry would still have fitted there. */
  lemma NextFits(c: Context, a: seq<Chunk>, b: seq<Chunk>, k: nat)
    requires WellBuilt(c, a) && WellBuilt(c, b) && Entries(a) == Entries(b)
    requires k < |a| && k < |b| && a[..k] == b[..k] && |a[k].entries| < |b[k].entries|
    ensures k + 1 < |a| && a[k + 1].entries != [] && !Full(a[k].entries, a[k + 1].entries[0])
  {
    var restA, restB := SameStretch(a, b, k);
    OneIsPrefix(a[k].entries, restA, b[k].entries, restB);
    ShorterIsNotFull(a[k].entries, b[k].entries);
    assert |a[k + 1].entries| > 0;
  }

  /** Of two greedy cuts of one inventory that agree up to k, neither chunk at k is shorter. */
  lemma SameEntries(c: Context, a: seq<Chunk>, b: seq<Chunk>, k: nat)
    requires WellBuilt(c, a) && WellBuilt(c, b) && Greedy(a) && Greedy(b) && Entries(a) == Entries(b)
    requires k < |a| && k < |b| && a[..k] == b[..k]
    ensures a[k].entries == b[k].entries
  {
    if |a[k].entries| < |b[k].entries| {
      NextFits(c, a, b, k);
    } else if |b[k].entries| < |a[k].entries| {
      NextFits(c, b, a, k);
    } else {
      var restA, restB := SameStretch(a, b, k);
      OneIsPrefix(a[k].entries, restA, b[k].entries, restB);
      assert b[k].entries[..|b[k].entries|] == b[k].entries;
    }
  }

  lemma SameRest(before: seq<Entry>, x: seq<Entry>, restX: seq<Entry>, y: seq<Entry>, restY: seq<Entry>)
    requires before + x + restX == before + y + restY
    ensures x + restX == y + restY
  {
    assert x + restX == (before + x + restX)[|before|..] && y + restY == (before + y + restY)[|before|..];
  }

  lemma {:induction false} CutsAgree(c: Context, a: seq<Chunk>, b: seq<Chunk>, k: nat)
    requires WellBuilt(c, a) && WellBuilt(c, b) && Greedy(a) && Greedy(b) && Entries(a) == Entries(b)
    requires k <= |a| && k <= |b|
    ensures a[..k] == b[..k]
  {
    if k > 0 {
      CutsAgree(c, a, b, k - 1);
      SameEntries(c, a, b, k - 1);
      SameChunk(c, a, b, k - 1);
      TakeOneMore(a, k - 1);
      TakeOneMore(b, k - 1);
    }
  }

  lemma SameChunk(c: Context, a: seq<Chunk>, b: seq<Chunk>, k: nat)
    requires WellBuilt(c, a) && WellBuilt(c, b) && k < |a| && k < |b|
    requires a[..k] == b[..k] && a[k].entries == b[k].entries
    ensures a[k] == b[k]
  {
  }

  /** One inventory is cut in one way, so building it again gives the same chunks and the same manifest. */
  lemma CutIsUnique(c: Context, a: seq<Chunk>, b: seq<Chunk>)
    requires WellBuilt(c, a) && WellBuilt(c, b) && Greedy(a) && Greedy(b) && Entries(a) == Entries(b)
    ensures a == b
  {
    NoneLeft(c, a, b);
    NoneLeft(c, b, a);
    CutsAgree(c, a, b, |a|);
    assert a[..|a|] == a && b[..|a|] == b;
  }

  lemma NoneLeft(c: Context, a: seq<Chunk>, b: seq<Chunk>)
    requires WellBuilt(c, a) && WellBuilt(c, b) && Greedy(a) && Greedy(b) && Entries(a) == Entries(b)
    ensures |b| <= |a|
  {
    if |b| > |a| {
      CutsAgree(c, a, b, |a|);
      assert a[..|a|] == a;
      MoreEntries(c, b, |a|);
    }
  }

  lemma MoreEntries(c: Context, chunks: seq<Chunk>, k: nat)
    requires WellBuilt(c, chunks) && k < |chunks|
    ensures |Entries(chunks)| > |Entries(chunks[..k])|
  {
    var rest := Stretch(chunks, k);
    assert |chunks[k].entries| > 0;
  }

  // ----- what the reader accepts -----

  /** A store is read exactly when it is sealed in the asked context with the manifest of the very chain that
      it holds, each chunk made from its entries in its place and within the validator's bounds. */
  lemma ReadableExactly(s: Store, owner: Text, revision: Text, target: Text, read: seq<Chunk>)
    ensures Readable(s, owner, revision, target, read) <==>
      && s.freeze.Some? && s.freeze.value.phase.Sealed?
      && s.freeze.value.owner == owner && s.freeze.value.revision == revision && s.freeze.value.target == target
      && var m := s.freeze.value.phase.manifest;
      && m.context.owner == owner && m.context.revision == revision && m.context.target == target
      && m == MakeManifest(m.context, Entries(read), read, m.rest)
      && HoldsChain(s.chunks, m, read)
  {
    if s.freeze.Some? && s.freeze.value.phase.Sealed? {
      var m := s.freeze.value.phase.manifest;
      ReadsExactly(s.chunks, m, read);
    }
  }

  lemma ReadsExactly(chunks: map<ChunkKey, Chunk>, m: Manifest, read: seq<Chunk>)
    ensures Reads(chunks, m, read, |read|) <==> HoldsChain(chunks, m, read)
  {
    forall k: nat | k < |read|
      ensures ValidChunk(m.context, read[k], k, HeadDigest(m.context, read[..k])) <==> MadeInPlace(m.context, read, k)
    {
      ValidExactly(m.context, read[k], k, HeadDigest(m.context, read[..k]));
    }
  }

  ghost predicate HoldsChain(chunks: map<ChunkKey, Chunk>, m: Manifest, read: seq<Chunk>) {
    forall k: nat :: k < |read| ==>
      Lookup(chunks, ChunkKey(m.space, k)) == Some(read[k]) && MadeInPlace(m.context, read, k)
  }

  ghost predicate MadeInPlace(c: Context, read: seq<Chunk>, k: nat)
    requires k < |read|
  {
    && read[k] == MakeChunk(c, k, HeadDigest(c, read[..k]), read[k].entries)
    && |read[k].entries| <= MAX_CHUNK_ENTRIES && ChunkBytes(c, read[k]) <= MAX_CHUNK_BYTES
  }

  lemma ValidExactly(c: Context, chunk: Chunk, index: nat, previous: Digest)
    ensures ValidChunk(c, chunk, index, previous) <==>
      && chunk == MakeChunk(c, index, previous, chunk.entries)
      && |chunk.entries| <= MAX_CHUNK_ENTRIES && ChunkBytes(c, chunk) <= MAX_CHUNK_BYTES
  {
  }

  // ----- who may seal -----

  /** The stored freeze is for this context, and has not given way to another revision. */
  predicate FrozenFor(s: Store, c: Context) {
    && s.freeze.Some? && !s.freeze.value.phase.Superseded?
    && s.freeze.value.owner == c.owner && s.freeze.value.revision == c.revision && s.freeze.value.target == c.target
    && s.freeze.value.scanStartedAt == c.scanStartedAt
  }

  /** A process whose context is not the frozen one stores nothing. */
  lemma OutsiderStoresNothing(sys: System, step: Step)
    requires (step.SealNext? || step.FinishSeal?) && step.w in sys.sealers
    requires !FrozenFor(sys.store, sys.sealers[step.w].manifest.context)
    ensures Next(sys, step).store == sys.store
  {
  }

  /** The freeze keeps its context, and a sealed one its manifest, until it is superseded. */
  predicate KeepsFreeze(before: Freeze, after: Freeze) {
    && after.owner == before.owner && after.revision == before.revision && after.target == before.target
    && after.scanStartedAt == before.scanStartedAt
    && (before.phase.Sealed? ==> after.phase == before.phase || after.phase.Superseded?)
  }

  /** No step takes a freeze away from its context; only a superseded one gives way, and only to another
      revision of the same owner and target. */
  lemma NextKeepsFreeze(sys: System, step: Step)
    requires sys.store.freeze.Some?
    ensures Next(sys, step).store.freeze.Some?
    ensures var before, after := sys.store.freeze.value, Next(sys, step).store.freeze.value;
      || KeepsFreeze(before, after)
      || (before.phase.Superseded? && step.BeginFreeze? && after.phase.Frozen?
          && after.owner == before.owner && after.target == before.target && after.revision != before.revision)
  {
  }

  /** A freeze that has not been superseded and is not superseded during the run stands to its end. */
  lemma {:induction false} FreezeStands(sys: System, steps: seq<Step>)
    requires sys.store.freeze.Some? && !sys.store.freeze.value.phase.Superseded? && Supersede !in steps
    ensures Run(sys, steps).store.freeze.Some?
    ensures KeepsFreeze(sys.store.freeze.value, Run(sys, steps).store.freeze.value)
    ensures !Run(sys, steps).store.freeze.value.phase.Superseded?
    decreases |steps|
  {
    if steps != [] {
      assert steps[0] in steps;
      NextKeepsFreeze(sys, steps[0]);
      FreezeStands(Next(sys, steps[0]), steps[1..]);
    }
  }

  /** The progress counts chunks stored one by one: a step leaves it, raises it by one with that chunk
      stored, or ends it sealed with as many chunks as it had counted. */
  lemma ProgressIsOneByOne(sys: System, step: Step)
    requires sys.store.freeze.Some? && !sys.store.freeze.value.phase.Superseded?
    requires Next(sys, step).store != sys.store && !step.Supersede?
    ensures (step.SealNext? || step.FinishSeal?) && step.w in sys.sealers
    ensures var me, s, t := sys.sealers[step.w], sys.store, Next(sys, step).store;
      if step.SealNext? then
        && me.at == Progress(s) && me.at < |me.chunks| && t.freeze.Some? && t.freeze.value.phase == Sealing(me.at + 1)
        && t.chunks == s.chunks[ChunkKey(me.chunks[me.at].space, me.at) := me.chunks[me.at]]
      else
        && t.freeze.Some? && t.freeze.value.phase == Sealed(me.manifest) && t.chunks == s.chunks
        && |me.chunks| == Progress(s) && me.at == |me.chunks|
  {
  }

  /** A begin is refused exactly when a freeze of another owner or target stands, one of another revision that
      has not been superseded, or a superseded one of this revision.  It takes a free or superseded store anew,
      and rejoins its own freeze as it stands, with the earlier scan's start. */
  lemma BeginExactly(s: Store, owner: Text, revision: Text, target: Text, scanStartedAt: nat)
    ensures BeginFreezeTx(s, owner, revision, target, scanStartedAt).None? <==> Occupied(s, owner, revision, target)
    ensures !Occupied(s, owner, revision, target) ==>
      BeginFreezeTx(s, owner, revision, target, scanStartedAt)
      == if s.freeze.Some? && s.freeze.value.revision == revision then Some(s)
         else Some(s.(freeze := Some(Freeze(owner, revision, target, scanStartedAt, Frozen))))
  {
  }

  predicate Occupied(s: Store, owner: Text, revision: Text, target: Text) {
    && s.freeze.Some?
    && (s.freeze.value.owner != owner || s.freeze.value.target != target
        || (s.freeze.value.revision == revision <==> s.freeze.value.phase.Superseded?))
  }

  // ----- sealing gets there -----

  lemma {:induction false} RunOn(sys: System, first: seq<Step>, rest: seq<Step>)
    ensures Run(sys, first + rest) == Run(Run(sys, first), rest)
    decreases |first|
  {
    if first == [] {
      assert first + rest == rest;
    } else {
      assert (first + rest)[0] == first[0] && (first + rest)[1..] == first[1..] + rest;
      RunOn(Next(sys, first[0]), first[1..], rest);
    }
  }

  lemma RunOne(sys: System, step: Step)
    ensures Run(sys, [step]) == Next(sys, step)
  {
    assert [step][1..] == [];
    assert Run(Next(sys, step), []) == Next(sys, step);
  }

  function Seals(w: nat, n: nat): seq<Step> {
    if n == 0 then [] else [SealNext(w)] + Seals(w, n - 1)
  }

  /** Sealer w has stored the first k chunks, and nobody has sealed the store. */
  ghost predicate Underway(sys: System, w: nat, m: Manifest, chunks: seq<Chunk>, k: nat) {
    && w in sys.sealers && sys.sealers[w] == Sealer(m, chunks, k) && k <= |chunks|
    && PartlySealed(sys.store, m, chunks) && !sys.store.freeze.value.phase.Sealed? && Progress(sys.store) == k
  }

  ghost predicate AllValid(m: Manifest, chunks: seq<Chunk>) {
    forall k: nat :: k < |chunks| ==>
      chunks[k].space == m.space && ValidChunk(m.context, chunks[k], k, HeadDigest(m.context, chunks[..k]))
  }

  lemma SealOne(sys: System, w: nat, m: Manifest, chunks: seq<Chunk>, k: nat)
    requires Underway(sys, w, m, chunks, k) && k < |chunks| && AllValid(m, chunks)
    ensures Underway(Next(sys, SealNext(w)), w, m, chunks, k + 1)
  {
    assert ValidChunk(m.context, chunks[k], k, HeadDigest(m.context, chunks[..k]));
    SealChunkKeepsPartly(sys.store, m, chunks, k);
  }

  lemma {:induction false} SealAll(sys: System, w: nat, m: Manifest, chunks: seq<Chunk>, k: nat)
    requires Underway(sys, w, m, chunks, k) && AllValid(m, chunks)
    ensures Underway(Run(sys, Seals(w, |chunks| - k)), w, m, chunks, |chunks|)
    decreases |chunks| - k
  {
    if k < |chunks| {
      SealOne(sys, w, m, chunks, k);
      SealAll(Next(sys, SealNext(w)), w, m, chunks, k + 1);
    }
  }

  lemma SealLast(sys: System, w: nat, m: Manifest, chunks: seq<Chunk>)
    requires Underway(sys, w, m, chunks, |chunks|) && HeadDigest(m.context, chunks) == m.last
    ensures Next(sys, FinishSeal(w)).store.freeze.Some?
    ensures Next(sys, FinishSeal(w)).store.freeze.value.phase == Sealed(m)
  {
    var f := sys.store.freeze.value;
    assert f.phase.Frozen? ==> |chunks| == 0;
  }

  lemma StartsUnderway(w: nat, m: Manifest, chunks: seq<Chunk>, c: Context)
    requires m.context == c && ValidSeal(m, chunks)
    ensures var sys := Next(System(Store(None, map[]), map[]),
                            BeginFreeze(c.owner, c.revision, c.target, c.scanStartedAt));
      Underway(Next(sys, StartSeal(w, m, chunks)), w, m, chunks, 0)
  {
  }

  function SealingRun(w: nat, m: Manifest, chunks: seq<Chunk>): seq<Step> {
    [BeginFreeze(m.context.owner, m.context.revision, m.context.target, m.context.scanStartedAt),
     StartSeal(w, m, chunks)] + Seals(w, |chunks|) + [FinishSeal(w)]
  }

  /** Undisturbed, one process takes the freeze, stores its chunks and seals them: its manifest stands. */
  lemma {:induction false} SealingSucceeds(w: nat, c: Context, inventory: seq<Entry>, built: seq<Chunk>, rest: nat)
    requires WellBuilt(c, built) && Entries(built) == inventory
    requires forall k: nat :: k < |built| ==> Overhead(c, k) <= ENTRY_ALLOWANCE
    ensures var m := MakeManifest(c, inventory, built, rest);
      var s := Run(System(Store(None, map[]), map[]), SealingRun(w, m, built)).store;
      s.freeze.Some? && s.freeze.value.phase == Sealed(m)
  {
    var m := MakeManifest(c, inventory, built, rest);
    var begin, start := BeginFreeze(c.owner, c.revision, c.target, c.scanStartedAt), StartSeal(w, m, built);
    var empty := System(Store(None, map[]), map[]);
    forall k: nat | k < |built|
      ensures built[k].space == m.space && ValidChunk(c, built[k], k, HeadDigest(c, built[..k]))
    {
      WellBuiltIsValid(c, built, k);
    }
    var started := Next(Next(empty, begin), start);
    StartsUnderway(w, m, built, c);
    SealAll(started, w, m, built, 0);
    SealLast(Run(started, Seals(w, |built|)), w, m, built);
    RunOn(empty, [begin, start] + Seals(w, |built|), [FinishSeal(w)]);
    RunOn(empty, [begin, start], Seals(w, |built|));
    RunTwo(empty, begin, start);
    RunOne(Run(started, Seals(w, |built|)), FinishSeal(w));
  }

  lemma RunTwo(sys: System, a: Step, b: Step)
    ensures Run(sys, [a, b]) == Next(Next(sys, a), b)
  {
    assert [a, b][1..] == [b];
    RunOne(Next(sys, a), b);
  }

  /** A sealed store can be superseded, and any process may crash; neither touches a chunk. */
  lemma OutsideSteps(sys: System, w: nat)
    ensures var t := Next(sys, Supersede);
      if sys.store.freeze.Some? && sys.store.freeze.value.phase.Sealed?
      then t == System(Store(Some(sys.store.freeze.value.(phase := Superseded)), sys.store.chunks), sys.sealers)
      else t == sys
    ensures Next(sys, Crash(w)) == System(sys.store, sys.sealers - {w})
  {
  }

  // ----- the canonical form -----

  function Ascii(s: string): Text {
    seq(|s|, i requires 0 <= i < |s| => s[i] as int)
  }

  function HexDigit(n: nat): nat {
    if n < 10 then 48 + n else 87 + n
  }

  /** One character inside a JSON string. */
  function Escaped(c: nat): Text {
    if c == 34 || c == 92 then [92, c]
    else if c == 8 then [92, 98]
    else if c == 9 then [92, 116]
    else if c == 10 then [92, 110]
    else if c == 12 then [92, 102]
    else if c == 13 then [92, 114]
    else if c < 32 then [92, 117, 48, 48, HexDigit(c / 16), HexDigit(c % 16)]
    else [c]
  }

  function EscapedText(t: Text): Text {
    if t == [] then [] else Escaped(t[0]) + EscapedText(t[1..])
  }

  function Quoted(t: Text): Text {
    [34] + EscapedText(t) + [34]
  }

  function Decimal(n: nat): Text {
    if n < 10 then [48 + n] else Decimal(n / 10) + [48 + n % 10]
  }

  /** How entries and digests are written: an entry in as many bytes as its size says, a digest in 64
      hexadecimal digits. */
  datatype Notation = Notation(entry: Entry -> Text, space: Namespace -> Text, digest: Digest -> Text)

  predicate Plain(t: Text) {
    forall k :: 0 <= k < |t| ==> (48 <= t[k] < 58 || 97 <= t[k] < 103)
  }

  ghost predicate Faithful(f: Notation) {
    && (forall e: Entry :: |f.entry(e)| == e.size)
    && (forall n: Namespace :: |f.space(n)| == 64 && Plain(f.space(n)))
    && (forall d: Digest :: |f.digest(d)| == 64 && Plain(f.digest(d)))
  }

  function Listed(entries: seq<Entry>, f: Notation): Text {
    if entries == [] then []
    else if |entries| == 1 then f.entry(entries[0])
    else Listed(entries[..|entries| - 1], f) + [44] + f.entry(entries[|entries| - 1])
  }

  /** The object with its keys sorted and no white space. */
  function Canonical(chunk: Chunk, f: Notation): Text {
    Ascii("{\"chunkNamespace\":") + Quoted(f.space(chunk.space))
    + Ascii(",\"digest\":") + Quoted(f.digest(chunk.digest))
    + Ascii(",\"entries\":[") + Listed(chunk.entries, f)
    + Ascii("],\"index\":") + Decimal(chunk.index)
    + Ascii(",\"ownerUid\":") + Quoted(chunk.owner)
    + Ascii(",\"previousDigest\":") + Quoted(f.digest(chunk.previous))
    + Ascii(",\"revision\":") + Quoted(chunk.revision)
    + Ascii(",\"schemaVersion\":2,\"target\":") + Quoted(chunk.target)
    + Ascii("}")
  }

  lemma {:induction false} TextSizeIsLength(t: Text)
    ensures |EscapedText(t)| == TextSize(t)
  {
    if t != [] { TextSizeIsLength(t[1..]); }
  }

  lemma {:induction false} PlainIsUnescaped(t: Text)
    requires Plain(t)
    ensures |EscapedText(t)| == |t|
  {
    if t != [] { PlainIsUnescaped(t[1..]); }
  }

  lemma {:induction false} NumberSizeIsLength(n: nat)
    ensures |Decimal(n)| == NumberSize(n)
  {
    if n >= 10 { NumberSizeIsLength(n / 10); }
  }

  lemma {:induction false} ListedLength(entries: seq<Entry>, f: Notation)
    requires Faithful(f)
    ensures |Listed(entries, f)| == TotalSize(entries) + if entries == [] then 0 else |entries| - 1
  {
    if |entries| == 1 {
      assert entries[..0] == [];
    } else if entries != [] {
      ListedLength(entries[..|entries| - 1], f);
    }
  }

  lemma QuotedLength(t: Text, n: nat)
    requires |EscapedText(t)| == n
    ensures |Quoted(t)| == n + 2
  {
  }

  /** The validator bounds the length of the canonical form: that is what the modelled size is. */
  lemma ChunkBytesIsCanonicalLength(c: Context, chunk: Chunk, f: Notation)
    requires Faithful(f)
    requires chunk.owner == c.owner && chunk.target == c.target && chunk.revision == c.revision
    ensures |Canonical(chunk, f)| == ChunkBytes(c, chunk)
  {
    PlainIsUnescaped(f.space(chunk.space));
    PlainIsUnescaped(f.digest(chunk.digest));
    PlainIsUnescaped(f.digest(chunk.previous));
    TextSizeIsLength(chunk.owner);
    TextSizeIsLength(chunk.revision);
    TextSizeIsLength(chunk.target);
    NumberSizeIsLength(chunk.index);
    ListedLength(chunk.entries, f);
    QuotedLength(f.space(chunk.space), 64);
    QuotedLength(f.digest(chunk.digest), 64);
    QuotedLength(f.digest(chunk.previous), 64);
  }
}
