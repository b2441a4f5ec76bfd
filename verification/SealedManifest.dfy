/**
 Sealing an inventory and reading it back (functions/src/legacySharedDeckMigration.ts:1711-1775,
 2165-2233; functions/src/legacySharedDeckInventoryFirestore.ts:55-209): entries are cut into bounded
 chunks that form a digest chain, the chain is stored one chunk per transaction, and the reader
 accepts only the whole chain.  Digests are injective, so a digest is what it digests.
 */
module SealedManifest {
  import opened Prelude

  const MAX_CHUNK_BYTES: nat := 512 * 1024
  const MAX_CHUNK_ENTRIES: nat := 50
  const ENTRY_ALLOWANCE: nat := 1024

  /** An ASCII identifier, by code point. */
  type Text = seq<nat>

  /** An inventory entry and the length of its canonical form. */
  datatype Entry = Entry(content: nat, size: nat)

  datatype Context = Context(owner: Text, target: Text, revision: Text, scanStartedAt: nat, inventory: nat)

  datatype Namespace = Namespace(owner: Text, target: Text, revision: Text, inventory: nat)

  datatype Digest =
    | Seed(context: Context)
    | Link(space: Namespace, index: nat, previous: Digest, entries: seq<Entry>)

  datatype Chunk = Chunk(
    owner: Text, target: Text, revision: Text, space: Namespace, index: nat,
    previous: Digest, digest: Digest, entries: seq<Entry>)

  /** The manifest root; its own digest adds nothing to its fields.  `rest` is counts and quota. */
  datatype Manifest = Manifest(
    context: Context, space: Namespace, entryCount: nat, chunkCount: nat,
    seed: Digest, last: Digest, rest: nat)

  function NamespaceOf(c: Context): Namespace {
    Namespace(c.owner, c.target, c.revision, c.inventory)
  }

  // ----- sizes -----

  /** Bytes of one character of a JSON string. */
  function EscapedSize(c: nat): nat {
    if c == 34 || c == 92 || c in {8, 9, 10, 12, 13} then 2 else if c < 32 then 6 else 1
  }

  function TextSize(t: Text): nat {
    if t == [] then 0 else EscapedSize(t[0]) + TextSize(t[1..])
  }

  function NumberSize(n: nat): nat {
    if n < 10 then 1 else 1 + NumberSize(n / 10)
  }

  /** Keys and punctuation of a chunk, and its three hexadecimal digests. */
  const CHUNK_FRAME: nat := 133 + 3 * 64

  function Overhead(c: Context, index: nat): nat {
    CHUNK_FRAME + NumberSize(index) + TextSize(c.owner) + TextSize(c.target) + TextSize(c.revision)
  }

  function TotalSize(entries: seq<Entry>): nat {
    if entries == [] then 0 else TotalSize(entries[..|entries| - 1]) + entries[|entries| - 1].size
  }

  /** The length of a chunk's canonical form: entries are separated by commas. */
  function ChunkBytes(c: Context, chunk: Chunk): nat {
    Overhead(c, chunk.index) + TotalSize(chunk.entries) + if chunk.entries == [] then 0 else |chunk.entries| - 1
  }

  function Charged(entries: seq<Entry>): nat {
    TotalSize(entries) + ENTRY_ALLOWANCE * |entries|
  }

  predicate ValidChunk(c: Context, chunk: Chunk, index: nat, previous: Digest) {
    && chunk.owner == c.owner && chunk.target == c.target && chunk.revision == c.revision
    && chunk.space == NamespaceOf(c) && chunk.index == index && chunk.previous == previous
    && |chunk.entries| <= MAX_CHUNK_ENTRIES && ChunkBytes(c, chunk) <= MAX_CHUNK_BYTES
    && chunk.digest == Link(chunk.space, index, previous, chunk.entries)
  }

  // ----- building -----

  function MakeChunk(c: Context, index: nat, previous: Digest, entries: seq<Entry>): Chunk {
    Chunk(c.owner, c.target, c.revision, NamespaceOf(c), index, previous,
          Link(NamespaceOf(c), index, previous, entries), entries)
  }

  function HeadDigest(c: Context, chunks: seq<Chunk>): Digest {
    if chunks == [] then Seed(c) else chunks[|chunks| - 1].digest
  }

  function Entries(chunks: seq<Chunk>): seq<Entry> {
    if chunks == [] then [] else Entries(chunks[..|chunks| - 1]) + chunks[|chunks| - 1].entries
  }

  /** Every chunk is made by the builder, in its place of the chain, and within the builder's bounds. */
  ghost predicate WellBuilt(c: Context, chunks: seq<Chunk>) {
    forall k: nat :: k < |chunks| ==>
      && chunks[k] == MakeChunk(c, k, HeadDigest(c, chunks[..k]), chunks[k].entries)
      && 0 < |chunks[k].entries| <= MAX_CHUNK_ENTRIES && Charged(chunks[k].entries) <= MAX_CHUNK_BYTES
  }

  lemma PushKeepsWellBuilt(c: Context, chunks: seq<Chunk>, entries: seq<Entry>)
    requires WellBuilt(c, chunks)
    requires 0 < |entries| <= MAX_CHUNK_ENTRIES && Charged(entries) <= MAX_CHUNK_BYTES
    ensures var all := chunks + [MakeChunk(c, |chunks|, HeadDigest(c, chunks), entries)];
      WellBuilt(c, all) && Entries(all) == Entries(chunks) + entries
  {
    var all := chunks + [MakeChunk(c, |chunks|, HeadDigest(c, chunks), entries)];
    assert all[..|chunks|] == chunks;
    forall k: nat | k < |all| ensures
      && all[k] == MakeChunk(c, k, HeadDigest(c, all[..k]), all[k].entries)
      && 0 < |all[k].entries| <= MAX_CHUNK_ENTRIES && Charged(all[k].entries) <= MAX_CHUNK_BYTES
    {
      if k < |chunks| { FrontKept(chunks, all[|chunks|], k); }
    }
  }

  lemma FrontKept(chunks: seq<Chunk>, last: Chunk, k: nat)
    requires k <= |chunks|
    ensures (chunks + [last])[..k] == chunks[..k]
  {
  }

  function MakeManifest(c: Context, entries: seq<Entry>, chunks: seq<Chunk>, rest: nat): Manifest {
    Manifest(c, NamespaceOf(c), |entries|, |chunks|, Seed(c), HeadDigest(c, chunks), rest)
  }

  predicate Oversized(e: Entry) {
    e.size + ENTRY_ALLOWANCE > MAX_CHUNK_BYTES
  }

  /** The entry fits no more into a chunk of these. */
  predicate Full(entries: seq<Entry>, next: Entry) {
    |entries| >= MAX_CHUNK_ENTRIES || Charged(entries) + next.size + ENTRY_ALLOWANCE > MAX_CHUNK_BYTES
  }

  /** No chunk has room for the first entry of the next one. */
  ghost predicate Greedy(chunks: seq<Chunk>) {
    forall k: nat :: k + 1 < |chunks| && chunks[k + 1].entries != [] ==>
      Full(chunks[k].entries, chunks[k + 1].entries[0])
  }

  /** Where the builder stands: chunks pushed, and entries collected for the next one. */
  ghost predicate Building(c: Context, taken: seq<Entry>, chunks: seq<Chunk>, entries: seq<Entry>, bytes: nat) {
    && WellBuilt(c, chunks) && Entries(chunks) + entries == taken && Greedy(chunks)
    && (chunks != [] && entries != [] ==> Full(chunks[|chunks| - 1].entries, entries[0]))
    && |entries| <= MAX_CHUNK_ENTRIES && bytes == Charged(entries) && bytes <= MAX_CHUNK_BYTES
    && |chunks| + |entries| <= |taken|
  }

  lemma Flushed(c: Context, taken: seq<Entry>, chunks: seq<Chunk>, entries: seq<Entry>, bytes: nat)
    requires Building(c, taken, chunks, entries, bytes) && entries != []
    ensures Building(c, taken, chunks + [MakeChunk(c, |chunks|, HeadDigest(c, chunks), entries)], [], 0)
  {
    PushKeepsWellBuilt(c, chunks, entries);
    assert taken + [] == taken;
  }

  lemma Collected(c: Context, taken: seq<Entry>, chunks: seq<Chunk>, entries: seq<Entry>, bytes: nat, entry: Entry)
    requires Building(c, taken, chunks, entries, bytes)
    requires |entries| < MAX_CHUNK_ENTRIES && bytes + entry.size + ENTRY_ALLOWANCE <= MAX_CHUNK_BYTES
    requires chunks != [] && entries == [] ==> Full(chunks[|chunks| - 1].entries, entry)
    ensures Building(c, taken + [entry], chunks, entries + [entry], bytes + entry.size + ENTRY_ALLOWANCE)
  {
    assert (entries + [entry])[..|entries|] == entries;
    assert Entries(chunks) + (entries + [entry]) == (Entries(chunks) + entries) + [entry];
  }

  lemma NothingCollected(c: Context, taken: seq<Entry>, chunks: seq<Chunk>, bytes: nat)
    requires Building(c, taken, chunks, [], bytes)
    ensures bytes == 0
  {
  }

  lemma AllCollected(c: Context, inventory: seq<Entry>, chunks: seq<Chunk>)
    requires Building(c, inventory, chunks, [], 0)
    ensures WellBuilt(c, chunks) && Entries(chunks) == inventory && |chunks| <= |inventory| && Greedy(chunks)
  {
    assert Entries(chunks) + [] == Entries(chunks);
  }

  /** Close the chunk being collected, if it has entries. */
  method PushChunk(c: Context, chunks: seq<Chunk>, entries: seq<Entry>, ghost taken: seq<Entry>, ghost bytes: nat)
    returns (pushed: seq<Chunk>)
    requires Building(c, taken, chunks, entries, bytes)
    ensures Building(c, taken, pushed, [], 0)
    ensures if entries == [] then pushed == chunks else pushed != [] && pushed[|pushed| - 1].entries == entries
  {
    if entries == [] {
      assert bytes == 0;
      return chunks;
    }
    Flushed(c, taken, chunks, entries, bytes);
    return chunks + [MakeChunk(c, |chunks|, HeadDigest(c, chunks), entries)];
  }

  /** Collect one more entry, closing the chunk before it if that is full. */
  method AddEntry(c: Context, pushed: seq<Chunk>, collected: seq<Entry>, charged: nat, entry: Entry,
                  ghost taken: seq<Entry>)
    returns (chunks: seq<Chunk>, entries: seq<Entry>, bytes: nat)
    requires Building(c, taken, pushed, collected, charged) && !Oversized(entry)
    requires collected == [] ==> pushed == []
    ensures Building(c, taken + [entry], chunks, entries, bytes) && entries != []
  {
    chunks, entries, bytes := pushed, collected, charged;
    var entryBytes := entry.size + ENTRY_ALLOWANCE;
    if entries != [] && (|entries| >= MAX_CHUNK_ENTRIES || bytes + entryBytes > MAX_CHUNK_BYTES) {
      chunks := PushChunk(c, chunks, entries, taken, bytes);
      entries, bytes := [], 0;
    }
    if entries == [] { NothingCollected(c, taken, chunks, bytes); }
    Collected(c, taken, chunks, entries, bytes, entry);
    entries, bytes := entries + [entry], bytes + entryBytes;
  }

  predicate NoneOversized(entries: seq<Entry>) {
    forall k :: 0 <= k < |entries| ==> !Oversized(entries[k])
  }

  lemma FoundOversized(entries: seq<Entry>, k: nat)
    requires k < |entries| && Oversized(entries[k])
    ensures !NoneOversized(entries)
  {
  }

  lemma NothingBuilt(c: Context)
    ensures Building(c, [], [], [], 0)
  {
  }

  /** Close the last chunk: the whole inventory has been cut. */
  method PushLast(c: Context, inventory: seq<Entry>, pushed: seq<Chunk>, entries: seq<Entry>, bytes: nat)
    returns (chunks: seq<Chunk>)
    requires Building(c, inventory, pushed, entries, bytes)
    ensures WellBuilt(c, chunks) && Entries(chunks) == inventory && Greedy(chunks) && |chunks| <= |inventory|
  {
    chunks := PushChunk(c, pushed, entries, inventory, bytes);
    AllCollected(c, inventory, chunks);
  }

  lemma OneMoreFits(entries: seq<Entry>, entry: Entry)
    requires NoneOversized(entries) && !Oversized(entry)
    ensures NoneOversized(entries + [entry])
  {
  }

  /** Cuts the entries greedily; refuses exactly an entry that fits no chunk, the first one. */
  method BuildSealedManifest(c: Context, inventory: seq<Entry>, rest: nat)
    returns (r: Result<(Manifest, seq<Chunk>), nat>)
    ensures r.Ok? <==> NoneOversized(inventory)
    ensures r.Err? ==> r.error < |inventory| && Oversized(inventory[r.error]) && NoneOversized(inventory[..r.error])
    ensures r.Ok? ==>
      && WellBuilt(c, r.value.1) && Entries(r.value.1) == inventory && Greedy(r.value.1)
      && r.value.0 == MakeManifest(c, inventory, r.value.1, rest)
      && |r.value.1| <= |inventory|
  {
    var chunks: seq<Chunk>, entries: seq<Entry>, bytes: nat := [], [], 0;
    ghost var taken: seq<Entry> := [];
    NothingBuilt(c);
    var k := 0;
    while k < |inventory|
      invariant 0 <= k <= |inventory| && NoneOversized(taken) && taken == inventory[..k]
      invariant Building(c, taken, chunks, entries, bytes) && (entries == [] ==> chunks == [])
    {
      if inventory[k].size + ENTRY_ALLOWANCE > MAX_CHUNK_BYTES {
        FoundOversized(inventory, k);
        return Err(k);
      }
      chunks, entries, bytes := AddEntry(c, chunks, entries, bytes, inventory[k], taken);
      TakeOneMore(inventory, k);
      OneMoreFits(taken, inventory[k]);
      taken := taken + [inventory[k]];
      k := k + 1;
    }
    assert inventory[..k] == inventory;
    chunks := PushLast(c, inventory, chunks, entries, bytes);
    return Ok((MakeManifest(c, inventory, chunks, rest), chunks));
  }

  // ----- the byte bound -----

  predicate Printable(t: Text) {
    forall k :: 0 <= k < |t| ==> 32 <= t[k] < 127
  }

  lemma {:induction false} PrintableSize(t: Text)
    requires Printable(t)
    ensures TextSize(t) <= 2 * |t|
  {
    if t != [] { PrintableSize(t[1..]); }
  }

  function Power10(k: nat): nat {
    if k == 0 then 1 else 10 * Power10(k - 1)
  }

  lemma {:induction false} NumberFits(n: nat, k: nat)
    requires k > 0 && n < Power10(k)
    ensures NumberSize(n) <= k
  {
    assert Power10(1) == 10;
    if n >= 10 { NumberFits(n / 10, k - 1); }
  }

  /** A JavaScript array has fewer than 2^32 elements, so an index has at most ten digits. */
  lemma OverheadIsAllowedFor(c: Context, index: nat)
    requires Printable(c.owner) && Printable(c.target) && Printable(c.revision)
    requires |c.owner| <= 128 && |c.target| <= 128 && |c.revision| <= 64 && index < 0x1_0000_0000
    ensures Overhead(c, index) <= ENTRY_ALLOWANCE
  {
    PrintableSize(c.owner);
    PrintableSize(c.target);
    PrintableSize(c.revision);
    assert Power10(5) == 100000 && Power10(10) == 10000000000;
    NumberFits(index, 10);
  }

  /** Within the allowance, every chunk the builder makes passes the validator. */
  lemma WellBuiltIsValid(c: Context, chunks: seq<Chunk>, k: nat)
    requires WellBuilt(c, chunks) && k < |chunks| && Overhead(c, k) <= ENTRY_ALLOWANCE
    ensures ValidChunk(c, chunks[k], k, HeadDigest(c, chunks[..k]))
  {
    assert Charged(chunks[k].entries) <= MAX_CHUNK_BYTES;
  }

  /** The chunks that the builder may put at an index: within its bounds on entries and charged bytes. */
  predicate Buildable(entries: seq<Entry>) {
    0 < |entries| <= MAX_CHUNK_ENTRIES && Charged(entries) <= MAX_CHUNK_BYTES
  }

  /** The allowance is exactly what a single entry leaves for the frame of its chunk: at every index and
      behind every chain, all buildable chunks are accepted if and only if the frame keeps within it. */
  lemma FrameFitsExactly(c: Context, index: nat, previous: Digest)
    ensures (forall entries :: Buildable(entries) ==>
               ValidChunk(c, MakeChunk(c, index, previous, entries), index, previous))
       <==> Overhead(c, index) <= ENTRY_ALLOWANCE
  {
    var largest := Entry(0, MAX_CHUNK_BYTES - ENTRY_ALLOWANCE);
    assert [largest][..0] == [];
    assert TotalSize([largest]) == largest.size && Buildable([largest]);
    assert ChunkBytes(c, MakeChunk(c, index, previous, [largest])) == Overhead(c, index) + largest.size;
  }

  // ----- reading back -----

  datatype ChunkKey = ChunkKey(space: Namespace, index: nat)

  datatype Phase = Frozen | Sealing(next: nat) | Sealed(manifest: Manifest) | Superseded

  datatype Freeze = Freeze(owner: Text, revision: Text, target: Text, scanStartedAt: nat, phase: Phase)

  datatype Store = Store(freeze: Option<Freeze>, chunks: map<ChunkKey, Chunk>)

  predicate ValidRoot(m: Manifest, owner: Text, revision: Text, target: Text) {
    && m.context.owner == owner && m.context.revision == revision && m.context.target == target
    && m.seed == Seed(m.context) && m.space == NamespaceOf(m.context)
  }

  /** The first n chunks of a stored chain, each valid in its place. */
  ghost predicate Reads(chunks: map<ChunkKey, Chunk>, m: Manifest, read: seq<Chunk>, n: nat) {
    && |read| == n
    && forall k: nat :: k < n ==>
         && ChunkKey(m.space, k) in chunks && chunks[ChunkKey(m.space, k)] == read[k]
         && ValidChunk(m.context, read[k], k, HeadDigest(m.context, read[..k]))
  }

  /** A store that holds the whole chain of a manifest. */
  ghost predicate Holds(chunks: map<ChunkKey, Chunk>, m: Manifest, read: seq<Chunk>) {
    Reads(chunks, m, read, m.chunkCount) && Complete(m, read)
  }

  /** A store that the reader should accept, and what it should read. */
  ghost predicate Readable(s: Store, owner: Text, revision: Text, target: Text, read: seq<Chunk>) {
    && s.freeze.Some? && s.freeze.value.phase.Sealed?
    && s.freeze.value.owner == owner && s.freeze.value.revision == revision && s.freeze.value.target == target
    && ValidRoot(s.freeze.value.phase.manifest, owner, revision, target)
    && Holds(s.chunks, s.freeze.value.phase.manifest, read)
  }

  ghost predicate Complete(m: Manifest, read: seq<Chunk>) {
    |Entries(read)| == m.entryCount && HeadDigest(m.context, read) == m.last
  }

  lemma ReadsOneMore(chunks: map<ChunkKey, Chunk>, m: Manifest, read: seq<Chunk>, n: nat)
    requires Reads(chunks, m, read, n) && ChunkKey(m.space, n) in chunks
    requires ValidChunk(m.context, chunks[ChunkKey(m.space, n)], n, HeadDigest(m.context, read))
    ensures Reads(chunks, m, read + [chunks[ChunkKey(m.space, n)]], n + 1)
  {
    var all := read + [chunks[ChunkKey(m.space, n)]];
    assert all[..n] == read;
    forall k: nat | k < n ensures all[..k] == read[..k] {}
  }

  lemma NotReadable(chunks: map<ChunkKey, Chunk>, m: Manifest, read: seq<Chunk>, n: nat)
    requires Reads(chunks, m, read, n) && n < m.chunkCount
    requires ChunkKey(m.space, n) !in chunks
          || !ValidChunk(m.context, chunks[ChunkKey(m.space, n)], n, HeadDigest(m.context, read))
    ensures forall other: seq<Chunk> :: !Reads(chunks, m, other, m.chunkCount)
  {
    forall other: seq<Chunk> ensures !Reads(chunks, m, other, m.chunkCount) {
      ReadsGoOn(chunks, m, read, other, n);
    }
  }

  lemma ReadsGoOn(chunks: map<ChunkKey, Chunk>, m: Manifest, read: seq<Chunk>, other: seq<Chunk>, n: nat)
    requires Reads(chunks, m, read, n) && n < m.chunkCount
    ensures Reads(chunks, m, other, m.chunkCount) ==>
      && ChunkKey(m.space, n) in chunks
      && ValidChunk(m.context, chunks[ChunkKey(m.space, n)], n, HeadDigest(m.context, read))
  {
    if Reads(chunks, m, other, m.chunkCount) {
      assert other[..n] == read;
      assert ValidChunk(m.context, other[n], n, HeadDigest(m.context, other[..n]));
    }
  }

  lemma ReadsAreUnique(chunks: map<ChunkKey, Chunk>, m: Manifest, read: seq<Chunk>)
    requires Reads(chunks, m, read, m.chunkCount)
    ensures forall other: seq<Chunk> :: Reads(chunks, m, other, m.chunkCount) ==> other == read
  {
    forall other: seq<Chunk> | Reads(chunks, m, other, m.chunkCount) ensures other == read {
      forall k: nat | k < m.chunkCount ensures other[k] == read[k] {}
    }
  }

  /** The digest chain pins its content: whatever a store holds, a chain that ends in the digest of a
      built one is that one. */
  lemma {:induction false} ChainDeterminesChunks(c: Context, chunks: map<ChunkKey, Chunk>, m: Manifest,
                                                 built: seq<Chunk>, read: seq<Chunk>, n: nat)
    requires m.context == c && m.space == NamespaceOf(c) && WellBuilt(c, built)
    requires n <= |built| && n <= |read| && Reads(chunks, m, read, |read|)
    requires HeadDigest(c, read[..n]) == HeadDigest(c, built[..n])
    ensures read[..n] == built[..n]
    decreases n
  {
    if n > 0 {
      HeadIsLast(c, read, n);
      HeadIsLast(c, built, n);
      ReadAt(chunks, m, read, n - 1);
      SameDigestSameChunk(c, read[n - 1], n - 1, HeadDigest(c, read[..n - 1]), HeadDigest(c, built[..n - 1]),
                          built[n - 1]);
      ChainDeterminesChunks(c, chunks, m, built, read, n - 1);
      TakeOneMore(read, n - 1);
      TakeOneMore(built, n - 1);
    }
  }

  lemma HeadIsLast(c: Context, chunks: seq<Chunk>, n: nat)
    requires 0 < n <= |chunks|
    ensures HeadDigest(c, chunks[..n]) == chunks[n - 1].digest
  {
    assert chunks[..n][n - 1] == chunks[n - 1];
  }

  lemma ReadAt(chunks: map<ChunkKey, Chunk>, m: Manifest, read: seq<Chunk>, k: nat)
    requires k < |read| && Reads(chunks, m, read, |read|)
    ensures ValidChunk(m.context, read[k], k, HeadDigest(m.context, read[..k]))
  {
  }

  lemma SameDigestSameChunk(c: Context, chunk: Chunk, k: nat, previous: Digest, before: Digest, built: Chunk)
    requires ValidChunk(c, chunk, k, previous) && built == MakeChunk(c, k, before, built.entries)
    requires chunk.digest == built.digest
    ensures chunk == built && previous == before
  {
  }

  /** Reading a sealed manifest back gives exactly the inventory it was built from. */
  lemma ReadBackIsTheInventory(c: Context, inventory: seq<Entry>, built: seq<Chunk>, rest: nat, s: Store,
                               read: seq<Chunk>)
    requires WellBuilt(c, built) && Entries(built) == inventory
    requires Holds(s.chunks, MakeManifest(c, inventory, built, rest), read)
    ensures read == built && Entries(read) == inventory
  {
    var m := MakeManifest(c, inventory, built, rest);
    assert read[..|built|] == read && built[..|built|] == built;
    ChainDeterminesChunks(c, s.chunks, m, built, read, |built|);
  }

  // ----- sealing -----

  predicate Matches(s: Store, c: Context) {
    && s.freeze.Some? && s.freeze.value.owner == c.owner && s.freeze.value.revision == c.revision
    && s.freeze.value.target == c.target && s.freeze.value.scanStartedAt == c.scanStartedAt
  }

  function Progress(s: Store): nat {
    if s.freeze.Some? && s.freeze.value.phase.Sealing? then s.freeze.value.phase.next else 0
  }

  function WithPhase(s: Store, phase: Phase): Store
    requires s.freeze.Some?
  {
    s.(freeze := Some(s.freeze.value.(phase := phase)))
  }

  /** One chunk's transaction; None refuses. */
  function SealChunkTx(s: Store, c: Context, chunk: Chunk, index: nat): Option<Store> {
    var key := ChunkKey(chunk.space, index);
    var changed := key in s.chunks && s.chunks[key] != chunk;
    if !Matches(s, c) then None
    else if s.freeze.value.phase.Sealed? then (if key !in s.chunks || changed then None else Some(s))
    else if s.freeze.value.phase.Superseded? || changed then None
    else if index < Progress(s) then (if key !in s.chunks then None else Some(s))
    else if index != Progress(s) then None
    else Some(WithPhase(s, Sealing(index + 1)).(chunks := s.chunks[key := chunk]))
  }

  function FinishTx(s: Store, c: Context, m: Manifest, count: nat): Option<Store> {
    if !Matches(s, c) then None
    else if s.freeze.value.phase.Sealed? then (if s.freeze.value.phase.manifest != m then None else Some(s))
    else if (count == 0 && s.freeze.value.phase.Frozen?) || s.freeze.value.phase == Sealing(count)
    then Some(WithPhase(s, Sealed(m)))
    else None
  }

  /** Take or rejoin the freeze; a superseded migration gives way to another revision. */
  function BeginFreezeTx(s: Store, owner: Text, revision: Text, target: Text, scanStartedAt: nat): Option<Store> {
    var frozen := Freeze(owner, revision, target, scanStartedAt, Frozen);
    if s.freeze.None? then Some(s.(freeze := Some(frozen)))
    else
      var f := s.freeze.value;
      if f.phase.Superseded? && f.owner == owner && f.target == target && f.revision != revision
      then Some(s.(freeze := Some(frozen)))
      else if f.owner != owner || f.revision != revision || f.target != target || f.phase.Superseded? then None
      else Some(s)
  }

  /** What a sealing process checks of its own manifest before it starts. */
  predicate ValidSeal(m: Manifest, chunks: seq<Chunk>) {
    && m.seed == Seed(m.context) && m.space == NamespaceOf(m.context)
    && m.chunkCount == |chunks| && m.entryCount == |Entries(chunks)|
  }

  /** A sealing process: its inventory and how many chunks it has stored. */
  datatype Sealer = Sealer(manifest: Manifest, chunks: seq<Chunk>, at: nat)

  datatype System = System(store: Store, sealers: map<nat, Sealer>)

  datatype Step =
    | BeginFreeze(owner: Text, revision: Text, target: Text, scanStartedAt: nat)
    | StartSeal(w: nat, manifest: Manifest, chunks: seq<Chunk>)
    | SealNext(w: nat)
    | FinishSeal(w: nat)
    | Crash(w: nat)
    | Supersede

  function Next(sys: System, step: Step): System {
    var s := sys.store;
    match step
    case BeginFreeze(owner, revision, target, scanStartedAt) =>
      var t := BeginFreezeTx(s, owner, revision, target, scanStartedAt);
      if t.None? then sys else sys.(store := t.value)
    case StartSeal(w, manifest, chunks) =>
      if !ValidSeal(manifest, chunks) then sys
      else sys.(sealers := sys.sealers[w := Sealer(manifest, chunks, 0)])
    case SealNext(w) =>
      if w !in sys.sealers || sys.sealers[w].at >= |sys.sealers[w].chunks| then sys
      else
        var me := sys.sealers[w];
        var chunk, c := me.chunks[me.at], me.manifest.context;
        if !ValidChunk(c, chunk, me.at, HeadDigest(c, me.chunks[..me.at])) then sys
        else
          var t := SealChunkTx(s, c, chunk, me.at);
          if t.None? then sys else System(t.value, sys.sealers[w := me.(at := me.at + 1)])
    case FinishSeal(w) =>
      if w !in sys.sealers || sys.sealers[w].at != |sys.sealers[w].chunks|
         || HeadDigest(sys.sealers[w].manifest.context, sys.sealers[w].chunks) != sys.sealers[w].manifest.last
      then sys
      else
        var me := sys.sealers[w];
        var t := FinishTx(s, me.manifest.context, me.manifest, |me.chunks|);
        if t.None? then sys else sys.(store := t.value)
    case Crash(w) => sys.(sealers := sys.sealers - {w})
    case Supersede =>
      if s.freeze.Some? && s.freeze.value.phase.Sealed? then sys.(store := WithPhase(s, Superseded)) else sys
  }

  function Run(sys: System, steps: seq<Step>): System
    decreases steps
  {
    if steps == [] then sys else Run(Next(sys, steps[0]), steps[1..])
  }

  /** A sealer has seen every chunk behind it stored as its own. */
  ghost predicate SealerInv(s: Store, me: Sealer) {
    && ValidSeal(me.manifest, me.chunks) && me.at <= |me.chunks|
    && Reads(s.chunks, me.manifest, me.chunks[..me.at], me.at)
  }

  ghost predicate StoreInv(s: Store) {
    s.freeze.Some? && s.freeze.value.phase.Sealed? ==>
      exists read: seq<Chunk> :: Readable(s, s.freeze.value.owner, s.freeze.value.revision, s.freeze.value.target, read)
  }

  ghost predicate Inv(sys: System) {
    && StoreInv(sys.store)
    && forall w :: w in sys.sealers ==> SealerInv(sys.store, sys.sealers[w])
  }

  /** Stored chunks are never changed or removed. */
  lemma ChunksPersist(sys: System, step: Step)
    ensures forall key :: key in sys.store.chunks ==>
      key in Next(sys, step).store.chunks && Next(sys, step).store.chunks[key] == sys.store.chunks[key]
  {
  }

  lemma ReadsPersist(s: Store, t: Store, m: Manifest, read: seq<Chunk>, n: nat)
    requires Reads(s.chunks, m, read, n)
    requires forall key :: key in s.chunks ==> key in t.chunks && t.chunks[key] == s.chunks[key]
    ensures Reads(t.chunks, m, read, n)
  {
  }

  lemma SealersKeepInv(sys: System, step: Step, w: nat)
    requires Inv(sys) && w in Next(sys, step).sealers
    ensures SealerInv(Next(sys, step).store, Next(sys, step).sealers[w])
  {
    var next := Next(sys, step);
    ChunksPersist(sys, step);
    if w in sys.sealers && next.sealers[w] == sys.sealers[w] {
      var me := sys.sealers[w];
      ReadsPersist(sys.store, next.store, me.manifest, me.chunks[..me.at], me.at);
    } else if step.SealNext? {
      assert w == step.w;
      SealNextStores(sys, w, next);
      SealerReadsOn(sys.store, next.store, sys.sealers[w]);
    }
  }

  lemma SealNextStores(sys: System, w: nat, next: System)
    requires next == Next(sys, SealNext(w)) && w in sys.sealers && w in next.sealers
    requires next.sealers[w] != sys.sealers[w]
    requires ValidSeal(sys.sealers[w].manifest, sys.sealers[w].chunks)
    ensures var me := sys.sealers[w];
      && me.at < |me.chunks| && next.sealers[w] == me.(at := me.at + 1)
      && ValidChunk(me.manifest.context, me.chunks[me.at], me.at, HeadDigest(me.manifest.context, me.chunks[..me.at]))
      && Lookup(next.store.chunks, ChunkKey(me.manifest.space, me.at)) == Some(me.chunks[me.at])
  {
  }

  lemma SealerReadsOn(s: Store, t: Store, me: Sealer)
    requires SealerInv(s, me) && me.at < |me.chunks|
    requires forall key :: key in s.chunks ==> key in t.chunks && t.chunks[key] == s.chunks[key]
    requires Lookup(t.chunks, ChunkKey(me.manifest.space, me.at)) == Some(me.chunks[me.at])
    requires ValidChunk(me.manifest.context, me.chunks[me.at], me.at,
                        HeadDigest(me.manifest.context, me.chunks[..me.at]))
    ensures SealerInv(t, me.(at := me.at + 1))
  {
    ReadsPersist(s, t, me.manifest, me.chunks[..me.at], me.at);
    ReadsOneMore(t.chunks, me.manifest, me.chunks[..me.at], me.at);
    assert me.chunks[..me.at + 1] == me.chunks[..me.at] + [me.chunks[me.at]];
  }

  lemma StoreKeepsInv(sys: System, step: Step)
    requires Inv(sys)
    ensures StoreInv(Next(sys, step).store)
  {
    var s, t := sys.store, Next(sys, step).store;
    if t.freeze.Some? && t.freeze.value.phase.Sealed? {
      if step.FinishSeal? && t != s {
        var me := sys.sealers[step.w];
        assert me.chunks[..me.at] == me.chunks;
        assert Readable(t, t.freeze.value.owner, t.freeze.value.revision, t.freeze.value.target, me.chunks);
      } else {
        ChunksPersist(sys, step);
        var read :| Readable(s, s.freeze.value.owner, s.freeze.value.revision, s.freeze.value.target, read);
        ReadsPersist(s, t, s.freeze.value.phase.manifest, read, s.freeze.value.phase.manifest.chunkCount);
        assert Readable(t, t.freeze.value.owner, t.freeze.value.revision, t.freeze.value.target, read);
      }
    }
  }

  lemma {:induction false} RunKeepsInv(sys: System, steps: seq<Step>)
    requires Inv(sys)
    ensures Inv(Run(sys, steps))
    decreases |steps|
  {
    if steps != [] {
      StoreKeepsInv(sys, steps[0]);
      forall w | w in Next(sys, steps[0]).sealers
        ensures SealerInv(Next(sys, steps[0]).store, Next(sys, steps[0]).sealers[w])
      {
        SealersKeepInv(sys, steps[0], w);
      }
      RunKeepsInv(Next(sys, steps[0]), steps[1..]);
    }
  }

  /** Over any run of competing and crashing sealers, a store sealed with the manifest of an inventory
      can be read, and only as that inventory. */
  lemma SealRoundTrip(steps: seq<Step>, c: Context, inventory: seq<Entry>, built: seq<Chunk>, rest: nat)
    requires WellBuilt(c, built) && Entries(built) == inventory
    requires var s := Run(System(Store(None, map[]), map[]), steps).store;
      s.freeze.Some? && s.freeze.value.phase == Sealed(MakeManifest(c, inventory, built, rest))
    ensures var s := Run(System(Store(None, map[]), map[]), steps).store;
      && Readable(s, c.owner, c.revision, c.target, built)
      && forall read: seq<Chunk> :: Readable(s, c.owner, c.revision, c.target, read) ==> Entries(read) == inventory
  {
    var empty := System(Store(None, map[]), map[]);
    RunKeepsInv(empty, steps);
    var s := Run(empty, steps).store;
    forall read: seq<Chunk> | Readable(s, c.owner, c.revision, c.target, read)
      ensures read == built && Entries(read) == inventory
    {
      ReadBackIsTheInventory(c, inventory, built, rest, s, read);
    }
  }

  // ----- interrupted and retried -----

  /** What any number of interrupted sealings of one inventory leave behind. */
  ghost predicate PartlySealed(s: Store, m: Manifest, chunks: seq<Chunk>) {
    && Matches(s, m.context)
    && (s.freeze.value.phase.Frozen? || s.freeze.value.phase.Sealing? || s.freeze.value.phase == Sealed(m))
    && (s.freeze.value.phase.Sealing? ==> s.freeze.value.phase.next <= |chunks|)
    && var stored := if s.freeze.value.phase.Sealed? then |chunks| else Progress(s);
    && (forall k: nat :: k < stored ==> Lookup(s.chunks, ChunkKey(m.space, k)) == Some(chunks[k]))
    && (forall k: nat :: stored <= k < |chunks| ==> ChunkKey(m.space, k) !in s.chunks)
  }

  /** A chunk transaction of the same inventory, at any index and by any process, keeps it so; and it is
      refused only if the chunk is ahead of the progress. */
  lemma SealChunkKeepsPartly(s: Store, m: Manifest, chunks: seq<Chunk>, k: nat)
    requires PartlySealed(s, m, chunks) && k < |chunks| && chunks[k].space == m.space
    ensures var t := SealChunkTx(s, m.context, chunks[k], k);
      && (t.None? <==> !s.freeze.value.phase.Sealed? && k > Progress(s))
      && (t.Some? ==> PartlySealed(t.value, m, chunks) && (t.value.freeze.value.phase.Sealed? || Progress(t.value) > k))
  {
  }

  class SealStore {
    var freeze: Option<Freeze>
    var chunks: map<ChunkKey, Chunk>

    function View(): Store
      reads this
    {
      Store(freeze, chunks)
    }

    method SealChunk(c: Context, chunk: Chunk, index: nat) returns (ok: bool)
      modifies this
      ensures var want := SealChunkTx(old(View()), c, chunk, index);
        ok == want.Some? && View() == (if want.Some? then want.value else old(View()))
    {
      if freeze.None? { return false; }
      var f := freeze.value;
      if f.owner != c.owner || f.revision != c.revision || f.target != c.target || f.scanStartedAt != c.scanStartedAt {
        return false;
      }
      var key := ChunkKey(chunk.space, index);
      if f.phase.Sealed? { return key in chunks && chunks[key] == chunk; }
      if f.phase.Superseded? { return false; }
      var progress := if f.phase.Sealing? then f.phase.next else 0;
      if key in chunks && chunks[key] != chunk { return false; }
      if index < progress { return key in chunks; }
      if index != progress { return false; }
      chunks := chunks[key := chunk];
      freeze := Some(f.(phase := Sealing(index + 1)));
      return true;
    }

    /** The sealing driver: started over after any interruption, it ends sealed with the same chain. */
    method SealFreeze(m: Manifest, parts: seq<Chunk>) returns (ok: bool)
      requires PartlySealed(View(), m, parts)
      requires WellBuilt(m.context, parts) && ValidSeal(m, parts) && HeadDigest(m.context, parts) == m.last
      requires forall k: nat :: k < |parts| ==> Overhead(m.context, k) <= ENTRY_ALLOWANCE
      modifies this
      ensures ok && PartlySealed(View(), m, parts)
      ensures freeze.value.phase == Sealed(m) && Holds(chunks, m, parts)
    {
      var index := 0;
      while index < |parts|
        invariant 0 <= index <= |parts| && PartlySealed(View(), m, parts)
        invariant freeze.value.phase.Sealed? || index == 0 || Progress(View()) >= index
      {
        WellBuiltIsValid(m.context, parts, index);
        if !ValidChunk(m.context, parts[index], index, HeadDigest(m.context, parts[..index])) { return false; }
        SealChunkKeepsPartly(View(), m, parts, index);
        var stored := SealChunk(m.context, parts[index], index);
        if !stored { return false; }
        index := index + 1;
      }
      ok := FinishSeal(m.context, m, |parts|);
      AllStored(View(), m, parts);
    }

    method FinishSeal(c: Context, m: Manifest, count: nat) returns (ok: bool)
      modifies this`freeze
      ensures var want := FinishTx(old(View()), c, m, count);
        ok == want.Some? && View() == (if want.Some? then want.value else old(View()))
    {
      if freeze.None? { return false; }
      var f := freeze.value;
      if f.owner != c.owner || f.revision != c.revision || f.target != c.target || f.scanStartedAt != c.scanStartedAt {
        return false;
      }
      if f.phase.Sealed? { return f.phase.manifest == m; }
      if !(count == 0 && f.phase.Frozen?) && f.phase != Sealing(count) { return false; }
      freeze := Some(f.(phase := Sealed(m)));
      return true;
    }

    /** Reads the chain chunk by chunk and accepts it only as a whole. */
    method ReadSealed(owner: Text, revision: Text, target: Text) returns (r: Option<seq<Entry>>)
      ensures r.Some? ==>
        exists read: seq<Chunk> :: Readable(View(), owner, revision, target, read) && Entries(read) == r.value
      ensures r.None? ==> forall read: seq<Chunk> :: !Readable(View(), owner, revision, target, read)
    {
      if freeze.None? { return None; }
      var state := freeze.value;
      if !state.phase.Sealed? || state.owner != owner || state.revision != revision || state.target != target {
        return None;
      }
      var m := state.phase.manifest;
      if !ValidRoot(m, owner, revision, target) { return None; }
      var entries: seq<Entry>, previous: Digest := [], m.seed;
      ghost var read: seq<Chunk> := [];
      var index := 0;
      while index < m.chunkCount
        invariant 0 <= index <= m.chunkCount && |read| == index
        invariant Reads(chunks, m, read, index) && entries == Entries(read) && previous == HeadDigest(m.context, read)
      {
        var key := ChunkKey(m.space, index);
        if key !in chunks || !ValidChunk(m.context, chunks[key], index, previous) {
          NotReadable(chunks, m, read, index);
          return None;
        }
        assert (read + [chunks[key]])[..index] == read;
        ReadsOneMore(chunks, m, read, index);
        read := read + [chunks[key]];
        entries := entries + chunks[key].entries;
        previous := chunks[key].digest;
        index := index + 1;
      }
      if |entries| != m.entryCount || previous != m.last {
        ReadsAreUnique(chunks, m, read);
        return None;
      }
      assert Readable(View(), owner, revision, target, read);
      return Some(entries);
    }
  }

  lemma AllStored(s: Store, m: Manifest, parts: seq<Chunk>)
    requires PartlySealed(s, m, parts) && s.freeze.value.phase.Sealed?
    requires WellBuilt(m.context, parts) && ValidSeal(m, parts) && HeadDigest(m.context, parts) == m.last
    requires forall k: nat :: k < |parts| ==> Overhead(m.context, k) <= ENTRY_ALLOWANCE
    ensures Holds(s.chunks, m, parts)
  {
    forall k: nat | k < |parts|
      ensures ChunkKey(m.space, k) in s.chunks && s.chunks[ChunkKey(m.space, k)] == parts[k]
           && ValidChunk(m.context, parts[k], k, HeadDigest(m.context, parts[..k]))
    {
      assert Lookup(s.chunks, ChunkKey(m.space, k)) == Some(parts[k]);
      WellBuiltIsValid(m.context, parts, k);
    }
  }
}
