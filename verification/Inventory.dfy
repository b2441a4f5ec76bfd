/**
 The paged inventory of the shared decks (functions/src/legacySharedDeckMigration.ts:1211-1292,
 1371-1583): two collections read page by page, merged by share id, and sealed chunk by chunk with
 the cursors a later run may resume from.
 */
module Inventory {
  import opened Prelude

  const MAX_PAGE_DOCUMENTS: nat := 10
  const MAX_SEALED_CHUNK_ENTRIES: nat := 100
  const MAX_PAGES: nat := 10000

  datatype Doc = Doc(id: nat, data: nat)

  /** One share id with what each collection holds under it. */
  datatype Record = Record(shareId: nat, publicData: Option<nat>, privateData: Option<nat>)

  ghost predicate Ascending(docs: seq<Doc>) {
    forall i, j :: 0 <= i < j < |docs| ==> docs[i].id < docs[j].id
  }

  /** The documents after a cursor, in id order. */
  function After(docs: seq<Doc>, cursor: Option<nat>): seq<Doc> {
    if docs == [] then []
    else if cursor.Some? && docs[0].id <= cursor.value then After(docs[1..], cursor)
    else docs
  }

  // ----- the full outer join -----

  function Join(a: seq<Doc>, b: seq<Doc>): seq<Record>
    decreases |a| + |b|
  {
    if a == [] && b == [] then []
    else if b == [] || (a != [] && a[0].id < b[0].id) then [OnlyPublic(a[0])] + Join(a[1..], b)
    else if a == [] || b[0].id < a[0].id then [OnlyPrivate(b[0])] + Join(a, b[1..])
    else [Both(a[0], b[0])] + Join(a[1..], b[1..])
  }

  function OnlyPublic(d: Doc): Record { Record(d.id, Some(d.data), None) }

  function OnlyPrivate(d: Doc): Record { Record(d.id, None, Some(d.data)) }

  function Both(d: Doc, e: Doc): Record { Record(d.id, Some(d.data), Some(e.data)) }

  function Find(docs: seq<Doc>, id: nat): Option<nat> {
    if docs == [] then None else if docs[0].id == id then Some(docs[0].data) else Find(docs[1..], id)
  }

  ghost predicate EachOnce(records: seq<Record>) {
    forall i, j :: 0 <= i < j < |records| ==> records[i].shareId < records[j].shareId
  }

  ghost predicate EachFound(records: seq<Record>, a: seq<Doc>, b: seq<Doc>) {
    forall i :: 0 <= i < |records| ==> FoundIn(records[i], a, b)
  }

  predicate FoundIn(r: Record, a: seq<Doc>, b: seq<Doc>) {
    && r.publicData == Find(a, r.shareId) && r.privateData == Find(b, r.shareId)
    && (r.publicData.Some? || r.privateData.Some?)
  }

  predicate Listed(records: seq<Record>, id: nat) {
    exists i :: 0 <= i < |records| && records[i].shareId == id
  }

  ghost predicate NoneMissing(records: seq<Record>, a: seq<Doc>, b: seq<Doc>) {
    forall id :: Find(a, id).Some? || Find(b, id).Some? ==> Listed(records, id)
  }

  ghost predicate IsOuterJoin(records: seq<Record>, a: seq<Doc>, b: seq<Doc>) {
    EachOnce(records) && EachFound(records, a, b) && NoneMissing(records, a, b)
  }

  lemma FindBelow(docs: seq<Doc>, id: nat)
    requires Ascending(docs) && (docs == [] || id < docs[0].id)
    ensures Find(docs, id) == None
  {
    if docs != [] {
      assert docs[1..] == [] || id < docs[1..][0].id;
      FindBelow(docs[1..], id);
    }
  }

  lemma TailAscending(docs: seq<Doc>)
    requires Ascending(docs) && docs != []
    ensures Ascending(docs[1..])
  {
  }

  /** Merging gives exactly the full outer join: strictly ascending, each id once, nothing missing. */
  lemma {:induction false} JoinIsOuterJoin(a: seq<Doc>, b: seq<Doc>)
    requires Ascending(a) && Ascending(b)
    ensures IsOuterJoin(Join(a, b), a, b)
    ensures forall i :: 0 <= i < |Join(a, b)| ==>
      (a != [] && a[0].id <= Join(a, b)[i].shareId) || (b != [] && b[0].id <= Join(a, b)[i].shareId)
    decreases |a| + |b|
  {
    if a != [] { TailAscending(a); }
    if b != [] { TailAscending(b); }
    if a == [] && b == [] {
    } else if b == [] || (a != [] && a[0].id < b[0].id) {
      JoinIsOuterJoin(a[1..], b);
      FindBelow(b, a[0].id);
      Prepended(OnlyPublic(a[0]), Join(a[1..], b), a, b, a[1..], b);
    } else if a == [] || b[0].id < a[0].id {
      JoinIsOuterJoin(a, b[1..]);
      FindBelow(a, b[0].id);
      Prepended(OnlyPrivate(b[0]), Join(a, b[1..]), a, b, a, b[1..]);
    } else {
      JoinIsOuterJoin(a[1..], b[1..]);
      Prepended(Both(a[0], b[0]), Join(a[1..], b[1..]), a, b, a[1..], b[1..]);
    }
  }

  /** Joins that differ only at one share id. */
  ghost predicate AgreeBeyond(id: nat, a: seq<Doc>, b: seq<Doc>, a': seq<Doc>, b': seq<Doc>) {
    forall k :: k != id ==> Find(a, k) == Find(a', k) && Find(b, k) == Find(b', k)
  }

  lemma Prepended(r: Record, rest: seq<Record>, a: seq<Doc>, b: seq<Doc>, a': seq<Doc>, b': seq<Doc>)
    requires IsOuterJoin(rest, a', b') && FoundIn(r, a, b)
    requires forall i :: 0 <= i < |rest| ==> r.shareId < rest[i].shareId
    requires AgreeBeyond(r.shareId, a, b, a', b')
    ensures IsOuterJoin([r] + rest, a, b)
  {
    PrependedFound(r, rest, a, b, a', b');
    PrependedComplete(r, rest, a, b, a', b');
  }

  lemma PrependedFound(r: Record, rest: seq<Record>, a: seq<Doc>, b: seq<Doc>, a': seq<Doc>, b': seq<Doc>)
    requires EachFound(rest, a', b') && FoundIn(r, a, b) && AgreeBeyond(r.shareId, a, b, a', b')
    requires forall i :: 0 <= i < |rest| ==> r.shareId < rest[i].shareId
    ensures EachFound([r] + rest, a, b)
  {
    forall i | 0 <= i < |rest| ensures FoundIn(rest[i], a, b) {
      assert FoundIn(rest[i], a', b');
    }
  }

  lemma PrependedComplete(r: Record, rest: seq<Record>, a: seq<Doc>, b: seq<Doc>, a': seq<Doc>, b': seq<Doc>)
    requires NoneMissing(rest, a', b') && AgreeBeyond(r.shareId, a, b, a', b')
    ensures NoneMissing([r] + rest, a, b)
  {
    forall id | Find(a, id).Some? || Find(b, id).Some? ensures Listed([r] + rest, id) {
      if id == r.shareId {
        assert ([r] + rest)[0].shareId == id;
      } else {
        assert Listed(rest, id);
        var i :| 0 <= i < |rest| && rest[i].shareId == id;
        assert ([r] + rest)[i + 1] == rest[i];
      }
    }
  }

  // ----- draining the buffers -----

  /** What draining emits, and what it leaves in the two buffers. */
  datatype Drain = Drain(records: seq<Record>, a: seq<Doc>, b: seq<Doc>)

  function Emit(r: Record, rest: Drain): Drain {
    Drain([r] + rest.records, rest.a, rest.b)
  }

  /** A lone head waits until the other stream is known to be over. */
  function Drained(a: seq<Doc>, b: seq<Doc>, aOver: bool, bOver: bool): Drain
    decreases |a| + |b|
  {
    if a == [] && b == [] then Drain([], a, b)
    else if a != [] && b != [] then
      if a[0].id == b[0].id then Emit(Both(a[0], b[0]), Drained(a[1..], b[1..], aOver, bOver))
      else if a[0].id < b[0].id then Emit(OnlyPublic(a[0]), Drained(a[1..], b, aOver, bOver))
      else Emit(OnlyPrivate(b[0]), Drained(a, b[1..], aOver, bOver))
    else if a != [] then
      if bOver then Emit(OnlyPublic(a[0]), Drained(a[1..], b, aOver, bOver)) else Drain([], a, b)
    else
      if aOver then Emit(OnlyPrivate(b[0]), Drained(a, b[1..], aOver, bOver)) else Drain([], a, b)
  }

  ghost predicate EmittedSoFar(whole: Drain, records: seq<Record>, rest: Drain) {
    whole == Drain(records + rest.records, rest.a, rest.b)
  }

  lemma EmitNext(whole: Drain, records: seq<Record>, r: Record, rest: Drain)
    requires EmittedSoFar(whole, records, Emit(r, rest))
    ensures EmittedSoFar(whole, records + [r], rest)
  {
    assert records + ([r] + rest.records) == (records + [r]) + rest.records;
  }

  method DrainMergeBuffers(publicBuffer: seq<Doc>, privateBuffer: seq<Doc>, publicOver: bool, privateOver: bool)
    returns (records: seq<Record>, a: seq<Doc>, b: seq<Doc>)
    ensures Drain(records, a, b) == Drained(publicBuffer, privateBuffer, publicOver, privateOver)
  {
    a, b, records := publicBuffer, privateBuffer, [];
    ghost var whole := Drained(a, b, publicOver, privateOver);
    assert [] + whole.records == whole.records;
    while a != [] || b != []
      invariant EmittedSoFar(whole, records, Drained(a, b, publicOver, privateOver))
      decreases |a| + |b|
    {
      var record;
      if a != [] && b != [] && a[0].id == b[0].id {
        record := Both(a[0], b[0]);
        EmitNext(whole, records, record, Drained(a[1..], b[1..], publicOver, privateOver));
        a, b := a[1..], b[1..];
      } else if a != [] && (if b != [] then a[0].id < b[0].id else privateOver) {
        record := OnlyPublic(a[0]);
        EmitNext(whole, records, record, Drained(a[1..], b, publicOver, privateOver));
        a := a[1..];
      } else if b != [] && (if a != [] then b[0].id < a[0].id else publicOver) {
        record := OnlyPrivate(b[0]);
        EmitNext(whole, records, record, Drained(a, b[1..], publicOver, privateOver));
        b := b[1..];
      } else {
        break;
      }
      records := records + [record];
    }
  }

  /** Draining takes a prefix of each buffer. */
  lemma {:induction false} DrainTakesPrefixes(a: seq<Doc>, b: seq<Doc>, aOver: bool, bOver: bool)
    ensures var d := Drained(a, b, aOver, bOver);
      && |d.a| <= |a| && |d.b| <= |b| && d.a == a[|a| - |d.a|..] && d.b == b[|b| - |d.b|..]
      && |d.records| <= (|a| - |d.a|) + (|b| - |d.b|)
    decreases |a| + |b|
  {
    if a != [] && b != [] && a[0].id == b[0].id {
      DrainTakesPrefixes(a[1..], b[1..], aOver, bOver);
    } else if a != [] && (if b != [] then a[0].id < b[0].id else bOver) {
      DrainTakesPrefixes(a[1..], b, aOver, bOver);
    } else if b != [] && (if a != [] then b[0].id < a[0].id else aOver) {
      DrainTakesPrefixes(a, b[1..], aOver, bOver);
    }
  }

  lemma ConsAppend(a: seq<Doc>, x: seq<Doc>)
    requires a != []
    ensures a + x != [] && (a + x)[0] == a[0] && (a + x)[1..] == a[1..] + x
  {
  }

  lemma EmitFront(whole: seq<Record>, r: Record, rest: Drain, tail: seq<Record>)
    requires whole == [r] + (rest.records + tail)
    ensures whole == Emit(r, rest).records + tail
  {
  }

  /** Draining is the front of the join, whatever is still to be read behind the buffers. */
  lemma {:induction false} DrainIsFrontOfJoin(a: seq<Doc>, b: seq<Doc>, x: seq<Doc>, y: seq<Doc>, aOver: bool,
                                              bOver: bool)
    requires aOver ==> x == []
    requires bOver ==> y == []
    ensures var d := Drained(a, b, aOver, bOver);
      Join(a + x, b + y) == d.records + Join(d.a + x, d.b + y)
    decreases |a| + |b|
  {
    if a != [] { ConsAppend(a, x); }
    if b != [] { ConsAppend(b, y); }
    if a != [] && b != [] && a[0].id == b[0].id {
      var rest := Drained(a[1..], b[1..], aOver, bOver);
      DrainIsFrontOfJoin(a[1..], b[1..], x, y, aOver, bOver);
      EmitFront(Join(a + x, b + y), Both(a[0], b[0]), rest, Join(rest.a + x, rest.b + y));
    } else if a != [] && (if b != [] then a[0].id < b[0].id else bOver) {
      var rest := Drained(a[1..], b, aOver, bOver);
      DrainIsFrontOfJoin(a[1..], b, x, y, aOver, bOver);
      EmitFront(Join(a + x, b + y), OnlyPublic(a[0]), rest, Join(rest.a + x, rest.b + y));
    } else if b != [] && (if a != [] then b[0].id < a[0].id else aOver) {
      var rest := Drained(a, b[1..], aOver, bOver);
      DrainIsFrontOfJoin(a, b[1..], x, y, aOver, bOver);
      EmitFront(Join(a + x, b + y), OnlyPrivate(b[0]), rest, Join(rest.a + x, rest.b + y));
    } else {
      assert Drained(a, b, aOver, bOver) == Drain([], a, b);
    }
  }

  /** Draining stops only for want of documents: a non-empty buffer is kept only if the other one is
      empty and its stream goes on. */
  lemma {:induction false} DrainStops(a: seq<Doc>, b: seq<Doc>, aOver: bool, bOver: bool)
    ensures var d := Drained(a, b, aOver, bOver);
      && (d.a != [] ==> d.b == [] && !bOver)
      && (d.b != [] ==> d.a == [] && !aOver)
    decreases |a| + |b|
  {
    if a != [] && b != [] && a[0].id == b[0].id {
      DrainStops(a[1..], b[1..], aOver, bOver);
    } else if a != [] && (if b != [] then a[0].id < b[0].id else bOver) {
      DrainStops(a[1..], b, aOver, bOver);
    } else if b != [] && (if a != [] then b[0].id < a[0].id else aOver) {
      DrainStops(a, b[1..], aOver, bOver);
    }
  }

  /** Two buffers that are filled or over, not both empty, yield a record. */
  lemma DrainEmits(a: seq<Doc>, b: seq<Doc>, aOver: bool, bOver: bool)
    requires (a != [] || aOver) && (b != [] || bOver) && (a != [] || b != [])
    ensures Drained(a, b, aOver, bOver).records != []
  {
  }

  lemma DrainOfNothing(a: seq<Doc>, b: seq<Doc>, aOver: bool, bOver: bool)
    requires Drained(a, b, aOver, bOver).records == []
    ensures Drained(a, b, aOver, bOver) == Drain([], a, b)
  {
  }

  // ----- cursors -----

  lemma {:induction false} AfterIsSuffix(docs: seq<Doc>, cursor: Option<nat>)
    ensures |After(docs, cursor)| <= |docs| && After(docs, cursor) == docs[|docs| - |After(docs, cursor)|..]
  {
    if docs != [] && cursor.Some? && docs[0].id <= cursor.value { AfterIsSuffix(docs[1..], cursor); }
  }

  lemma SuffixOfSuffix(docs: seq<Doc>, m: nat, k: nat)
    requires m + k <= |docs|
    ensures docs[m..][k..] == docs[m + k..]
  {
  }

  /** Moving the cursor over the next k documents leaves the documents behind them. */
  lemma {:induction false} CursorMoves(docs: seq<Doc>, cursor: Option<nat>, k: nat)
    requires Ascending(docs) && 0 < k <= |After(docs, cursor)|
    ensures After(docs, Some(After(docs, cursor)[k - 1].id)) == After(docs, cursor)[k..]
  {
    AfterIsSuffix(docs, cursor);
    var skipped := |docs| - |After(docs, cursor)|;
    assert After(docs, cursor)[k - 1] == docs[skipped + k - 1];
    AfterIndex(docs, skipped + k - 1);
    SuffixOfSuffix(docs, skipped, k);
  }

  lemma {:induction false} AfterIndex(docs: seq<Doc>, i: nat)
    requires Ascending(docs) && i < |docs|
    ensures After(docs, Some(docs[i].id)) == docs[i + 1..]
  {
    if i == 0 {
      if |docs| > 1 { assert docs[1..][0].id > docs[0].id; }
    } else {
      TailAscending(docs);
      AfterIndex(docs[1..], i - 1);
      assert docs[1..][i..] == docs[i + 1..];
    }
  }

  /** The cursor after a list of records: the last one that had a document in the collection. */
  function LastPublic(records: seq<Record>, cursor: Option<nat>): Option<nat> {
    if records == [] then cursor
    else LastPublic(records[1..], if records[0].publicData.Some? then Some(records[0].shareId) else cursor)
  }

  function LastPrivate(records: seq<Record>, cursor: Option<nat>): Option<nat> {
    if records == [] then cursor
    else LastPrivate(records[1..], if records[0].privateData.Some? then Some(records[0].shareId) else cursor)
  }

  method LastCursors(records: seq<Record>, pub: Option<nat>, priv: Option<nat>)
    returns (publicCursor: Option<nat>, privateCursor: Option<nat>)
    ensures publicCursor == LastPublic(records, pub) && privateCursor == LastPrivate(records, priv)
  {
    publicCursor, privateCursor := pub, priv;
    var k := 0;
    while k < |records|
      invariant 0 <= k <= |records|
      invariant LastPublic(records[k..], publicCursor) == LastPublic(records, pub)
      invariant LastPrivate(records[k..], privateCursor) == LastPrivate(records, priv)
    {
      assert records[k..][1..] == records[k + 1..];
      if records[k].publicData.Some? { publicCursor := Some(records[k].shareId); }
      if records[k].privateData.Some? { privateCursor := Some(records[k].shareId); }
      k := k + 1;
    }
  }

  function CursorAfter(buffer: seq<Doc>, taken: nat, cursor: Option<nat>): Option<nat>
    requires taken <= |buffer|
  {
    if taken == 0 then cursor else Some(buffer[taken - 1].id)
  }

  lemma CursorsOfCons(r: Record, rest: seq<Record>, pub: Option<nat>, priv: Option<nat>)
    ensures LastPublic([r] + rest, pub) == LastPublic(rest, if r.publicData.Some? then Some(r.shareId) else pub)
    ensures LastPrivate([r] + rest, priv) == LastPrivate(rest, if r.privateData.Some? then Some(r.shareId) else priv)
  {
    assert ([r] + rest)[1..] == rest;
  }

  lemma CursorAfterCons(buffer: seq<Doc>, taken: nat, cursor: Option<nat>)
    requires buffer != [] && taken <= |buffer| - 1
    ensures CursorAfter(buffer, taken + 1, cursor) == CursorAfter(buffer[1..], taken, Some(buffer[0].id))
  {
  }

  ghost predicate CursorsMove(a: seq<Doc>, b: seq<Doc>, d: Drain, pub: Option<nat>, priv: Option<nat>) {
    && |d.a| <= |a| && |d.b| <= |b|
    && LastPublic(d.records, pub) == CursorAfter(a, |a| - |d.a|, pub)
    && LastPrivate(d.records, priv) == CursorAfter(b, |b| - |d.b|, priv)
  }

  lemma PairMoves(a: seq<Doc>, b: seq<Doc>, rest: Drain, pub: Option<nat>, priv: Option<nat>)
    requires a != [] && b != [] && a[0].id == b[0].id
    requires CursorsMove(a[1..], b[1..], rest, Some(a[0].id), Some(b[0].id))
    ensures CursorsMove(a, b, Drain([Both(a[0], b[0])] + rest.records, rest.a, rest.b), pub, priv)
  {
    CursorsOfCons(Both(a[0], b[0]), rest.records, pub, priv);
    CursorAfterCons(a, |a[1..]| - |rest.a|, pub);
    CursorAfterCons(b, |b[1..]| - |rest.b|, priv);
  }

  lemma PublicMoves(a: seq<Doc>, b: seq<Doc>, rest: Drain, pub: Option<nat>, priv: Option<nat>)
    requires a != [] && CursorsMove(a[1..], b, rest, Some(a[0].id), priv)
    ensures CursorsMove(a, b, Drain([OnlyPublic(a[0])] + rest.records, rest.a, rest.b), pub, priv)
  {
    CursorsOfCons(OnlyPublic(a[0]), rest.records, pub, priv);
    CursorAfterCons(a, |a[1..]| - |rest.a|, pub);
  }

  lemma PrivateMoves(a: seq<Doc>, b: seq<Doc>, rest: Drain, pub: Option<nat>, priv: Option<nat>)
    requires b != [] && CursorsMove(a, b[1..], rest, pub, Some(b[0].id))
    ensures CursorsMove(a, b, Drain([OnlyPrivate(b[0])] + rest.records, rest.a, rest.b), pub, priv)
  {
    CursorsOfCons(OnlyPrivate(b[0]), rest.records, pub, priv);
    CursorAfterCons(b, |b[1..]| - |rest.b|, priv);
  }

  /** The cursors read off the records are those of the last documents drained. */
  lemma {:induction false} DrainMovesCursors(a: seq<Doc>, b: seq<Doc>, aOver: bool, bOver: bool,
                                             pub: Option<nat>, priv: Option<nat>)
    ensures CursorsMove(a, b, Drained(a, b, aOver, bOver), pub, priv)
    decreases |a| + |b|
  {
    if a != [] && b != [] && a[0].id == b[0].id {
      DrainMovesCursors(a[1..], b[1..], aOver, bOver, Some(a[0].id), Some(b[0].id));
      PairMoves(a, b, Drained(a[1..], b[1..], aOver, bOver), pub, priv);
    } else if a != [] && (if b != [] then a[0].id < b[0].id else bOver) {
      DrainMovesCursors(a[1..], b, aOver, bOver, Some(a[0].id), priv);
      PublicMoves(a, b, Drained(a[1..], b, aOver, bOver), pub, priv);
    } else if b != [] && (if a != [] then b[0].id < a[0].id else aOver) {
      DrainMovesCursors(a, b[1..], aOver, bOver, pub, Some(b[0].id));
      PrivateMoves(a, b, Drained(a, b[1..], aOver, bOver), pub, priv);
    }
  }

  // ----- the inventory loop -----

  /** One collection as the loop reads it: merged up to `cursor`, read up to `readCursor`. */
  datatype Stream = Stream(cursor: Option<nat>, readCursor: Option<nat>, over: bool, buffer: seq<Doc>)

  ghost predicate StreamOk(docs: seq<Doc>, st: Stream) {
    && st.buffer + After(docs, st.readCursor) == After(docs, st.cursor)
    && (st.over ==> After(docs, st.readCursor) == [])
    && |st.buffer| <= MAX_PAGE_DOCUMENTS
  }

  datatype Checkpoint = Checkpoint(
    publicCursor: Option<nat>, privateCursor: Option<nat>, publicTerminal: bool, privateTerminal: bool)

  datatype Chunk = Chunk(entries: seq<Record>, at: Checkpoint)

  datatype InventoryError = PageOutOfOrder | PageRepeated | PageBudget | Stalled | ChunkTooLarge

  /** How a store cuts its collection into pages: the size of a page, and whether a page that happens
      to reach the end says so. */
  datatype Cut = Cut(size: nat, saysOver: bool)

  /** One page after the cursor; it says the stream is over only if it is. */
  method ReadPage(docs: seq<Doc>, after: Option<nat>, cut: Cut)
    returns (page: seq<Doc>, cursor: Option<nat>, over: bool)
    requires Ascending(docs)
    ensures page + After(docs, cursor) == After(docs, after)
    ensures |page| <= MAX_PAGE_DOCUMENTS
    ensures over ==> After(docs, cursor) == []
    ensures !over ==> page != [] && cursor != after
  {
    var rest := After(docs, after);
    var k := Min(|rest|, Min(MAX_PAGE_DOCUMENTS, Max(1, cut.size)));
    page := rest[..k];
    over := k == |rest| && (k == 0 || cut.saysOver);
    cursor := if k == 0 then after else Some(rest[k - 1].id);
    if k > 0 {
      CursorMoves(docs, after, k);
      NothingBefore(docs, after);
    }
    assert page + rest[k..] == rest;
  }

  lemma {:induction false} NothingBefore(docs: seq<Doc>, cursor: Option<nat>)
    requires Ascending(docs)
    ensures forall d :: d in After(docs, cursor) && cursor.Some? ==> cursor.value < d.id
  {
    if docs != [] {
      TailAscending(docs);
      NothingBefore(docs[1..], cursor);
    }
  }

  /** Refuse a page that is not in order behind the buffer. */
  method InOrder(buffer: seq<Doc>, page: seq<Doc>) returns (ok: bool)
    ensures Ascending(buffer + page) ==> ok
  {
    var k := 1;
    while k < |page|
      invariant 1 <= k
    {
      if page[k - 1].id >= page[k].id {
        assert (buffer + page)[|buffer| + k - 1] == page[k - 1] && (buffer + page)[|buffer| + k] == page[k];
        return false;
      }
      k := k + 1;
    }
    if buffer != [] && page != [] && buffer[|buffer| - 1].id >= page[0].id {
      assert (buffer + page)[|buffer| - 1] == buffer[|buffer| - 1] && (buffer + page)[|buffer|] == page[0];
      return false;
    }
    return true;
  }

  /** Fetch the next page of a stream whose buffer is empty. */
  method Fetch(docs: seq<Doc>, st: Stream, cut: Cut) returns (r: Result<Stream, InventoryError>)
    requires Ascending(docs) && StreamOk(docs, st) && st.buffer == [] && !st.over
    ensures r.Ok? && StreamOk(docs, r.value) && r.value.cursor == st.cursor
    ensures Unread(docs, r.value) < Unread(docs, st)
    ensures r.value.over || r.value.buffer != []
  {
    var page, cursor, over := ReadPage(docs, st.readCursor, cut);
    if !over && cursor == st.readCursor { return Err(PageRepeated); }
    var ordered := InOrder(st.buffer, page);
    PageAscending(docs, st.readCursor, page, cursor);
    assert [] + page == page;
    if !ordered { return Err(PageOutOfOrder); }
    return Ok(Stream(st.cursor, cursor, over, st.buffer + page));
  }

  lemma PageAscending(docs: seq<Doc>, after: Option<nat>, page: seq<Doc>, cursor: Option<nat>)
    requires Ascending(docs) && page + After(docs, cursor) == After(docs, after)
    ensures Ascending(page)
  {
    AfterIsSuffix(docs, after);
    var skipped := |docs| - |After(docs, after)|;
    forall i | 0 <= i < |page| ensures page[i] == docs[skipped + i] {
      assert page[i] == After(docs, after)[i];
    }
  }

  /** What is left to read, the announcement of the end included. */
  function Unread(docs: seq<Doc>, st: Stream): nat {
    |After(docs, st.readCursor)| + if st.over then 0 else 1
  }

  function Merged(chunks: seq<Chunk>): seq<Record> {
    if chunks == [] then [] else Merged(chunks[..|chunks| - 1]) + chunks[|chunks| - 1].entries
  }

  function WholeJoin(pub: seq<Doc>, priv: seq<Doc>, at: Checkpoint): seq<Record> {
    Join(After(pub, at.publicCursor), After(priv, at.privateCursor))
  }

  /** A checkpoint is truthful: it calls a stream finished only if nothing follows its cursor. */
  ghost predicate Truthful(pub: seq<Doc>, priv: seq<Doc>, at: Checkpoint) {
    && (at.publicTerminal ==> After(pub, at.publicCursor) == [])
    && (at.privateTerminal ==> After(priv, at.privateCursor) == [])
  }

  /** A run may stop after any chunk: its entries so far and a run resumed from its cursors make up
      the whole, with nothing lost or repeated. */
  ghost predicate CutOk(pub: seq<Doc>, priv: seq<Doc>, start: Checkpoint, chunks: seq<Chunk>, j: nat)
    requires j < |chunks|
  {
    && Truthful(pub, priv, chunks[j].at)
    && WholeJoin(pub, priv, start) == Merged(chunks[..j + 1]) + WholeJoin(pub, priv, chunks[j].at)
  }

  /** Drain both buffers and move both cursors. */
  method MergeOnce(pub: seq<Doc>, priv: seq<Doc>, p: Stream, q: Stream)
    returns (records: seq<Record>, p': Stream, q': Stream)
    requires Ascending(pub) && Ascending(priv) && StreamOk(pub, p) && StreamOk(priv, q)
    ensures StreamOk(pub, p') && StreamOk(priv, q')
    ensures Join(After(pub, p.cursor), After(priv, q.cursor))
         == records + Join(After(pub, p'.cursor), After(priv, q'.cursor))
    ensures p' == p.(cursor := p'.cursor, buffer := p'.buffer) && q' == q.(cursor := q'.cursor, buffer := q'.buffer)
    ensures |records| <= |p.buffer| + |q.buffer|
    ensures |p'.buffer| + |q'.buffer| + |records| <= |p.buffer| + |q.buffer|
    ensures records == [] ==> p' == p && q' == q
    ensures (p.buffer != [] || p.over) && (q.buffer != [] || q.over) && (p.buffer != [] || q.buffer != [])
      ==> records != []
  {
    var a, b;
    records, a, b := DrainMergeBuffers(p.buffer, q.buffer, p.over, q.over);
    var pc, qc := LastCursors(records, p.cursor, q.cursor);
    p', q' := p.(cursor := pc, buffer := a), q.(cursor := qc, buffer := b);
    MergeCounts(p, q, Drain(records, a, b), p', q');
    MergeKeepsStreams(pub, priv, p, q, Drain(records, a, b), p', q');
    DrainIsFrontOfJoin(p.buffer, q.buffer, After(pub, p.readCursor), After(priv, q.readCursor), p.over, q.over);
  }

  ghost predicate MergedTo(p: Stream, q: Stream, d: Drain, p': Stream, q': Stream) {
    && d == Drained(p.buffer, q.buffer, p.over, q.over)
    && p' == p.(cursor := LastPublic(d.records, p.cursor), buffer := d.a)
    && q' == q.(cursor := LastPrivate(d.records, q.cursor), buffer := d.b)
  }

  lemma MergeCounts(p: Stream, q: Stream, d: Drain, p': Stream, q': Stream)
    requires MergedTo(p, q, d, p', q')
    ensures |d.records| <= |p.buffer| + |q.buffer|
    ensures |d.a| + |d.b| + |d.records| <= |p.buffer| + |q.buffer|
    ensures d.records == [] ==> p' == p && q' == q
    ensures (p.buffer != [] || p.over) && (q.buffer != [] || q.over) && (p.buffer != [] || q.buffer != [])
      ==> d.records != []
  {
    DrainTakesPrefixes(p.buffer, q.buffer, p.over, q.over);
    if d.records == [] {
      DrainOfNothing(p.buffer, q.buffer, p.over, q.over);
      if (p.buffer != [] || p.over) && (q.buffer != [] || q.over) && (p.buffer != [] || q.buffer != []) {
        DrainEmits(p.buffer, q.buffer, p.over, q.over);
      }
    }
  }

  lemma MergeKeepsStreams(pub: seq<Doc>, priv: seq<Doc>, p: Stream, q: Stream, d: Drain, p': Stream, q': Stream)
    requires Ascending(pub) && Ascending(priv) && StreamOk(pub, p) && StreamOk(priv, q)
    requires MergedTo(p, q, d, p', q')
    ensures StreamOk(pub, p') && StreamOk(priv, q')
  {
    DrainTakesPrefixes(p.buffer, q.buffer, p.over, q.over);
    DrainMovesCursors(p.buffer, q.buffer, p.over, q.over, p.cursor, q.cursor);
    StreamDrained(pub, p, |p.buffer| - |d.a|);
    StreamDrained(priv, q, |q.buffer| - |d.b|);
  }

  lemma StreamDrained(docs: seq<Doc>, st: Stream, taken: nat)
    requires Ascending(docs) && StreamOk(docs, st) && taken <= |st.buffer|
    ensures StreamOk(docs, st.(cursor := CursorAfter(st.buffer, taken, st.cursor), buffer := st.buffer[taken..]))
  {
    if taken > 0 {
      CursorMoves(docs, st.cursor, taken);
      assert After(docs, st.cursor)[taken - 1] == st.buffer[taken - 1];
      assert (st.buffer + After(docs, st.readCursor))[taken..] == st.buffer[taken..] + After(docs, st.readCursor);
    } else {
      assert st.buffer[0..] == st.buffer;
    }
  }

  function Started(cursor: Option<nat>, over: bool): Stream {
    Stream(cursor, cursor, over, [])
  }

  function CheckpointOf(p: Stream, q: Stream): Checkpoint {
    Checkpoint(p.cursor, q.cursor, p.over && p.buffer == [], q.over && q.buffer == [])
  }

  /** Where the loop stands: the chunks so far and what the two streams still hold make up the whole. */
  ghost predicate LoopInv(pub: seq<Doc>, priv: seq<Doc>, start: Checkpoint, chunks: seq<Chunk>, p: Stream, q: Stream) {
    && StreamOk(pub, p) && StreamOk(priv, q)
    && WholeJoin(pub, priv, start) == Merged(chunks) + Join(After(pub, p.cursor), After(priv, q.cursor))
    && forall j: nat :: j < |chunks| ==> CutOk(pub, priv, start, chunks, j)
  }

  lemma ChunkAdded(pub: seq<Doc>, priv: seq<Doc>, start: Checkpoint, chunks: seq<Chunk>, p: Stream, q: Stream,
                   records: seq<Record>, p': Stream, q': Stream, at: Checkpoint)
    requires LoopInv(pub, priv, start, chunks, p, q) && StreamOk(pub, p') && StreamOk(priv, q')
    requires Join(After(pub, p.cursor), After(priv, q.cursor))
          == records + Join(After(pub, p'.cursor), After(priv, q'.cursor))
    requires at.publicCursor == p'.cursor && at.privateCursor == q'.cursor && Truthful(pub, priv, at)
    ensures LoopInv(pub, priv, start, chunks + [Chunk(records, at)], p', q')
  {
    var all := chunks + [Chunk(records, at)];
    MergedGrows(chunks, Chunk(records, at));
    Regroup(WholeJoin(pub, priv, start), Merged(chunks), Join(After(pub, p.cursor), After(priv, q.cursor)), records,
            WholeJoin(pub, priv, at), Merged(all));
    CutsStand(pub, priv, start, chunks, Chunk(records, at));
  }

  lemma CutsStand(pub: seq<Doc>, priv: seq<Doc>, start: Checkpoint, chunks: seq<Chunk>, chunk: Chunk)
    requires forall j: nat :: j < |chunks| ==> CutOk(pub, priv, start, chunks, j)
    requires Truthful(pub, priv, chunk.at)
    requires WholeJoin(pub, priv, start) == Merged(chunks + [chunk]) + WholeJoin(pub, priv, chunk.at)
    ensures forall j: nat :: j < |chunks| + 1 ==> CutOk(pub, priv, start, chunks + [chunk], j)
  {
    forall j: nat | j < |chunks| + 1 ensures CutOk(pub, priv, start, chunks + [chunk], j) {
      EachCutStands(pub, priv, start, chunks, chunk, j);
    }
  }

  lemma EachCutStands(pub: seq<Doc>, priv: seq<Doc>, start: Checkpoint, chunks: seq<Chunk>, chunk: Chunk, j: nat)
    requires j <= |chunks| && (j < |chunks| ==> CutOk(pub, priv, start, chunks, j))
    requires Truthful(pub, priv, chunk.at)
    requires WholeJoin(pub, priv, start) == Merged(chunks + [chunk]) + WholeJoin(pub, priv, chunk.at)
    ensures CutOk(pub, priv, start, chunks + [chunk], j)
  {
    if j < |chunks| {
      CutStands(pub, priv, start, chunks, chunk, j);
    } else {
      LastCutStands(pub, priv, start, chunks + [chunk]);
    }
  }

  lemma LastCutStands(pub: seq<Doc>, priv: seq<Doc>, start: Checkpoint, chunks: seq<Chunk>)
    requires chunks != [] && Truthful(pub, priv, chunks[|chunks| - 1].at)
    requires WholeJoin(pub, priv, start) == Merged(chunks) + WholeJoin(pub, priv, chunks[|chunks| - 1].at)
    ensures CutOk(pub, priv, start, chunks, |chunks| - 1)
  {
    assert chunks[..|chunks|] == chunks;
  }

  lemma Regroup(whole: seq<Record>, merged: seq<Record>, rest: seq<Record>, records: seq<Record>, rest': seq<Record>,
                merged': seq<Record>)
    requires whole == merged + rest && rest == records + rest' && merged' == merged + records
    ensures whole == merged' + rest'
  {
  }

  lemma MergedGrows(chunks: seq<Chunk>, chunk: Chunk)
    ensures Merged(chunks + [chunk]) == Merged(chunks) + chunk.entries
  {
    var all := chunks + [chunk];
    assert all[..|all| - 1] == chunks;
  }

  lemma CutStands(pub: seq<Doc>, priv: seq<Doc>, start: Checkpoint, chunks: seq<Chunk>, chunk: Chunk, j: nat)
    requires j < |chunks| && CutOk(pub, priv, start, chunks, j)
    ensures CutOk(pub, priv, start, chunks + [chunk], j)
  {
    assert (chunks + [chunk])[..j + 1] == chunks[..j + 1];
  }

  lemma TruthfulNow(pub: seq<Doc>, priv: seq<Doc>, p: Stream, q: Stream)
    requires StreamOk(pub, p) && StreamOk(priv, q)
    ensures Truthful(pub, priv, CheckpointOf(p, q))
  {
  }

  lemma JoinOfNothing(pub: seq<Doc>, priv: seq<Doc>, p: Stream, q: Stream)
    requires StreamOk(pub, p) && StreamOk(priv, q)
    requires p.over && q.over && p.buffer == [] && q.buffer == []
    ensures Join(After(pub, p.cursor), After(priv, q.cursor)) == []
  {
  }

  /** Both buffers hold something unless their streams are over, and pages were spent only on reading on. */
  ghost predicate Fetched(pub: seq<Doc>, priv: seq<Doc>, p: Stream, q: Stream, pages: nat, p': Stream, q': Stream,
                          count: nat)
  {
    && StreamOk(pub, p') && StreamOk(priv, q') && p'.cursor == p.cursor && q'.cursor == q.cursor
    && (p'.buffer != [] || p'.over) && (q'.buffer != [] || q'.over)
    && count + Unread(pub, p') + Unread(priv, q') <= pages + Unread(pub, p) + Unread(priv, q)
    && ((p', q') == (p, q) || Unread(pub, p') + Unread(priv, q') < Unread(pub, p) + Unread(priv, q))
  }

  /** Fetch what is missing: a page for each empty buffer whose stream is not over. */
  method FetchMissing(pub: seq<Doc>, priv: seq<Doc>, p: Stream, q: Stream, pages: nat, cut: nat -> Cut)
    returns (r: Result<(Stream, Stream, nat), InventoryError>)
    requires Ascending(pub) && Ascending(priv) && StreamOk(pub, p) && StreamOk(priv, q)
    ensures r.Err? ==> r.error == PageBudget && pages + Unread(pub, p) + Unread(priv, q) > MAX_PAGES
    ensures r.Ok? ==> Fetched(pub, priv, p, q, pages, r.value.0, r.value.1, r.value.2)
  {
    var p', q', count := p, q, pages;
    if p.buffer == [] && !p.over {
      count := count + 1;
      if count > MAX_PAGES { return Err(PageBudget); }
      var fetched := Fetch(pub, p, cut(count));
      p' := fetched.value;
    }
    if q.buffer == [] && !q.over {
      count := count + 1;
      if count > MAX_PAGES { return Err(PageBudget); }
      var fetched := Fetch(priv, q, cut(count));
      q' := fetched.value;
    }
    return Ok((p', q', count));
  }

  /** The loop's variables. */
  datatype Progress = Progress(p: Stream, q: Stream, chunks: seq<Chunk>, at: Checkpoint, pages: nat)

  ghost predicate ProgressOk(pub: seq<Doc>, priv: seq<Doc>, start: Checkpoint, s: Progress) {
    && LoopInv(pub, priv, start, s.chunks, s.p, s.q)
    && s.pages + Unread(pub, s.p) + Unread(priv, s.q) <= |pub| + |priv| + 2
  }

  ghost predicate Closer(pub: seq<Doc>, priv: seq<Doc>, s: Progress, t: Progress) {
    var before, after := Unread(pub, s.p) + Unread(priv, s.q), Unread(pub, t.p) + Unread(priv, t.q);
    after < before || (after == before && |t.p.buffer| + |t.q.buffer| < |s.p.buffer| + |s.q.buffer|)
  }

  lemma MergedIsCloser(pub: seq<Doc>, priv: seq<Doc>, s: Progress, p: Stream, q: Stream, pages: nat,
                       records: seq<Record>, p': Stream, q': Stream)
    requires Fetched(pub, priv, s.p, s.q, s.pages, p, q, pages)
    requires !(s.p.over && s.q.over && s.p.buffer == [] && s.q.buffer == [])
    requires p'.over == p.over && q'.over == q.over && p'.readCursor == p.readCursor && q'.readCursor == q.readCursor
    requires |p'.buffer| + |q'.buffer| + |records| <= |p.buffer| + |q.buffer|
    requires records == [] ==> p' == p && q' == q
    requires p.buffer != [] || q.buffer != [] ==> records != []
    ensures Closer(pub, priv, s, Progress(p', q', s.chunks, s.at, pages))
    ensures Unread(pub, p') == Unread(pub, p) && Unread(priv, q') == Unread(priv, q)
  {
  }

  /** Fetch what is missing and merge what there is. */
  method FetchAndMerge(pub: seq<Doc>, priv: seq<Doc>, s: Progress, cut: nat -> Cut)
    returns (r: Result<Progress, InventoryError>, records: seq<Record>, terminals: (bool, bool))
    requires Ascending(pub) && Ascending(priv) && StreamOk(pub, s.p) && StreamOk(priv, s.q)
    requires !(s.p.over && s.q.over && s.p.buffer == [] && s.q.buffer == [])
    ensures r.Err? ==> r.error == PageBudget && s.pages + Unread(pub, s.p) + Unread(priv, s.q) > MAX_PAGES
    ensures r.Ok? ==>
      var t := r.value;
      && StreamOk(pub, t.p) && StreamOk(priv, t.q) && t.chunks == s.chunks && t.at == s.at
      && Join(After(pub, s.p.cursor), After(priv, s.q.cursor))
         == records + Join(After(pub, t.p.cursor), After(priv, t.q.cursor))
      && t.pages + Unread(pub, t.p) + Unread(priv, t.q) <= s.pages + Unread(pub, s.p) + Unread(priv, s.q)
      && Closer(pub, priv, s, t) && |records| <= MAX_SEALED_CHUNK_ENTRIES
    ensures r.Ok? && records == [] ==>
      && ((s.p.buffer == [] && !s.p.over) || (s.q.buffer == [] && !s.q.over))
      && terminals == (r.value.p.over && r.value.p.buffer == [], r.value.q.over && r.value.q.buffer == [])
  {
    records, terminals := [], (false, false);
    var fetched := FetchMissing(pub, priv, s.p, s.q, s.pages, cut);
    if fetched.Err? { return Err(fetched.error), records, terminals; }
    var p, q, pages := fetched.value.0, fetched.value.1, fetched.value.2;
    terminals := (p.over && p.buffer == [], q.over && q.buffer == []);
    var p', q';
    records, p', q' := MergeOnce(pub, priv, p, q);
    MergedIsCloser(pub, priv, s, p, q, pages, records, p', q');
    return Ok(Progress(p', q', s.chunks, s.at, pages)), records, terminals;
  }

  /** One round of the loop: fetch, merge, and note a chunk. */
  method Round(pub: seq<Doc>, priv: seq<Doc>, ghost start: Checkpoint, s: Progress, cut: nat -> Cut)
    returns (r: Result<Progress, InventoryError>)
    requires Ascending(pub) && Ascending(priv) && ProgressOk(pub, priv, start, s)
    requires !(s.p.over && s.q.over && s.p.buffer == [] && s.q.buffer == [])
    ensures r.Ok? ==> ProgressOk(pub, priv, start, r.value) && Closer(pub, priv, s, r.value)
    ensures r.Err? ==> r.error == PageBudget && |pub| + |priv| + 2 > MAX_PAGES
  {
    var needed := (s.p.buffer == [] && !s.p.over) || (s.q.buffer == [] && !s.q.over);
    var merged, records, terminals := FetchAndMerge(pub, priv, s, cut);
    if merged.Err? { return merged; }
    var t := merged.value;
    var next := CheckpointOf(t.p, t.q);
    TruthfulNow(pub, priv, t.p, t.q);
    ChunkAdded(pub, priv, start, s.chunks, s.p, s.q, records, t.p, t.q, next);
    if records == [] {
      if !needed { return Err(Stalled); }
      if terminals == (s.at.publicTerminal, s.at.privateTerminal) {
        NothingNoted(pub, priv, start, s, t);
        return Ok(t);
      }
    }
    if |records| > MAX_SEALED_CHUNK_ENTRIES { return Err(ChunkTooLarge); }
    return Ok(t.(chunks := s.chunks + [Chunk(records, next)], at := next));
  }

  lemma NothingNoted(pub: seq<Doc>, priv: seq<Doc>, start: Checkpoint, s: Progress, t: Progress)
    requires ProgressOk(pub, priv, start, s) && StreamOk(pub, t.p) && StreamOk(priv, t.q) && t.chunks == s.chunks
    requires Join(After(pub, s.p.cursor), After(priv, s.q.cursor))
          == [] + Join(After(pub, t.p.cursor), After(priv, t.q.cursor))
    ensures LoopInv(pub, priv, start, t.chunks, t.p, t.q)
  {
    assert Join(After(pub, s.p.cursor), After(priv, s.q.cursor))
        == Join(After(pub, t.p.cursor), After(priv, t.q.cursor));
  }

  lemma BeginsOk(pub: seq<Doc>, priv: seq<Doc>, start: Checkpoint, s: Progress)
    requires Truthful(pub, priv, start)
    requires s == Progress(Started(start.publicCursor, start.publicTerminal),
                           Started(start.privateCursor, start.privateTerminal), [], start, 0)
    ensures ProgressOk(pub, priv, start, s)
  {
    AfterIsSuffix(pub, start.publicCursor);
    AfterIsSuffix(priv, start.privateCursor);
    assert Merged(s.chunks) + WholeJoin(pub, priv, start) == WholeJoin(pub, priv, start);
  }

  /** The whole scan, fresh or resumed, over any cutting into pages.  The only error left is the page
      budget; in particular a round that has nothing to fetch always yields records. */
  method CreateInventory(pub: seq<Doc>, priv: seq<Doc>, start: Checkpoint, cut: nat -> Cut)
    returns (r: Result<seq<Chunk>, InventoryError>)
    requires Ascending(pub) && Ascending(priv) && Truthful(pub, priv, start)
    ensures r.Ok? ==> Merged(r.value) == WholeJoin(pub, priv, start)
    ensures r.Ok? ==> forall j: nat :: j < |r.value| ==> CutOk(pub, priv, start, r.value, j)
    ensures r.Err? ==> r.error == PageBudget && |pub| + |priv| + 2 > MAX_PAGES
  {
    var s := Progress(Started(start.publicCursor, start.publicTerminal),
                      Started(start.privateCursor, start.privateTerminal), [], start, 0);
    BeginsOk(pub, priv, start, s);
    while !(s.p.over && s.q.over && s.p.buffer == [] && s.q.buffer == [])
      invariant ProgressOk(pub, priv, start, s)
      decreases Unread(pub, s.p) + Unread(priv, s.q), |s.p.buffer| + |s.q.buffer|
    {
      var next := Round(pub, priv, start, s, cut);
      if next.Err? { return Err(next.error); }
      s := next.value;
    }
    JoinOfNothing(pub, priv, s.p, s.q);
    assert Merged(s.chunks) + [] == Merged(s.chunks);
    return Ok(s.chunks);
  }

  // ----- what the inventory is -----

  lemma {:induction false} AfterAscending(docs: seq<Doc>, cursor: Option<nat>)
    requires Ascending(docs)
    ensures Ascending(After(docs, cursor))
  {
    if docs != [] {
      TailAscending(docs);
      AfterAscending(docs[1..], cursor);
    }
  }

  /** A fresh scan's entries are the full outer join of the two collections by share id. */
  lemma FreshScanIsOuterJoin(pub: seq<Doc>, priv: seq<Doc>)
    requires Ascending(pub) && Ascending(priv)
    ensures IsOuterJoin(WholeJoin(pub, priv, Checkpoint(None, None, false, false)), pub, priv)
  {
    JoinIsOuterJoin(pub, priv);
  }

  /** Stop a run after any chunk and resume from that chunk: the entries together are those of the
      run that was never stopped. */
  method CutAndResume(pub: seq<Doc>, priv: seq<Doc>, cut: nat -> Cut, recut: nat -> Cut, j: nat)
    returns (kept: seq<Record>, resumed: seq<Record>, uncut: seq<Record>, done: bool)
    requires Ascending(pub) && Ascending(priv)
    ensures |pub| + |priv| + 2 <= MAX_PAGES ==> done
    ensures done ==> kept + resumed == uncut && IsOuterJoin(uncut, pub, priv)
  {
    var start := Checkpoint(None, None, false, false);
    var r := CreateInventory(pub, priv, start, cut);
    if r.Err? { return [], [], [], false; }
    uncut := Merged(r.value);
    FreshScanIsOuterJoin(pub, priv);
    if j >= |r.value| { return uncut, [], uncut, true; }
    assert CutOk(pub, priv, start, r.value, j);
    var again := CreateInventory(pub, priv, r.value[j].at, recut);
    kept := Merged(r.value[..j + 1]);
    if again.Err? { return kept, [], uncut, false; }
    return kept, Merged(again.value), uncut, true;
  }
}
