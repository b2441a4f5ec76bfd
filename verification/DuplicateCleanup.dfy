/**
 The merge plan for one identity group (functions/src/duplicateCleanup.ts): which card is the
 strongest, what the merged canonical card holds, and which tombstones the losers leave.

 Words, lexemes, document names and free text are numbers standing for strings; a canonical
 document id is a distinct constructor, because the hashed ids are taken to be injective.
 */
module DuplicateCleanup {
  import opened Prelude
  import opened StableSort

  datatype Identity = Word(word: nat) | Lexeme(lexeme: nat)

  datatype CardId = Plain(name: nat) | Canonical(identity: Identity)

  /** The lexeme fields of a card: absent, a consistent tuple, or an inconsistent one. */
  datatype LexemeFields = NoTuple | Valid(lexeme: nat) | Broken

  datatype Card = Card(
    word: Option<nat>,
    lexeme: LexemeFields,
    reps: nat, reviews: nat, history: nat, streak: nat, stability: real,
    bookmarked: bool,
    revision: nat,
    createdAt: Option<int>,   // None when the stored date does not parse
    audio: Option<nat>,       // None when no trusted address
    image: Option<nat>,
    query: Option<nat>,       // None when blank
    text: nat,
    updatedAt: nat)

  datatype Source = Source(id: CardId, card: Card)

  datatype PlannedTombstone = PlannedTombstone(cardId: CardId, revision: nat)

  datatype Plan = Plan(
    normalizedWord: nat,
    primaryId: CardId,
    strongestSourceId: CardId,
    loserIds: seq<CardId>,
    merged: Card,
    tombstones: seq<PlannedTombstone>)

  datatype PlanError = EmptyGroup | InvalidIdentity | MixedIdentity | RevisionExhausted

  /** Some total order on document ids; only totality is used. */
  function IdRank(id: CardId): nat {
    match id
    case Plain(n) => 2 * n + 1
    case Canonical(Word(w)) => 4 * w
    case Canonical(Lexeme(l)) => 4 * l + 2
  }

  function CardIdentity(card: Card): Option<Identity> {
    match (card.word, card.lexeme)
    case (None, _) => None
    case (Some(w), NoTuple) => Some(Word(w))
    case (Some(_), Valid(l)) => Some(Lexeme(l))
    case (Some(_), Broken) => None
  }

  // ----- ranking -----

  const TUPLE_LENGTH: nat := 7

  function ProgressTuple(card: Card): (t: seq<real>)
    ensures |t| == TUPLE_LENGTH
  {
    [card.reps as real, card.reviews as real, card.history as real, card.streak as real,
     card.stability, if card.bookmarked then 1.0 else 0.0, card.revision as real]
  }

  /** Date, then id.  Two unreadable dates are both +Infinity; their difference is NaN, which the
      source returns at once and the sort reads as a tie, so the ids are never compared. */
  predicate DateBefore(a: Source, b: Source) {
    match (a.card.createdAt, b.card.createdAt)
    case (None, _) => false
    case (Some(_), None) => true
    case (Some(s), Some(t)) => if s != t then s < t else IdRank(a.id) < IdRank(b.id)
  }

  predicate BeforeFrom(a: Source, b: Source, i: nat)
    requires i <= TUPLE_LENGTH
    decreases TUPLE_LENGTH - i
  {
    if i == TUPLE_LENGTH then DateBefore(a, b)
    else
      var x, y := ProgressTuple(a.card)[i], ProgressTuple(b.card)[i];
      if x != y then x > y else BeforeFrom(a, b, i + 1)
  }

  predicate Before(a: Source, b: Source) {
    BeforeFrom(a, b, 0)
  }

  /** The comparator the sort is given: negative, zero or positive. */
  method ComparePrimary(left: Source, right: Source) returns (sign: int)
    ensures sign < 0 <==> Before(left, right)
    ensures sign > 0 <==> Before(right, left)
  {
    var l, r := ProgressTuple(left.card), ProgressTuple(right.card);
    var index := 0;
    while index < |l|
      invariant 0 <= index <= TUPLE_LENGTH
      invariant Before(left, right) == BeforeFrom(left, right, index)
      invariant Before(right, left) == BeforeFrom(right, left, index)
    {
      if l[index] != r[index] {
        return if r[index] > l[index] then 1 else -1;
      }
      index := index + 1;
    }
    match (left.card.createdAt, right.card.createdAt) {
      case (None, None) => sign := 0;
      case (Some(_), None) => sign := -1;
      case (None, Some(_)) => sign := 1;
      case (Some(s), Some(t)) =>
        sign := if s != t then s - t else IdRank(left.id) - IdRank(right.id);
    }
  }

  lemma {:induction false} NeverBothBefore(a: Source, b: Source, i: nat)
    requires i <= TUPLE_LENGTH
    ensures !(BeforeFrom(a, b, i) && BeforeFrom(b, a, i))
    decreases TUPLE_LENGTH - i
  {
    if i < TUPLE_LENGTH {
      NeverBothBefore(a, b, i + 1);
    }
  }

  lemma {:induction false} NotBeforeChains(a: Source, b: Source, c: Source, i: nat)
    requires i <= TUPLE_LENGTH
    requires !BeforeFrom(b, a, i) && !BeforeFrom(c, b, i)
    ensures !BeforeFrom(c, a, i)
    decreases TUPLE_LENGTH - i
  {
    if i < TUPLE_LENGTH {
      if ProgressTuple(a.card)[i] == ProgressTuple(b.card)[i] == ProgressTuple(c.card)[i] {
        NotBeforeChains(a, b, c, i + 1);
      }
    }
  }

  /** The comparator is consistent even with unreadable dates: ties are transitive. */
  lemma RankingIsAnOrder()
    ensures StrictWeakOrder(Before)
  {
    forall a, b | Before(a, b) ensures !Before(b, a) { NeverBothBefore(a, b, 0); }
    forall a, b, c | !Before(b, a) && !Before(c, b) ensures !Before(c, a) { NotBeforeChains(a, b, c, 0); }
  }

  predicate IdBefore(a: Source, b: Source) {
    IdRank(a.id) < IdRank(b.id)
  }

  // ----- the plan -----

  function MaxRevision(cards: seq<Source>): nat {
    if cards == [] then 0 else Max(cards[0].card.revision, MaxRevision(cards[1..]))
  }

  function Earlier(a: Option<int>, b: Option<int>): Option<int> {
    if a.Some? && (b.None? || a.value <= b.value) then a else b
  }

  function EarliestDate(cards: seq<Source>): Option<int> {
    if cards == [] then None else Earlier(cards[0].card.createdAt, EarliestDate(cards[1..]))
  }

  predicate AnyBookmarked(cards: seq<Source>) {
    exists s :: s in cards && s.card.bookmarked
  }

  predicate OneIdentity(cards: seq<Source>, identity: Option<Identity>) {
    forall s :: s in cards ==> CardIdentity(s.card) == identity
  }

  /** The fields that the merged card takes from the strongest card that has one. */
  datatype Field = Audio | Image | Query

  function FieldOf(card: Card, field: Field): Option<nat> {
    match field
    case Audio => card.audio
    case Image => card.image
    case Query => card.query
  }

  function FirstOf(ranked: seq<Source>, field: Field): Option<nat> {
    if ranked == [] then None
    else if FieldOf(ranked[0].card, field).Some? then FieldOf(ranked[0].card, field)
    else FirstOf(ranked[1..], field)
  }

  function Losers(cards: seq<Source>, canonicalId: CardId): seq<Source> {
    Sort(IdBefore, Filter((s: Source) => s.id != canonicalId, cards))
  }

  function Tombstones(losers: seq<Source>): seq<PlannedTombstone> {
    seq(|losers|, i requires 0 <= i < |losers| => PlannedTombstone(losers[i].id, losers[i].card.revision + 1))
  }

  function Ids(sources: seq<Source>): seq<CardId> {
    seq(|sources|, i requires 0 <= i < |sources| => sources[i].id)
  }

  function MergedCard(ranked: seq<Source>, identity: Identity, word: nat,
                      earliest: Option<int>, bookmarked: bool, revision: nat): Card
    requires ranked != []
  {
    var strongest := ranked[0].card;
    Card(
      Some(word),
      if identity.Lexeme? then Valid(identity.lexeme) else NoTuple,
      strongest.reps, strongest.reviews, Min(strongest.history, 100), strongest.streak, strongest.stability,
      bookmarked,
      revision,
      Some(if earliest.Some? then earliest.value else 0),
      FirstOf(ranked, Audio), FirstOf(ranked, Image), FirstOf(ranked, Query),
      strongest.text,
      0)
  }

  function PlanGroup(cards: seq<Source>): Result<Plan, PlanError> {
    if cards == [] then Err(EmptyGroup)
    else
      var identity := CardIdentity(cards[0].card);
      if identity.None? then Err(InvalidIdentity)
      else if !OneIdentity(cards, identity) then Err(MixedIdentity)
      else if MaxRevision(cards) >= MAX_SAFE_INTEGER then Err(RevisionExhausted)
      else
        Ok(Assemble(PartsOf(cards)))
  }

  /** Everything a plan is made of. */
  datatype Parts = Parts(
    word: nat, identity: Identity, ranked: seq<Source>, losers: seq<Source>,
    earliest: Option<int>, bookmarked: bool, revision: nat)

  function PartsOf(cards: seq<Source>): (parts: Parts)
    requires cards != [] && CardIdentity(cards[0].card).Some?
    ensures |parts.ranked| == |cards|
  {
    var identity := CardIdentity(cards[0].card).value;
    Parts(cards[0].card.word.value, identity, Sort(Before, cards), Losers(cards, Canonical(identity)),
          EarliestDate(cards), AnyBookmarked(cards), MaxRevision(cards) + 1)
  }

  function Assemble(p: Parts): Plan
    requires p.ranked != []
  {
    Plan(p.word, Canonical(p.identity), p.ranked[0].id, Ids(p.losers),
         MergedCard(p.ranked, p.identity, p.word, p.earliest, p.bookmarked, p.revision), Tombstones(p.losers))
  }

  // ----- what the plan promises -----

  lemma {:induction false} MaxRevisionBounds(cards: seq<Source>)
    ensures forall s :: s in cards ==> s.card.revision <= MaxRevision(cards)
    ensures cards != [] ==> exists s :: s in cards && s.card.revision == MaxRevision(cards)
  {
    if cards != [] {
      MaxRevisionBounds(cards[1..]);
      assert cards[0] in cards;
    }
  }

  lemma {:induction false} EarliestDateBounds(cards: seq<Source>)
    ensures forall s :: s in cards && s.card.createdAt.Some? ==>
      EarliestDate(cards).Some? && EarliestDate(cards).value <= s.card.createdAt.value
    ensures EarliestDate(cards).Some? ==> exists s :: s in cards && s.card.createdAt == EarliestDate(cards)
  {
    if cards != [] {
      EarliestDateBounds(cards[1..]);
      assert cards[0] in cards;
    }
  }

  ghost predicate DistinctIds(cards: seq<Source>) {
    forall i, j :: 0 <= i < j < |cards| ==> cards[i].id != cards[j].id
  }

  ghost predicate SameWord(cards: seq<Source>) {
    forall s, t :: s in cards && t in cards ==> s.card.word == t.card.word
  }

  ghost predicate AllDated(cards: seq<Source>) {
    forall s :: s in cards ==> s.card.createdAt.Some?
  }

  lemma LoserMembers(cards: seq<Source>, id: CardId)
    ensures multiset(Losers(cards, id)) == multiset(Filter((s: Source) => s.id != id, cards))
    ensures forall s :: s in Losers(cards, id) <==> s in cards && s.id != id
  {
    var picked := Filter((s: Source) => s.id != id, cards);
    SortKeepsElements(IdBefore, picked);
    MembersAgree(Losers(cards, id), picked);
  }

  /** Conservation: the merged card outranks every source, keeps the earliest readable date, and is
      bookmarked exactly when some source is. */
  lemma MergedCardConserves(cards: seq<Source>)
    requires PlanGroup(cards).Ok?
    ensures var m := PlanGroup(cards).value.merged;
      && (forall s :: s in cards ==> s.card.revision < m.revision <= MAX_SAFE_INTEGER)
      && (m.bookmarked <==> exists s :: s in cards && s.card.bookmarked)
      && (forall s :: s in cards && s.card.createdAt.Some? ==>
            m.createdAt.Some? && m.createdAt.value <= s.card.createdAt.value)
      && (AllDated(cards) ==> exists s :: s in cards && s.card.createdAt == m.createdAt)
  {
    MaxRevisionBounds(cards);
    EarliestDateBounds(cards);
    assert cards[0] in cards;
  }

  /** Every card but the canonical one is buried, one revision above its own, and nothing else is. */
  lemma TombstonesCoverLosers(cards: seq<Source>)
    requires PlanGroup(cards).Ok?
    ensures var p := PlanGroup(cards).value;
      && |p.tombstones| == |p.loserIds|
      && (forall s :: s in cards && s.id != p.primaryId ==>
            PlannedTombstone(s.id, s.card.revision + 1) in p.tombstones)
      && (forall t :: t in p.tombstones ==>
            (t.cardId != p.primaryId
            && exists s :: s in cards && s.id == t.cardId && t.revision == s.card.revision + 1))
  {
    var p := PlanGroup(cards).value;
    var losers := Losers(cards, p.primaryId);
    LoserMembers(cards, p.primaryId);
    forall s | s in cards && s.id != p.primaryId
      ensures PlannedTombstone(s.id, s.card.revision + 1) in p.tombstones
    {
      TombstoneOfLoser(losers, s);
    }
    forall t | t in p.tombstones
      ensures t.cardId != p.primaryId
           && exists s :: s in cards && s.id == t.cardId && t.revision == s.card.revision + 1
    {
      LoserOfTombstone(losers, t);
    }
  }

  lemma TombstoneOfLoser(losers: seq<Source>, s: Source)
    requires s in losers
    ensures PlannedTombstone(s.id, s.card.revision + 1) in Tombstones(losers)
  {
    var k :| 0 <= k < |losers| && losers[k] == s;
    assert Tombstones(losers)[k] == PlannedTombstone(s.id, s.card.revision + 1);
  }

  lemma LoserOfTombstone(losers: seq<Source>, t: PlannedTombstone)
    requires t in Tombstones(losers)
    ensures exists s :: s in losers && s.id == t.cardId && t.revision == s.card.revision + 1
  {
    var k :| 0 <= k < |losers| && Tombstones(losers)[k] == t;
    assert losers[k] in losers;
  }

  lemma IdRankInjective(a: CardId, b: CardId)
    requires IdRank(a) == IdRank(b)
    ensures a == b
  {
  }

  lemma {:induction false} FilterOfDistinct(p: Source -> bool, cards: seq<Source>)
    requires DistinctIds(cards)
    ensures DistinctIds(Filter(p, cards))
  {
    if cards != [] {
      var rest := cards[1..];
      FilterOfDistinct(p, rest);
      forall s | s in Filter(p, rest) ensures s.id != cards[0].id {
        var k :| 0 <= k < |rest| && rest[k] == s;
        assert cards[k + 1] == s;
      }
    }
  }

  /** No card is buried twice. */
  lemma LosersAreDistinct(cards: seq<Source>)
    requires PlanGroup(cards).Ok? && DistinctIds(cards)
    ensures var ids := PlanGroup(cards).value.loserIds;
      forall i, j :: 0 <= i < j < |ids| ==> ids[i] != ids[j]
  {
    var id := PlanGroup(cards).value.primaryId;
    var picked := Filter((s: Source) => s.id != id, cards);
    var losers := Losers(cards, id);
    FilterOfDistinct((s: Source) => s.id != id, cards);
    SortKeepsElements(IdBefore, picked);
    forall i, j | 0 <= i < j < |losers| ensures losers[i].id != losers[j].id {
      SortKeepsIdsDistinct(picked, losers, i, j);
    }
  }

  lemma SortKeepsIdsDistinct(picked: seq<Source>, sorted: seq<Source>, i: nat, j: nat)
    requires multiset(picked) == multiset(sorted) && DistinctIds(picked) && i < j < |sorted|
    ensures sorted[i].id != sorted[j].id
  {
    MembersAgree(picked, sorted);
    SameIdSameSource(picked, sorted[i], sorted[j]);
    CountsOnce(picked, sorted[i]);
    CountsTwice(sorted, i, j);
  }

  lemma SameIdSameSource(picked: seq<Source>, x: Source, y: Source)
    requires DistinctIds(picked) && x in picked && y in picked
    ensures x.id == y.id ==> x == y
  {
  }

  lemma CountsOnce(picked: seq<Source>, x: Source)
    requires DistinctIds(picked) && x in picked
    ensures multiset(picked)[x] == 1
  {
    var k :| 0 <= k < |picked| && picked[k] == x;
    assert picked == picked[..k] + [x] + picked[k + 1..];
    assert x !in picked[..k] && x !in picked[k + 1..];
  }

  lemma CountsTwice(s: seq<Source>, i: nat, j: nat)
    requires i < j < |s|
    ensures s[i] == s[j] ==> multiset(s)[s[i]] >= 2
  {
    assert s == s[..i] + [s[i]] + s[i + 1..];
    assert s[i + 1..][j - i - 1] == s[j];
    assert s[j] in multiset(s[i + 1..]);
  }

  lemma {:induction false} MaxRevisionIsMonotone(a: seq<Source>, b: seq<Source>)
    requires forall s :: s in a ==> s in b
    ensures MaxRevision(a) <= MaxRevision(b)
  {
    if a != [] {
      MaxRevisionIsMonotone(a[1..], b);
      assert a[0] in a;
      MaxRevisionBounds(b);
    }
  }

  lemma EarliestDateIsMonotone(a: seq<Source>, b: seq<Source>)
    requires forall s :: s in a ==> s in b
    ensures EarliestDate(a).Some? ==> EarliestDate(b).Some? && EarliestDate(b).value <= EarliestDate(a).value
  {
    EarliestDateBounds(a);
    EarliestDateBounds(b);
    if EarliestDate(a).Some? {
      var s :| s in a && s.card.createdAt == EarliestDate(a);
      assert s in b;
    }
  }

  lemma AggregatesIgnoreOrder(a: seq<Source>, b: seq<Source>)
    requires multiset(a) == multiset(b)
    ensures MaxRevision(a) == MaxRevision(b) && EarliestDate(a) == EarliestDate(b)
    ensures AnyBookmarked(a) == AnyBookmarked(b)
  {
    MembersAgree(a, b);
    MaxRevisionIsMonotone(a, b);
    MaxRevisionIsMonotone(b, a);
    EarliestDateIsMonotone(a, b);
    EarliestDateIsMonotone(b, a);
  }

  lemma RankingIgnoresOrder(a: seq<Source>, b: seq<Source>)
    requires multiset(a) == multiset(b) && DistinctIds(a) && AllDated(a)
    ensures Sort(Before, a) == Sort(Before, b)
  {
    RankingIsAnOrder();
    SortSorts(Before, a);
    SortSorts(Before, b);
    SortKeepsElements(Before, a);
    SortKeepsElements(Before, b);
    MembersAgree(a, Sort(Before, a));
    forall x, y | x in Sort(Before, a) && y in Sort(Before, a) && x != y
      ensures Before(x, y) || Before(y, x)
    {
      assert x in a && y in a;
      DatedNeverTie(x, y, 0);
    }
    SortedIsUnique(Before, Sort(Before, a), Sort(Before, b));
  }

  lemma {:induction false} DatedNeverTie(x: Source, y: Source, i: nat)
    requires i <= TUPLE_LENGTH
    requires x.card.createdAt.Some? && y.card.createdAt.Some? && x.id != y.id
    ensures BeforeFrom(x, y, i) || BeforeFrom(y, x, i)
    decreases TUPLE_LENGTH - i
  {
    if i == TUPLE_LENGTH {
      if IdRank(x.id) == IdRank(y.id) { IdRankInjective(x.id, y.id); }
    } else {
      DatedNeverTie(x, y, i + 1);
    }
  }

  lemma {:induction false} FilterOfPermutation(p: Source -> bool, a: seq<Source>, x: Source)
    ensures multiset(Filter(p, a))[x] == if p(x) then multiset(a)[x] else 0
  {
    if a != [] {
      FilterOfPermutation(p, a[1..], x);
      assert a == [a[0]] + a[1..];
    }
  }

  lemma LosersIgnoreOrder(a: seq<Source>, b: seq<Source>, id: CardId)
    requires multiset(a) == multiset(b) && DistinctIds(a)
    ensures Losers(a, id) == Losers(b, id)
  {
    var p := (s: Source) => s.id != id;
    var fa, fb := Filter(p, a), Filter(p, b);
    forall x ensures multiset(fa)[x] == multiset(fb)[x] {
      FilterOfPermutation(p, a, x);
      FilterOfPermutation(p, b, x);
    }
    assert multiset(fa) == multiset(fb);
    IdOrder();
    SortSorts(IdBefore, fa);
    SortSorts(IdBefore, fb);
    LoserMembers(a, id);
    LoserMembers(b, id);
    forall x, y | x in Losers(a, id) && y in Losers(a, id) && x != y
      ensures IdBefore(x, y) || IdBefore(y, x)
    {
      assert x in a && y in a;
      if IdRank(x.id) == IdRank(y.id) { IdRankInjective(x.id, y.id); }
    }
    SortedIsUnique(IdBefore, Losers(a, id), Losers(b, id));
  }

  lemma IdOrder()
    ensures StrictWeakOrder(IdBefore)
  {
  }

  /** Planning succeeds for one order exactly when it does for every order. */
  lemma SuccessIgnoresOrder(a: seq<Source>, b: seq<Source>)
    requires multiset(a) == multiset(b)
    ensures PlanGroup(a).Ok? == PlanGroup(b).Ok?
  {
    MembersAgree(a, b);
    SuccessSpreads(a, b);
    SuccessSpreads(b, a);
  }

  lemma SuccessSpreads(a: seq<Source>, b: seq<Source>)
    requires |a| == |b| && forall s :: s in a <==> s in b
    ensures PlanGroup(a).Ok? ==> PlanGroup(b).Ok?
  {
    if PlanGroup(a).Ok? {
      assert b[0] in b;
      assert CardIdentity(b[0].card) == CardIdentity(a[0].card);
      assert OneIdentity(b, CardIdentity(b[0].card));
      MaxRevisionIsMonotone(b, a);
    }
  }

  /** With readable dates and one spelling of the word, the plan is a function of the set of cards:
      any order of the input gives the same plan. */
  lemma PlanIgnoresOrder(a: seq<Source>, b: seq<Source>)
    requires multiset(a) == multiset(b) && DistinctIds(a) && AllDated(a) && SameWord(a)
    requires PlanGroup(a).Ok?
    ensures PlanGroup(b) == PlanGroup(a)
  {
    SuccessIgnoresOrder(a, b);
    assert a[0].card.word == b[0].card.word && CardIdentity(a[0].card) == CardIdentity(b[0].card) by {
      MembersAgree(a, b);
      HeadsAgree(a, b);
    }
    AggregatesIgnoreOrder(a, b);
    RankingIgnoresOrder(a, b);
    LosersIgnoreOrder(a, b, PlanGroup(a).value.primaryId);
    PlanIsAssembled(a);
    PlanIsAssembled(b);
    assert PartsOf(a) == PartsOf(b);
  }

  lemma PlanIsAssembled(cards: seq<Source>)
    requires PlanGroup(cards).Ok?
    ensures cards != [] && CardIdentity(cards[0].card).Some?
    ensures PlanGroup(cards) == Ok(Assemble(PartsOf(cards)))
    ensures PlanGroup(cards).value.primaryId == Canonical(CardIdentity(cards[0].card).value)
  {
  }

  lemma HeadsAgree(a: seq<Source>, b: seq<Source>)
    requires |a| == |b| && (forall s :: s in a <==> s in b) && SameWord(a) && PlanGroup(a).Ok?
    ensures a[0].card.word == b[0].card.word && CardIdentity(a[0].card) == CardIdentity(b[0].card)
  {
    assert a[0] in a && b[0] in b;
  }

  // ----- exactly when the order of the input shows -----

  /** Two different cards, neither ranked above the other, with nothing ranked above them: possible
      only when both creation dates are unreadable, since the comparator then skips the ids. */
  ghost predicate TiedLeaders(cards: seq<Source>) {
    exists x, y :: x in cards && y in cards && x != y && Leads(x, cards) && Leads(y, cards)
  }

  ghost predicate Leads(x: Source, cards: seq<Source>) {
    forall s :: s in cards ==> !Before(s, x)
  }

  /** The two choices that the rest of the migration compares: the word and the strongest card. */
  ghost predicate SameChoice(p: Plan, q: Plan) {
    p.normalizedWord == q.normalizedWord && p.strongestSourceId == q.strongestSourceId
  }

  ghost predicate ChoiceIgnoresOrder(cards: seq<Source>) {
    forall a, b :: multiset(a) == multiset(cards) && multiset(b) == multiset(cards)
      && PlanGroup(a).Ok? && PlanGroup(b).Ok?
      ==> SameChoice(PlanGroup(a).value, PlanGroup(b).value)
  }

  function MoveToFront(cards: seq<Source>, k: nat): seq<Source>
    requires k < |cards|
  {
    [cards[k]] + cards[..k] + cards[k + 1..]
  }

  lemma MoveToFrontKeepsElements(cards: seq<Source>, k: nat)
    requires k < |cards|
    ensures multiset(MoveToFront(cards, k)) == multiset(cards)
  {
    assert cards == cards[..k] + [cards[k]] + cards[k + 1..];
  }

  lemma StrongestLeads(cards: seq<Source>)
    requires cards != []
    ensures Sort(Before, cards)[0] in cards && Leads(Sort(Before, cards)[0], cards)
  {
    var ranked := Sort(Before, cards);
    assert Sorted(Before, ranked) && StrictWeakOrder(Before) by {
      RankingIsAnOrder();
      SortSorts(Before, cards);
    }
    SortKeepsElements(Before, cards);
    MembersAgree(cards, ranked);
    assert ranked[0] in ranked;
    forall s | s in cards ensures !Before(s, ranked[0]) {
      HeadIsFirst(Before, ranked, s);
      NeverBothBefore(ranked[0], ranked[0], 0);
    }
  }

  /** Among tied leaders the sort keeps the one that came first. */
  lemma FirstLeaderWins(cards: seq<Source>)
    requires cards != [] && Leads(cards[0], cards)
    ensures Sort(Before, cards)[0] == cards[0]
  {
    var t := Sort(Before, cards[1..]);
    if t != [] {
      SortKeepsElements(Before, cards[1..]);
      MembersAgree(cards[1..], t);
      assert t[0] in t;
      assert t[0] in cards;
    }
  }

  /** For the word and the strongest card: they ignore the order unless a lexeme group's cards spell the
      word differently, or undated cards tie for strongest. */
  lemma ChoiceIgnoresOrderExactly(cards: seq<Source>)
    requires PlanGroup(cards).Ok? && DistinctIds(cards)
    ensures ChoiceIgnoresOrder(cards) <==> SameWord(cards) && !TiedLeaders(cards)
  {
    if SameWord(cards) && !TiedLeaders(cards) {
      forall a, b | multiset(a) == multiset(cards) && multiset(b) == multiset(cards)
                 && PlanGroup(a).Ok? && PlanGroup(b).Ok?
        ensures SameChoice(PlanGroup(a).value, PlanGroup(b).value)
      {
        ChoiceOfUntied(cards, a, b);
      }
    }
    if ChoiceIgnoresOrder(cards) {
      forall s, t | s in cards && t in cards ensures s.card.word == t.card.word {
        FrontDecides(cards, s, t);
      }
      forall x, y | x in cards && y in cards && x != y && Leads(x, cards) && Leads(y, cards)
        ensures false
      {
        FrontDecides(cards, x, y);
      }
    }
  }

  lemma ChoiceOfUntied(cards: seq<Source>, a: seq<Source>, b: seq<Source>)
    requires SameWord(cards) && !TiedLeaders(cards)
    requires multiset(a) == multiset(cards) && multiset(b) == multiset(cards)
    requires PlanGroup(a).Ok? && PlanGroup(b).Ok?
    ensures SameChoice(PlanGroup(a).value, PlanGroup(b).value)
  {
    MembersAgree(a, cards);
    MembersAgree(b, cards);
    StrongestLeads(a);
    StrongestLeads(b);
    assert a[0] in a && b[0] in b;
    var x, y := Sort(Before, a)[0], Sort(Before, b)[0];
    assert Leads(x, cards) && Leads(y, cards);
  }

  /** Whichever card is put first lends its word to the plan, and wins if it is a leader. */
  lemma FrontCardDecides(cards: seq<Source>, x: Source) returns (front: seq<Source>)
    requires PlanGroup(cards).Ok? && x in cards
    ensures multiset(front) == multiset(cards) && PlanGroup(front).Ok?
    ensures x.card.word == Some(PlanGroup(front).value.normalizedWord)
    ensures Leads(x, cards) ==> PlanGroup(front).value.strongestSourceId == x.id
  {
    var i :| 0 <= i < |cards| && cards[i] == x;
    front := MoveToFront(cards, i);
    MoveToFrontKeepsElements(cards, i);
    SuccessIgnoresOrder(cards, front);
    MembersAgree(cards, front);
    if Leads(x, cards) { FirstLeaderWins(front); }
  }

  lemma FrontDecides(cards: seq<Source>, x: Source, y: Source)
    requires PlanGroup(cards).Ok? && DistinctIds(cards) && ChoiceIgnoresOrder(cards)
    requires x in cards && y in cards
    ensures x.card.word == y.card.word
    ensures Leads(x, cards) && Leads(y, cards) ==> x == y
  {
    var a := FrontCardDecides(cards, x);
    var b := FrontCardDecides(cards, y);
    assert SameChoice(PlanGroup(a).value, PlanGroup(b).value);
  }

  // ----- the whole plan -----

  predicate Bears(x: Source, field: Field) {
    FieldOf(x.card, field).Some?
  }

  function Bearers(cards: seq<Source>, field: Field): seq<Source> {
    Filter((s: Source) => Bears(s, field), cards)
  }

  lemma {:induction false} FirstOfBearers(ranked: seq<Source>, field: Field)
    ensures FirstOf(ranked, field) ==
      if Bearers(ranked, field) == [] then None else FieldOf(Bearers(ranked, field)[0].card, field)
  {
    if ranked != [] { FirstOfBearers(ranked[1..], field); }
  }

  /** The merged card takes a field from the strongest of the cards that have one. */
  lemma FieldOfStrongestBearer(cards: seq<Source>, field: Field)
    ensures FirstOf(Sort(Before, cards), field) ==
      if Bearers(cards, field) == [] then None
      else FieldOf(Sort(Before, Bearers(cards, field))[0].card, field)
  {
    FirstOfBearers(Sort(Before, cards), field);
    RankingIsAnOrder();
    FilterOfSort(Before, (s: Source) => Bears(s, field), cards);
  }

  /** A card with the field, and nothing with the field ranked above it. */
  ghost predicate Heads(x: Source, cards: seq<Source>, field: Field) {
    x in cards && Bears(x, field) && forall s :: s in cards && Bears(s, field) ==> !Before(s, x)
  }

  ghost predicate HeadsConcur(cards: seq<Source>, field: Field) {
    forall x, y :: Heads(x, cards, field) && Heads(y, cards, field) ==> FieldOf(x.card, field) == FieldOf(y.card, field)
  }

  /** Some head, or nobody, decides the field. */
  lemma HeadDecides(cards: seq<Source>, field: Field)
    ensures if FirstOf(Sort(Before, cards), field).None? then Bearers(cards, field) == []
            else exists x :: Heads(x, cards, field) && FieldOf(x.card, field) == FirstOf(Sort(Before, cards), field)
  {
    FieldOfStrongestBearer(cards, field);
    var bearers := Bearers(cards, field);
    if bearers != [] {
      StrongestLeads(bearers);
      assert Heads(Sort(Before, bearers)[0], cards, field);
    }
  }

  lemma FieldIgnoresOrder(a: seq<Source>, b: seq<Source>, field: Field)
    requires multiset(a) == multiset(b) && HeadsConcur(a, field)
    ensures FirstOf(Sort(Before, a), field) == FirstOf(Sort(Before, b), field)
  {
    MembersAgree(a, b);
    HeadDecides(a, field);
    HeadDecides(b, field);
    forall x ensures Heads(x, a, field) <==> Heads(x, b, field) {}
    if Bearers(a, field) != [] { assert Bearers(a, field)[0] in Bearers(a, field); }
    if Bearers(b, field) != [] { assert Bearers(b, field)[0] in Bearers(b, field); }
  }

  ghost predicate PlanIsOrderFree(cards: seq<Source>) {
    forall a, b :: multiset(a) == multiset(cards) && multiset(b) == multiset(cards) ==> PlanGroup(a) == PlanGroup(b)
  }

  /** The exact condition for the whole plan: one spelling, no tie for the lead, and for each of the three
      fields no two cards that tie for the lead among those that have it and disagree about it. */
  lemma PlanIgnoresOrderExactly(cards: seq<Source>)
    requires PlanGroup(cards).Ok? && DistinctIds(cards)
    ensures PlanIsOrderFree(cards)
       <==> SameWord(cards) && !TiedLeaders(cards) && forall field :: HeadsConcur(cards, field)
  {
    ChoiceIgnoresOrderExactly(cards);
    if SameWord(cards) && !TiedLeaders(cards) && forall field :: HeadsConcur(cards, field) {
      forall a, b | multiset(a) == multiset(cards) && multiset(b) == multiset(cards)
        ensures PlanGroup(a) == PlanGroup(b)
      {
        PlanOfUntied(cards, a);
        PlanOfUntied(cards, b);
      }
    }
    if PlanIsOrderFree(cards) {
      assert ChoiceIgnoresOrder(cards);
      forall field ensures HeadsConcur(cards, field) {
        forall x, y | Heads(x, cards, field) && Heads(y, cards, field)
          ensures FieldOf(x.card, field) == FieldOf(y.card, field)
        {
          var a := FrontHeadDecides(cards, x, field);
          var b := FrontHeadDecides(cards, y, field);
          assert PlanGroup(a) == PlanGroup(b);
        }
      }
    }
  }

  lemma PlanOfUntied(cards: seq<Source>, a: seq<Source>)
    requires PlanGroup(cards).Ok? && DistinctIds(cards) && SameWord(cards) && !TiedLeaders(cards)
    requires forall field :: HeadsConcur(cards, field)
    requires multiset(a) == multiset(cards)
    ensures PlanGroup(a) == PlanGroup(cards)
  {
    SuccessIgnoresOrder(cards, a);
    MembersAgree(cards, a);
    HeadsAgree(cards, a);
    AggregatesIgnoreOrder(cards, a);
    LosersIgnoreOrder(cards, a, PlanGroup(cards).value.primaryId);
    PlanIsAssembled(cards);
    PlanIsAssembled(a);
    StrongestLeads(cards);
    StrongestLeads(a);
    assert Leads(Sort(Before, a)[0], cards);
    forall field ensures FirstOf(Sort(Before, a), field) == FirstOf(Sort(Before, cards), field) {
      FieldIgnoresOrder(cards, a, field);
    }
    AssembledAlike(PartsOf(cards), PartsOf(a));
  }

  /** Of the ranking the plan uses the leader and the first of each field. */
  lemma AssembledAlike(p: Parts, q: Parts)
    requires p.ranked != [] && q.ranked != [] && q == p.(ranked := q.ranked) && p.ranked[0] == q.ranked[0]
    requires forall field :: FirstOf(q.ranked, field) == FirstOf(p.ranked, field)
    ensures Assemble(p) == Assemble(q)
  {
  }

  /** Put first, a head lends its field to the plan. */
  lemma FrontHeadDecides(cards: seq<Source>, x: Source, field: Field) returns (front: seq<Source>)
    requires PlanGroup(cards).Ok? && Heads(x, cards, field)
    ensures multiset(front) == multiset(cards) && PlanGroup(front).Ok?
    ensures FieldOf(PlanGroup(front).value.merged, field) == FieldOf(x.card, field)
  {
    var i :| 0 <= i < |cards| && cards[i] == x;
    front := MoveToFront(cards, i);
    MoveToFrontKeepsElements(cards, i);
    SuccessIgnoresOrder(cards, front);
    MembersAgree(cards, front);
    FieldOfStrongestBearer(front, field);
    assert front[0] == x && Bearers(front, field)[0] == x;
    FirstLeaderWins(Bearers(front, field));
  }

  // ----- what the merged card holds, read off the sources -----

  /** The ranking in full: repetitions, reviews, history, streak, stability, bookmark, revision; then the
      earlier readable date, and between equal dates the id. */
  ghost predicate Outdoes(a: Source, b: Source) {
    var x, y := a.card, b.card;
    if x.reps != y.reps then x.reps > y.reps
    else if x.reviews != y.reviews then x.reviews > y.reviews
    else if x.history != y.history then x.history > y.history
    else if x.streak != y.streak then x.streak > y.streak
    else if x.stability != y.stability then x.stability > y.stability
    else if x.bookmarked != y.bookmarked then x.bookmarked
    else if x.revision != y.revision then x.revision > y.revision
    else if x.createdAt.None? || y.createdAt.None? then x.createdAt.Some? && y.createdAt.None?
    else if x.createdAt.value != y.createdAt.value then x.createdAt.value < y.createdAt.value
    else IdRank(a.id) < IdRank(b.id)
  }

  lemma RankedAt(a: Source, b: Source, i: nat)
    requires i < TUPLE_LENGTH
    ensures BeforeFrom(a, b, i) <==>
      if ProgressTuple(a.card)[i] != ProgressTuple(b.card)[i] then ProgressTuple(a.card)[i] > ProgressTuple(b.card)[i]
      else BeforeFrom(a, b, i + 1)
  {
  }

  lemma RankingIsOutdoing(a: Source, b: Source)
    ensures Before(a, b) <==> Outdoes(a, b)
  {
    RankedAt(a, b, 0);
    RankedAt(a, b, 1);
    RankedAt(a, b, 2);
    RankedAt(a, b, 3);
    RankedAt(a, b, 4);
    RankedAt(a, b, 5);
    RankedAt(a, b, 6);
  }

  ghost predicate Unbeaten(x: Source, cards: seq<Source>) {
    x in cards && forall y :: y in cards ==> !Outdoes(y, x)
  }

  /** A field of the merged card: from an unbeaten card among those that have it, or from nobody. */
  ghost predicate FromStrongest(value: Option<nat>, cards: seq<Source>, get: Card -> Option<nat>) {
    if exists x :: x in cards && get(x.card).Some?
    then exists x :: x in cards && get(x.card).Some? && value == get(x.card)
                     && forall y :: y in cards && get(y.card).Some? ==> !Outdoes(y, x)
    else value.None?
  }

  ghost predicate CarriesProgress(c: Card, x: Card) {
    && c.reps == x.reps && c.reviews == x.reviews && c.streak == x.streak && c.stability == x.stability
    && c.history == (if x.history <= 100 then x.history else 100) && c.text == x.text
  }

  /** The earliest readable date, or the epoch if none can be read. */
  ghost predicate EarliestOf(date: Option<int>, cards: seq<Source>) {
    && date.Some?
    && (forall x :: x in cards && x.card.createdAt.Some? ==> date.value <= x.card.createdAt.value)
    && ((exists x :: x in cards && x.card.createdAt == date)
        || (date.value == 0 && forall x :: x in cards ==> x.card.createdAt.None?))
  }

  ghost predicate NextRevision(revision: nat, cards: seq<Source>) {
    && (forall x :: x in cards ==> x.card.revision < revision)
    && (exists x :: x in cards && revision == x.card.revision + 1) && revision <= MAX_SAFE_INTEGER
  }

  /** A card merged from the sources. */
  ghost predicate Merges(c: Card, cards: seq<Source>) {
    && (exists x :: Unbeaten(x, cards) && CarriesProgress(c, x.card))
    && (c.bookmarked <==> exists x :: x in cards && x.card.bookmarked)
    && EarliestOf(c.createdAt, cards) && NextRevision(c.revision, cards)
    && FromStrongest(c.audio, cards, (x: Card) => x.audio)
    && FromStrongest(c.image, cards, (x: Card) => x.image)
    && FromStrongest(c.query, cards, (x: Card) => x.query)
    && (exists x :: x in cards && c.word == x.card.word)
    && forall x :: x in cards ==> CardIdentity(x.card) == CardIdentity(c)
  }

  lemma BearerIsStrongest(cards: seq<Source>, field: Field, get: Card -> Option<nat>)
    requires forall c :: get(c) == FieldOf(c, field)
    ensures FromStrongest(FirstOf(Sort(Before, cards), field), cards, get)
  {
    HeadDecides(cards, field);
    forall x, y ensures Before(x, y) <==> Outdoes(x, y) { RankingIsOutdoing(x, y); }
    var value := FirstOf(Sort(Before, cards), field);
    if value.Some? {
      var x :| Heads(x, cards, field) && FieldOf(x.card, field) == value;
      assert x in cards && get(x.card).Some?;
    } else {
      forall x | x in cards && get(x.card).Some? ensures false { BearersBear(cards, field, x); }
    }
  }

  lemma BearersBear(cards: seq<Source>, field: Field, x: Source)
    requires x in cards && Bears(x, field)
    ensures Bearers(cards, field) != []
  {
    assert x in Bearers(cards, field);
  }

  lemma StrongestIsUnbeaten(cards: seq<Source>)
    requires cards != []
    ensures Unbeaten(Sort(Before, cards)[0], cards)
  {
    StrongestLeads(cards);
    forall y | y in cards ensures !Outdoes(y, Sort(Before, cards)[0]) { RankingIsOutdoing(y, Sort(Before, cards)[0]); }
  }

  lemma MergedDate(cards: seq<Source>)
    ensures EarliestOf(Some(if EarliestDate(cards).Some? then EarliestDate(cards).value else 0), cards)
  {
    EarliestDateBounds(cards);
  }

  function CanonicalFor(card: Card): Option<CardId> {
    if CardIdentity(card).Some? then Some(Canonical(CardIdentity(card).value)) else None
  }

  lemma MergedFields(cards: seq<Source>, c: Card)
    requires PlanGroup(cards).Ok? && c == PlanGroup(cards).value.merged
    ensures FromStrongest(c.audio, cards, (x: Card) => x.audio)
    ensures FromStrongest(c.image, cards, (x: Card) => x.image)
    ensures FromStrongest(c.query, cards, (x: Card) => x.query)
  {
    BearerIsStrongest(cards, Audio, (x: Card) => x.audio);
    BearerIsStrongest(cards, Image, (x: Card) => x.image);
    BearerIsStrongest(cards, Query, (x: Card) => x.query);
  }

  lemma MergedNumbers(cards: seq<Source>, c: Card)
    requires PlanGroup(cards).Ok? && c == PlanGroup(cards).value.merged
    ensures EarliestOf(c.createdAt, cards) && NextRevision(c.revision, cards)
    ensures c.bookmarked <==> exists x :: x in cards && x.card.bookmarked
  {
    assert cards[0] in cards;
    MergedCardConserves(cards);
    MergedDate(cards);
    MaxRevisionBounds(cards);
  }

  lemma MergedProgress(cards: seq<Source>, c: Card)
    requires PlanGroup(cards).Ok? && c == PlanGroup(cards).value.merged
    ensures exists x :: Unbeaten(x, cards) && CarriesProgress(c, x.card)
    ensures exists x :: Unbeaten(x, cards) && x.id == PlanGroup(cards).value.strongestSourceId
  {
    var x := Sort(Before, cards)[0];
    StrongestIsUnbeaten(cards);
    assert CarriesProgress(c, x.card);
  }

  lemma MergedIdentity(cards: seq<Source>, p: Plan)
    requires PlanGroup(cards) == Ok(p)
    ensures p.merged.word == Some(p.normalizedWord) && exists x :: x in cards && p.merged.word == x.card.word
    ensures forall x :: x in cards ==> CardIdentity(x.card) == CardIdentity(p.merged)
    ensures CanonicalFor(p.merged) == Some(p.primaryId)
  {
    assert cards[0] in cards;
  }

  /** The merged card of a plan, read off the cards it merges; the plan names a strongest one, and the
      canonical id of their identity. */
  lemma PlanMerges(cards: seq<Source>, p: Plan)
    requires PlanGroup(cards) == Ok(p)
    ensures Merges(p.merged, cards)
    ensures exists x :: Unbeaten(x, cards) && x.id == p.strongestSourceId
    ensures CanonicalFor(p.merged) == Some(p.primaryId) && p.merged.word == Some(p.normalizedWord)
  {
    MergedProgress(cards, p.merged);
    MergedIdentity(cards, p);
    MergedNumbers(cards, p.merged);
    MergedFields(cards, p.merged);
  }

  // ----- two inputs whose order shows -----

  function Sample(word: nat, lexeme: LexemeFields, createdAt: Option<int>): Card {
    Card(Some(word), lexeme, 0, 0, 0, 0, 0.0, false, 0, createdAt, None, None, None, 0, 0)
  }

  /** One lexeme, two spellings: the plan takes the spelling of whichever card comes first. */
  lemma SpellingFollowsOrder()
    ensures
      var a := Source(Plain(0), Sample(1, Valid(7), Some(0)));
      var b := Source(Plain(1), Sample(2, Valid(7), Some(0)));
      PlanGroup([a, b]).Ok? && PlanGroup([b, a]).Ok?
      && PlanGroup([a, b]).value.normalizedWord != PlanGroup([b, a]).value.normalizedWord
  {
    var a := Source(Plain(0), Sample(1, Valid(7), Some(0)));
    var b := Source(Plain(1), Sample(2, Valid(7), Some(0)));
    PairPlans(a, b);
    PairPlans(b, a);
  }

  /** Two cards with unreadable dates: the strongest is whichever comes first. */
  lemma UndatedTieFollowsOrder()
    ensures
      var a := Source(Plain(0), Sample(1, NoTuple, None));
      var b := Source(Plain(1), Sample(1, NoTuple, None));
      PlanGroup([a, b]).Ok? && PlanGroup([b, a]).Ok?
      && PlanGroup([a, b]).value.strongestSourceId == a.id
      && PlanGroup([b, a]).value.strongestSourceId == b.id
  {
    var a := Source(Plain(0), Sample(1, NoTuple, None));
    var b := Source(Plain(1), Sample(1, NoTuple, None));
    PairPlans(a, b);
    PairPlans(b, a);
    assert !BeforeFrom(a, b, 7) && !BeforeFrom(b, a, 7);
    assert !BeforeFrom(a, b, 5) && !BeforeFrom(b, a, 5);
    assert !BeforeFrom(a, b, 3) && !BeforeFrom(b, a, 3);
    assert !Before(a, b) && !Before(b, a);
    FirstLeaderWins([a, b]);
    FirstLeaderWins([b, a]);
  }

  /** Three cards without a tie for the lead: two undated ones tie for the lead among those with an image,
      and the plan takes the image of whichever of them comes first. */
  lemma ImageFollowsOrder()
    ensures exists a, b, c :: OrderShowsInImage(a, b, c)
  {
    var lead, undated := Sample(1, NoTuple, Some(0)).(reps := 1), Sample(1, NoTuple, None);
    var a, b, c := Source(Plain(0), lead), Source(Plain(1), undated.(image := Some(1))),
                   Source(Plain(2), undated.(image := Some(2)));
    LeadIsClear(a, b, c);
    UndatedTie(b, c, 0);
    UndatedTie(c, b, 0);
    OrderShows(a, b, c);
  }

  ghost predicate OrderShowsInImage(a: Source, b: Source, c: Source) {
    && DistinctIds([a, b, c]) && SameWord([a, b, c]) && !TiedLeaders([a, b, c])
    && PlanGroup([a, b, c]).Ok? && PlanGroup([a, c, b]).Ok?
    && PlanGroup([a, b, c]).value.merged.image != PlanGroup([a, c, b]).value.merged.image
  }

  lemma {:induction false} UndatedTie(x: Source, y: Source, i: nat)
    requires i <= TUPLE_LENGTH && ProgressTuple(x.card) == ProgressTuple(y.card)
    requires x.card.createdAt.None? && y.card.createdAt.None?
    ensures !BeforeFrom(x, y, i)
    decreases TUPLE_LENGTH - i
  {
    if i < TUPLE_LENGTH { UndatedTie(x, y, i + 1); }
  }

  lemma OrderShows(a: Source, b: Source, c: Source)
    requires CardIdentity(a.card).Some? && OneIdentity([a, b, c], CardIdentity(a.card))
    requires DistinctIds([a, b, c]) && SameWord([a, b, c]) && !TiedLeaders([a, b, c])
    requires a.card.revision == 0 && b.card.revision == 0 && c.card.revision == 0
    requires a.card.image.None? && b.card.image.Some? && c.card.image.Some? && b.card.image != c.card.image
    requires !Before(c, b) && !Before(b, c)
    ensures OrderShowsInImage(a, b, c)
  {
    forall s ensures s in [a, b, c] <==> s in [a, c, b] {}
    TripleImage(a, b, c);
    TripleImage(a, c, b);
  }

  lemma LeadIsClear(a: Source, b: Source, c: Source)
    requires a.card.reps > b.card.reps && a.card.reps > c.card.reps
    ensures !TiedLeaders([a, b, c])
  {
    assert a in [a, b, c];
    assert Before(a, b) && Before(a, c);
  }

  lemma TripleImage(a: Source, b: Source, c: Source)
    requires CardIdentity(a.card).Some? && OneIdentity([a, b, c], CardIdentity(a.card))
    requires a.card.revision == 0 && b.card.revision == 0 && c.card.revision == 0
    requires a.card.image.None? && b.card.image.Some? && c.card.image.Some? && !Before(c, b)
    ensures PlanGroup([a, b, c]).Ok? && PlanGroup([a, b, c]).value.merged.image == b.card.image
  {
    MaxRevisionBounds([a, b, c]);
    FieldOfStrongestBearer([a, b, c], Image);
    assert [a, b, c][1..] == [b, c] && [b, c][1..] == [c] && [c][1..] == [];
    assert Bearers([c], Image) == [c] && Bearers([b, c], Image) == [b, c] && Bearers([a, b, c], Image) == [b, c];
    NeverBothBefore(b, b, 0);
    FirstLeaderWins([b, c]);
  }

  lemma PairPlans(a: Source, b: Source)
    requires CardIdentity(a.card).Some? && CardIdentity(a.card) == CardIdentity(b.card)
    requires a.card.revision == 0 && b.card.revision == 0
    ensures PlanGroup([a, b]).Ok?
    ensures Some(PlanGroup([a, b]).value.normalizedWord) == a.card.word
  {
    MaxRevisionBounds([a, b]);
    assert [a, b][0] == a;
  }
}
