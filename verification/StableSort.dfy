/**
 The stable sort that JavaScript's Array.prototype.sort promises for a consistent
 comparator, and the facts about it the other components use.  `before(a, b)` is
 "the comparator is negative"; ties keep their input order.
 */
module StableSort {

  /** A strict weak order: ties are transitive, so "sorted" has a meaning. */
  ghost predicate StrictWeakOrder<T(!new)>(before: (T, T) -> bool) {
    && (forall a, b :: before(a, b) ==> !before(b, a))
    && (forall a, b, c :: !before(b, a) && !before(c, b) ==> !before(c, a))
  }

  function Insert<T>(before: (T, T) -> bool, x: T, s: seq<T>): (r: seq<T>)
    ensures |r| == |s| + 1
  {
    if s == [] || !before(s[0], x) then [x] + s else [s[0]] + Insert(before, x, s[1..])
  }

  function Sort<T>(before: (T, T) -> bool, s: seq<T>): (r: seq<T>)
    ensures |r| == |s|
  {
    if s == [] then [] else Insert(before, s[0], Sort(before, s[1..]))
  }

  ghost predicate Sorted<T>(before: (T, T) -> bool, s: seq<T>) {
    forall i, j :: 0 <= i < j < |s| ==> !before(s[j], s[i])
  }

  function Filter<T(!new)>(p: T -> bool, s: seq<T>): (r: seq<T>)
    ensures |r| <= |s|
    ensures forall x :: x in r <==> x in s && p(x)
  {
    if s == [] then []
    else if p(s[0]) then [s[0]] + Filter(p, s[1..])
    else Filter(p, s[1..])
  }

  lemma {:induction false} InsertKeepsElements<T>(before: (T, T) -> bool, x: T, s: seq<T>)
    ensures multiset(Insert(before, x, s)) == multiset{x} + multiset(s)
  {
    if s == [] || !before(s[0], x) {
    } else {
      InsertKeepsElements(before, x, s[1..]);
      assert s == [s[0]] + s[1..];
    }
  }

  lemma {:induction false} SortKeepsElements<T>(before: (T, T) -> bool, s: seq<T>)
    ensures multiset(Sort(before, s)) == multiset(s)
  {
    if s != [] {
      SortKeepsElements(before, s[1..]);
      InsertKeepsElements(before, s[0], Sort(before, s[1..]));
      assert s == [s[0]] + s[1..];
    }
  }

  lemma MembersAgree<T>(a: seq<T>, b: seq<T>)
    requires multiset(a) == multiset(b)
    ensures |a| == |b|
    ensures forall x :: x in a <==> x in b
  {
    assert |multiset(a)| == |a| && |multiset(b)| == |b|;
    forall x ensures x in a <==> x in b {
      assert x in a <==> x in multiset(a);
      assert x in b <==> x in multiset(b);
    }
  }

  lemma {:induction false} InsertSorted<T(!new)>(before: (T, T) -> bool, x: T, s: seq<T>)
    requires StrictWeakOrder(before) && Sorted(before, s)
    ensures Sorted(before, Insert(before, x, s))
  {
    if s == [] || !before(s[0], x) {
      forall j | 0 <= j < |s| ensures !before(s[j], x) {
        if j > 0 { assert !before(s[j], s[0]); }
      }
    } else {
      var t := s[1..];
      assert Sorted(before, t);
      InsertSorted(before, x, t);
      var r := Insert(before, x, t);
      InsertKeepsElements(before, x, t);
      forall j | 0 <= j < |r| ensures !before(r[j], s[0]) {
        assert r[j] in multiset(r);
        if r[j] != x {
          assert r[j] in t;
          var k :| 0 <= k < |t| && t[k] == r[j];
          assert !before(s[k + 1], s[0]);
        }
      }
    }
  }

  lemma {:induction false} SortSorts<T(!new)>(before: (T, T) -> bool, s: seq<T>)
    requires StrictWeakOrder(before)
    ensures Sorted(before, Sort(before, s))
  {
    if s != [] {
      SortSorts(before, s[1..]);
      InsertSorted(before, s[0], Sort(before, s[1..]));
    }
  }

  /** A sequence already in order is left as it is: the sort is stable. */
  lemma {:induction false} SortedIsFixed<T>(before: (T, T) -> bool, s: seq<T>)
    requires Sorted(before, s)
    ensures Sort(before, s) == s
  {
    if s != [] {
      SortedIsFixed(before, s[1..]);
      assert |s| > 1 ==> !before(s[1], s[0]);
    }
  }

  /** In a sorted sequence, the elements that x precedes or ties with form a tail. */
  ghost predicate Cut<T>(before: (T, T) -> bool, x: T, s: seq<T>) {
    forall i, j :: 0 <= i < j < |s| && !before(s[i], x) ==> !before(s[j], x)
  }

  lemma SortedCut<T(!new)>(before: (T, T) -> bool, x: T, s: seq<T>)
    requires StrictWeakOrder(before) && Sorted(before, s)
    ensures Cut(before, x, s)
  {
  }

  lemma {:induction false} FilterOfSnoc<T(!new)>(p: T -> bool, s: seq<T>, x: T)
    ensures Filter(p, s + [x]) == Filter(p, s) + (if p(x) then [x] else [])
  {
    if s == [] {
      assert [] + [x] == [x] && [x][1..] == [];
    } else {
      assert (s + [x])[0] == s[0] && (s + [x])[1..] == s[1..] + [x];
      FilterOfSnoc(p, s[1..], x);
    }
  }

  lemma FilterOfCons<T(!new)>(p: T -> bool, x: T, s: seq<T>)
    ensures Filter(p, [x] + s) == if p(x) then [x] + Filter(p, s) else Filter(p, s)
  {
    assert ([x] + s)[1..] == s;
  }

  lemma InsertAtHead<T>(before: (T, T) -> bool, x: T, s: seq<T>)
    requires forall y :: y in s ==> !before(y, x)
    ensures Insert(before, x, s) == [x] + s
  {
  }

  lemma InsertPastHead<T>(before: (T, T) -> bool, x: T, y: T, s: seq<T>)
    requires before(y, x)
    ensures Insert(before, x, [y] + s) == [y] + Insert(before, x, s)
  {
    assert ([y] + s)[1..] == s;
  }

  lemma {:induction false} FilterOfInsert<T(!new)>(before: (T, T) -> bool, p: T -> bool, x: T, s: seq<T>)
    requires Cut(before, x, s)
    ensures Filter(p, Insert(before, x, s)) == if p(x) then Insert(before, x, Filter(p, s)) else Filter(p, s)
  {
    if s == [] || !before(s[0], x) {
      forall y | y in s ensures !before(y, x) {
        var j :| 0 <= j < |s| && s[j] == y;
        assert j > 0 ==> !before(s[0], x) ==> !before(s[j], x);
      }
      FilterOfCons(p, x, s);
      InsertAtHead(before, x, Filter(p, s));
    } else {
      var t := s[1..];
      assert Cut(before, x, t);
      FilterOfInsert(before, p, x, t);
      assert s == [s[0]] + t;
      InsertPastHead(before, x, s[0], t);
      FilterOfCons(p, s[0], Insert(before, x, t));
      FilterOfCons(p, s[0], t);
      InsertPastHead(before, x, s[0], Filter(p, t));
    }
  }

  /** Sorting then selecting is selecting then sorting. */
  lemma {:induction false} FilterOfSort<T(!new)>(before: (T, T) -> bool, p: T -> bool, s: seq<T>)
    requires StrictWeakOrder(before)
    ensures Filter(p, Sort(before, s)) == Sort(before, Filter(p, s))
  {
    if s != [] {
      var t := Sort(before, s[1..]);
      FilterOfSort(before, p, s[1..]);
      assert Cut(before, s[0], t) by {
        SortSorts(before, s[1..]);
        SortedCut(before, s[0], t);
      }
      FilterOfInsert(before, p, s[0], t);
      assert s == [s[0]] + s[1..];
      FilterOfCons(p, s[0], s[1..]);
      SortOfCons(before, s[0], Filter(p, s[1..]));
    }
  }

  lemma SortOfCons<T>(before: (T, T) -> bool, x: T, s: seq<T>)
    ensures Sort(before, [x] + s) == Insert(before, x, Sort(before, s))
  {
    assert ([x] + s)[1..] == s;
  }

  /** Two sorted arrangements of the same elements agree when distinct elements never tie. */
  lemma {:induction false} SortedIsUnique<T(!new)>(before: (T, T) -> bool, a: seq<T>, b: seq<T>)
    requires multiset(a) == multiset(b)
    requires Sorted(before, a) && Sorted(before, b)
    requires forall x, y :: x in a && y in a && x != y ==> before(x, y) || before(y, x)
    ensures a == b
  {
    MembersAgree(a, b);
    if a != [] {
      assert a[0] in b && b[0] in a;
      HeadIsFirst(before, a, b[0]);
      HeadIsFirst(before, b, a[0]);
      TailMultiset(a);
      TailMultiset(b);
      SortedIsUnique(before, a[1..], b[1..]);
    }
  }

  lemma TailMultiset<T>(s: seq<T>)
    requires s != []
    ensures multiset(s[1..]) == multiset(s) - multiset{s[0]} && s == [s[0]] + s[1..]
    ensures forall x :: x in s[1..] ==> x in s
  {
    assert s == [s[0]] + s[1..];
  }

  lemma HeadIsFirst<T>(before: (T, T) -> bool, s: seq<T>, y: T)
    requires Sorted(before, s) && y in s
    ensures y == s[0] || !before(y, s[0])
  {
  }

  // ----- classes of ties -----

  function TiedWith<T>(before: (T, T) -> bool, x: T): T -> bool {
    y => !before(x, y) && !before(y, x)
  }

  lemma {:induction false} FilterAgrees<T(!new)>(p: T -> bool, q: T -> bool, s: seq<T>)
    requires forall x :: x in s ==> p(x) == q(x)
    ensures Filter(p, s) == Filter(q, s)
  {
    if s != [] { FilterAgrees(p, q, s[1..]); }
  }

  /** A sequence of ties is left as it is. */
  lemma SortOfTies<T(!new)>(before: (T, T) -> bool, x: T, s: seq<T>)
    requires StrictWeakOrder(before)
    ensures Sort(before, Filter(TiedWith(before, x), s)) == Filter(TiedWith(before, x), s)
  {
    var ties := Filter(TiedWith(before, x), s);
    forall i, j | 0 <= i < j < |ties| ensures !before(ties[j], ties[i]) {
      assert ties[i] in ties && ties[j] in ties;
      assert !before(ties[j], x) && !before(x, ties[i]);
    }
    SortedIsFixed(before, ties);
  }

  /** Sorting keeps every class of ties as it was. */
  lemma SortKeepsTies<T(!new)>(before: (T, T) -> bool, x: T, s: seq<T>)
    requires StrictWeakOrder(before)
    ensures Filter(TiedWith(before, x), Sort(before, s)) == Filter(TiedWith(before, x), s)
  {
    FilterOfSort(before, TiedWith(before, x), s);
    SortOfTies(before, x, s);
  }

  ghost predicate SameTies<T(!new)>(before: (T, T) -> bool, a: seq<T>, b: seq<T>) {
    forall x :: Filter(TiedWith(before, x), a) == Filter(TiedWith(before, x), b)
  }

  lemma TiesHaveHead<T(!new)>(before: (T, T) -> bool, x: T, s: seq<T>)
    requires s != [] && TiedWith(before, x)(s[0])
    ensures Filter(TiedWith(before, x), s) != [] && Filter(TiedWith(before, x), s)[0] == s[0]
  {
  }

  lemma HeadsAgree<T(!new)>(before: (T, T) -> bool, a: seq<T>, b: seq<T>)
    requires StrictWeakOrder(before) && Sorted(before, a) && Sorted(before, b) && SameTies(before, a, b) && a != []
    ensures b != [] && a[0] == b[0]
  {
    TiesHaveHead(before, a[0], a);
    assert a[0] in Filter(TiedWith(before, a[0]), b);
    TiesHaveHead(before, b[0], b);
    assert b[0] in Filter(TiedWith(before, b[0]), a);
    HeadIsFirst(before, a, b[0]);
    HeadIsFirst(before, b, a[0]);
    TiesHaveHead(before, a[0], b);
  }

  lemma TailsAgree<T(!new)>(before: (T, T) -> bool, a: seq<T>, b: seq<T>)
    requires SameTies(before, a, b) && a != [] && b != [] && a[0] == b[0]
    ensures SameTies(before, a[1..], b[1..])
  {
    forall x ensures Filter(TiedWith(before, x), a[1..]) == Filter(TiedWith(before, x), b[1..]) {
      var p := TiedWith(before, x);
      assert Filter(p, a) == Filter(p, b);
      if p(a[0]) {
        assert Filter(p, a[1..]) == Filter(p, a)[1..] && Filter(p, b[1..]) == Filter(p, b)[1..];
      }
    }
  }

  lemma NoTiesNoElements<T(!new)>(before: (T, T) -> bool, s: seq<T>)
    requires StrictWeakOrder(before) && forall x :: Filter(TiedWith(before, x), s) == []
    ensures s == []
  {
    if s != [] { TiesHaveHead(before, s[0], s); }
  }

  /** Two sorted sequences with the same classes of ties are the same. */
  lemma {:induction false} SortedByTies<T(!new)>(before: (T, T) -> bool, a: seq<T>, b: seq<T>)
    requires StrictWeakOrder(before) && Sorted(before, a) && Sorted(before, b) && SameTies(before, a, b)
    ensures a == b
    decreases |a|
  {
    if a == [] {
      NoTiesNoElements(before, b);
    } else {
      HeadsAgree(before, a, b);
      TailsAgree(before, a, b);
      SortedByTies(before, a[1..], b[1..]);
      assert a == [a[0]] + a[1..] && b == [b[0]] + b[1..];
    }
  }

  ghost predicate InPlace<T>(before: (T, T) -> bool, p: T -> bool, s: seq<T>) {
    forall i, j :: 0 <= i < j < |s| && p(s[i]) && p(s[j]) ==> !before(s[j], s[i])
  }

  /** Selected elements are in order exactly when they are in order where they stand. */
  lemma {:induction false} FilterSorted<T(!new)>(before: (T, T) -> bool, p: T -> bool, s: seq<T>)
    ensures Sorted(before, Filter(p, s)) <==> InPlace(before, p, s)
  {
    if s != [] {
      FilterSorted(before, p, s[1..]);
      ConsInPlace(before, p, s[0], s[1..]);
      assert s == [s[0]] + s[1..];
      if p(s[0]) { ConsSorted(before, s[0], Filter(p, s[1..])); }
    }
  }

  ghost predicate NoneBefore<T(!new)>(before: (T, T) -> bool, p: T -> bool, x: T, s: seq<T>) {
    forall y :: y in s && p(y) ==> !before(y, x)
  }

  lemma ConsSorted<T(!new)>(before: (T, T) -> bool, x: T, s: seq<T>)
    ensures Sorted(before, [x] + s) <==> Sorted(before, s) && forall y :: y in s ==> !before(y, x)
  {
    var all := [x] + s;
    if Sorted(before, all) {
      forall y | y in s ensures !before(y, x) {
        var k :| 0 <= k < |s| && s[k] == y;
        assert all[k + 1] == y && all[0] == x;
      }
      forall i, j | 0 <= i < j < |s| ensures !before(s[j], s[i]) {
        assert all[i + 1] == s[i] && all[j + 1] == s[j];
      }
    }
  }

  lemma ConsInPlace<T(!new)>(before: (T, T) -> bool, p: T -> bool, x: T, s: seq<T>)
    ensures InPlace(before, p, [x] + s) <==> InPlace(before, p, s) && (p(x) ==> NoneBefore(before, p, x, s))
  {
    var all := [x] + s;
    if InPlace(before, p, all) {
      forall y | y in s && p(y) && p(x) ensures !before(y, x) {
        var k :| 0 <= k < |s| && s[k] == y;
        assert all[k + 1] == y && all[0] == x;
      }
      forall i, j | 0 <= i < j < |s| && p(s[i]) && p(s[j]) ensures !before(s[j], s[i]) {
        assert all[i + 1] == s[i] && all[j + 1] == s[j];
      }
    }
    if InPlace(before, p, s) && (p(x) ==> NoneBefore(before, p, x, s)) {
      forall i, j | 0 <= i < j < |all| && p(all[i]) && p(all[j]) ensures !before(all[j], all[i]) {
        assert all[j] == s[j - 1];
        if i > 0 { assert all[i] == s[i - 1]; }
      }
    }
  }
}
