/**
 * Stable sorting by a strict weak order, which determines the result
 * (sort.SliceStable), and Go's order on strings.
 */
module Sorting {
  import opened Sequences

  /** Unordered elements count as equal, and that is transitive. */
  ghost predicate WeakOrder<T(!new)>(less: (T, T) -> bool) {
    && (forall a: T, b: T :: less(a, b) ==> !less(b, a))
    && (forall a: T, b: T, c: T :: less(a, c) ==> less(a, b) || less(b, c))
  }

  predicate Ordered<T>(less: (T, T) -> bool, s: seq<T>) {
    forall i, j :: 0 <= i < j < |s| ==> !less(s[j], s[i])
  }

  /** The elements that count as equal to x, in their order. */
  function Ties<T>(less: (T, T) -> bool, s: seq<T>, x: T): seq<T> {
    if s == [] then []
    else if less(s[0], x) || less(x, s[0]) then Ties(less, s[1..], x)
    else [s[0]] + Ties(less, s[1..], x)
  }

  /** s with x in front of the elements that come later. */
  function Insert<T>(less: (T, T) -> bool, x: T, s: seq<T>): seq<T> {
    if s == [] || !less(s[0], x) then [x] + s else [s[0]] + Insert(less, x, s[1..])
  }

  function StableSort<T>(less: (T, T) -> bool, s: seq<T>): seq<T> {
    if s == [] then [] else Insert(less, s[0], StableSort(less, s[1..]))
  }

  lemma {:induction false} InsertOrdered<T(!new)>(less: (T, T) -> bool, x: T, s: seq<T>)
    requires WeakOrder(less) && Ordered(less, s)
    ensures Ordered(less, Insert(less, x, s)) && multiset(Insert(less, x, s)) == multiset(s) + multiset{x}
  {
    if s != [] {
      assert s == [s[0]] + s[1..];
      if less(s[0], x) {
        var rest := Insert(less, x, s[1..]);
        InsertOrdered(less, x, s[1..]);
        forall y | y in rest
          ensures !less(y, s[0])
        {
          assert y in multiset(rest);
        }
      } else {
        assert forall i :: 0 <= i < |s| ==> !less(s[i], x);
      }
    }
  }

  lemma {:induction false} TiesCons<T>(less: (T, T) -> bool, x: T, s: seq<T>, y: T)
    ensures Ties(less, [x] + s, y) == if less(x, y) || less(y, x) then Ties(less, s, y) else [x] + Ties(less, s, y)
  {
    assert ([x] + s)[1..] == s;
  }

  lemma {:induction false} InsertTies<T(!new)>(less: (T, T) -> bool, x: T, s: seq<T>, y: T)
    requires WeakOrder(less)
    ensures Ties(less, Insert(less, x, s), y) == Ties(less, [x] + s, y)
  {
    hide Ties;
    if s != [] && less(s[0], x) {
      InsertTies(less, x, s[1..], y);
      assert s == [s[0]] + s[1..];
      TiesCons(less, s[0], Insert(less, x, s[1..]), y);
      TiesCons(less, s[0], s[1..], y);
      TiesCons(less, x, s[1..], y);
      TiesCons(less, x, s, y);
    }
  }

  /** The result is ordered and holds the same elements. */
  lemma {:induction false} SortOrders<T(!new)>(less: (T, T) -> bool, s: seq<T>)
    requires WeakOrder(less)
    ensures Ordered(less, StableSort(less, s)) && multiset(StableSort(less, s)) == multiset(s)
  {
    if s != [] {
      assert s == [s[0]] + s[1..];
      SortOrders(less, s[1..]);
      InsertOrdered(less, s[0], StableSort(less, s[1..]));
    }
  }

  /** Equal elements keep their order. */
  lemma {:induction false} SortStable<T(!new)>(less: (T, T) -> bool, s: seq<T>, y: T)
    requires WeakOrder(less)
    ensures Ties(less, StableSort(less, s), y) == Ties(less, s, y)
  {
    hide Ties;
    if s != [] {
      var rest := StableSort(less, s[1..]);
      assert s == [s[0]] + s[1..];
      SortStable(less, s[1..], y);
      InsertTies(less, s[0], rest, y);
      TiesCons(less, s[0], rest, y);
      TiesCons(less, s[0], s[1..], y);
    }
  }

  lemma {:induction false} TieOfMember<T>(less: (T, T) -> bool, s: seq<T>, x: T)
    requires !less(x, x)
    ensures x in s ==> Ties(less, s, x) != []
    ensures Ties(less, s, x) != [] ==> Ties(less, s, x)[0] in s && !less(x, Ties(less, s, x)[0])
  {
    if s != [] {
      TieOfMember(less, s[1..], x);
    }
  }

  /** No other sequence is ordered and keeps equal elements in this order. */
  lemma {:induction false} StableUnique<T(!new)>(less: (T, T) -> bool, a: seq<T>, b: seq<T>)
    requires WeakOrder(less) && Ordered(less, a) && Ordered(less, b)
    requires forall x :: Ties(less, a, x) == Ties(less, b, x)
    ensures a == b
  {
    hide Ties;
    if a == [] {
      NoTies(less, b);
    } else {
      SameHead(less, a, b);
      assert a == [a[0]] + a[1..] && b == [b[0]] + b[1..];
      forall x
        ensures Ties(less, a[1..], x) == Ties(less, b[1..], x)
      {
        TiesCons(less, a[0], a[1..], x);
        TiesCons(less, b[0], b[1..], x);
        assert Ties(less, a, x) == Ties(less, b, x);
        assert ([a[0]] + Ties(less, a[1..], x))[1..] == Ties(less, a[1..], x);
        assert ([b[0]] + Ties(less, b[1..], x))[1..] == Ties(less, b[1..], x);
      }
      StableUnique(less, a[1..], b[1..]);
    }
  }

  lemma NoTies<T(!new)>(less: (T, T) -> bool, b: seq<T>)
    requires WeakOrder(less) && forall x :: Ties(less, [], x) == Ties(less, b, x)
    ensures b == []
  {
    if b != [] {
      TieOfMember(less, b, b[0]);
    }
  }

  lemma {:induction false} SameHead<T(!new)>(less: (T, T) -> bool, a: seq<T>, b: seq<T>)
    requires WeakOrder(less) && Ordered(less, a) && Ordered(less, b) && a != []
    requires forall x :: Ties(less, a, x) == Ties(less, b, x)
    ensures b != [] && a[0] == b[0]
  {
    TieOfMember(less, a, a[0]);
    TieOfMember(less, b, a[0]);
    assert Ties(less, a, a[0]) == Ties(less, b, a[0]);
    TieOfMember(less, a, b[0]);
    TieOfMember(less, b, b[0]);
    assert Ties(less, a, b[0]) == Ties(less, b, b[0]);
    var x := Ties(less, a, b[0])[0];
    var i :| 0 <= i < |a| && a[i] == x;
    assert !less(x, a[0]) && !less(b[0], a[0]);
    var y := Ties(less, b, a[0])[0];
    assert !less(y, b[0]) && !less(a[0], b[0]);
    assert Ties(less, a, a[0])[0] == a[0] && Ties(less, b, a[0])[0] == b[0];
  }

  // ---- strings ----

  /** Go's string order: by byte, a proper prefix first. */
  predicate Less(a: string, b: string) {
    b != "" && (a == "" || a[0] < b[0] || (a[0] == b[0] && Less(a[1..], b[1..])))
  }

  /** The shorter of the two ends where they agree, or the first difference decides. */
  ghost predicate ComesBefore(a: string, b: string) {
    exists i: nat :: Differ(a, b, i) && i < |b| && (i == |a| || a[i] < b[i])
  }

  /** The strings agree up to i, where one ends or they differ. */
  predicate Differ(a: string, b: string, i: nat) {
    && i <= |a| && i <= |b| && a[..i] == b[..i]
    && (i == |a| || i == |b| || a[i] != b[i])
  }

  lemma {:induction false} LessMeans(a: string, b: string)
    ensures Less(a, b) <==> ComesBefore(a, b)
  {
    if a == "" || b == "" || a[0] != b[0] {
      assert Differ(a, b, 0);
      forall i: nat | 0 < i
        ensures !Differ(a, b, i)
      {
        if i <= |a| && i <= |b| {
          assert a[..i][0] == a[0] && b[..i][0] == b[0];
        }
      }
    } else {
      LessMeans(a[1..], b[1..]);
      forall i: nat | 0 < i
        ensures Differ(a, b, i) <==> Differ(a[1..], b[1..], i - 1)
      {
        DifferLater(a, b, i);
      }
      if ComesBefore(a, b) {
        var i: nat :| Differ(a, b, i) && i < |b| && (i == |a| || a[i] < b[i]);
        assert i > 0;
        assert Differ(a[1..], b[1..], i - 1);
      }
      if ComesBefore(a[1..], b[1..]) {
        var i: nat :| Differ(a[1..], b[1..], i) && i < |b| - 1 && (i == |a| - 1 || a[1..][i] < b[1..][i]);
        assert Differ(a, b, i + 1);
      }
    }
  }

  lemma DifferLater(a: string, b: string, i: nat)
    requires a != "" && b != "" && a[0] == b[0] && 0 < i
    ensures Differ(a, b, i) <==> Differ(a[1..], b[1..], i - 1)
  {
    if i <= |a| && i <= |b| {
      assert a[..i] == [a[0]] + a[1..][..i - 1] && b[..i] == [b[0]] + b[1..][..i - 1];
      if a[..i] == b[..i] {
        assert a[1..][..i - 1] == a[..i][1..] && b[1..][..i - 1] == b[..i][1..];
      }
    }
  }

  lemma {:induction false} LessIrreflexive(a: string)
    ensures !Less(a, a)
  {
    if a != "" {
      LessIrreflexive(a[1..]);
    }
  }

  lemma {:induction false} LessTransitive(a: string, b: string, c: string)
    requires Less(a, b) && Less(b, c)
    ensures Less(a, c)
  {
    if a != "" && a[0] == b[0] && b[0] == c[0] {
      LessTransitive(a[1..], b[1..], c[1..]);
    }
  }

  lemma {:induction false} LessTotal(a: string, b: string)
    ensures a == b || Less(a, b) || Less(b, a)
  {
    if a != "" && b != "" && a[0] == b[0] {
      LessTotal(a[1..], b[1..]);
      assert a == [a[0]] + a[1..] && b == [b[0]] + b[1..];
    }
  }

  /** What a weak order by a string key needs. */
  lemma {:induction false} LessWeak(a: string, b: string, c: string)
    ensures Less(a, b) ==> !Less(b, a)
    ensures Less(a, c) ==> Less(a, b) || Less(b, c)
  {
    LessIrreflexive(a);
    if Less(a, b) && Less(b, a) {
      LessTransitive(a, b, a);
    }
    if Less(a, c) {
      LessTotal(a, b);
      if Less(b, a) {
        LessTransitive(b, a, c);
      }
    }
  }

  lemma {:induction false} DistinctBag<T>(s: seq<T>, x: T)
    requires Distinct(s)
    ensures multiset(s)[x] <= 1
  {
    if s != [] {
      assert s == [s[0]] + s[1..];
      DistinctBag(s[1..], x);
      if s[0] == x {
        assert x !in s[1..] && x !in multiset(s[1..]);
      }
    }
  }

  /** Sorting repeats nothing. */
  lemma StillDistinct<T>(a: seq<T>, b: seq<T>)
    requires multiset(a) == multiset(b) && Distinct(b)
    ensures Distinct(a)
  {
    forall i, j | 0 <= i < j < |a|
      ensures a[i] != a[j]
    {
      DistinctBag(b, a[j]);
      assert a == a[..j] + a[j..] && a[i] in a[..j] && a[j] in a[j..];
      assert multiset(a) == multiset(a[..j]) + multiset(a[j..]);
      assert multiset(a[..j])[a[i]] >= 1 && multiset(a[j..])[a[j]] >= 1;
    }
  }

  lemma SameMembers<T>(a: seq<T>, b: seq<T>)
    requires multiset(a) == multiset(b)
    ensures |a| == |b| && forall x :: x in a <==> x in b
  {
    assert |multiset(a)| == |a| && |multiset(b)| == |b|;
    forall x
      ensures x in a <==> x in b
    {
      assert x in a <==> x in multiset(a);
      assert x in b <==> x in multiset(b);
    }
  }
}
