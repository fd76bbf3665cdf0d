/**
 * The byte string that config.BundleHash feeds to its outer hash
 * (internal/config/meta.go): path, NUL, raw 32-byte sum, NUL for each file,
 * ordered by path. A char stands for one byte.
 */
module BundleEncoding {
  import opened Wrappers
  import opened Sequences
  import opened Sorting

  const NUL: char := '\0'
  const SUM_SIZE: nat := 32

  datatype Item = Item(rel: string, sum: string)

  predicate WellFormed(it: Item) {
    NUL !in it.rel && |it.sum| == SUM_SIZE
  }

  function Encode(items: seq<Item>): string {
    if items == [] then ""
    else items[0].rel + [NUL] + items[0].sum + [NUL] + Encode(items[1..])
  }

  /** The separators in the sums do not matter: a record is cut at the first NUL and 32 bytes later. */
  function Decode(s: string): Option<seq<Item>>
    decreases |s|
  {
    if s == "" then Some([])
    else
      var n := IndexOfNul(s);
      if |s| < n + SUM_SIZE + 2 || s[n + SUM_SIZE + 1] != NUL then None
      else
        match Decode(s[n + SUM_SIZE + 2..])
        case None => None
        case Some(rest) => Some([Item(s[..n], s[n + 1..n + SUM_SIZE + 1])] + rest)
  }

  function IndexOfNul(s: string): (n: nat)
    ensures n <= |s| && NUL !in s[..n] && (n < |s| ==> s[n] == NUL)
  {
    if s == "" || s[0] == NUL then 0
    else
      var n := IndexOfNul(s[1..]);
      assert s[..n + 1] == [s[0]] + s[1..][..n];
      n + 1
  }

  lemma {:induction false} IndexOfNulAt(a: string, b: string)
    requires NUL !in a
    ensures IndexOfNul(a + [NUL] + b) == |a|
  {
    if a != "" {
      assert (a + [NUL] + b)[1..] == a[1..] + [NUL] + b;
      IndexOfNulAt(a[1..], b);
    }
  }

  /** The encoding can be read back although the raw sums may contain NUL. */
  lemma {:induction false} DecodeEncode(items: seq<Item>)
    requires forall it <- items :: WellFormed(it)
    ensures Decode(Encode(items)) == Some(items)
  {
    if items != [] {
      var it, rest := items[0], items[1..];
      assert it in items && forall x <- rest :: x in items;
      DecodeRecord(it, Encode(rest));
      DecodeEncode(rest);
      assert items == [it] + rest;
    }
  }

  lemma {:induction false} DecodeRecord(it: Item, tail: string)
    requires WellFormed(it)
    ensures var s := it.rel + [NUL] + it.sum + [NUL] + tail;
            Decode(s) == match Decode(tail) case None => None case Some(rest) => Some([it] + rest)
  {
    var s, n := it.rel + [NUL] + it.sum + [NUL] + tail, |it.rel|;
    assert s == it.rel + [NUL] + (it.sum + [NUL] + tail);
    IndexOfNulAt(it.rel, it.sum + [NUL] + tail);
    assert s[..n] == it.rel && s[n + 1..n + SUM_SIZE + 1] == it.sum;
    assert s[n + SUM_SIZE + 1] == NUL && s[n + SUM_SIZE + 2..] == tail;
  }

  /** Two record lists with the same encoding are the same list. */
  lemma {:induction false} EncodeInjective(a: seq<Item>, b: seq<Item>)
    requires (forall it <- a :: WellFormed(it)) && (forall it <- b :: WellFormed(it))
    requires Encode(a) == Encode(b)
    ensures a == b
  {
    DecodeEncode(a);
    DecodeEncode(b);
  }

  // ---- ordering ----

  /** Strictly increasing paths. */
  predicate Sorted(items: seq<Item>) {
    forall i, j :: 0 <= i < j < |items| ==> Less(items[i].rel, items[j].rel)
  }

  predicate DistinctPaths(items: seq<Item>) {
    forall i, j :: 0 <= i < j < |items| ==> items[i].rel != items[j].rel
  }

  function Elements(items: seq<Item>): set<Item> {
    set it | it in items
  }

  /** One order only: sorted lists of the same records are equal. */
  lemma {:induction false} SortedUnique(a: seq<Item>, b: seq<Item>)
    requires Sorted(a) && Sorted(b) && Elements(a) == Elements(b)
    ensures a == b
  {
    NoElements(a);
    NoElements(b);
    if a != [] {
      assert a[0] in Elements(b) && b[0] in Elements(a);
      var i :| 0 <= i < |b| && b[i] == a[0];
      var j :| 0 <= j < |a| && a[j] == b[0];
      if i > 0 {
        assert Less(b[0].rel, a[0].rel);
        if j > 0 {
          LessTransitive(a[0].rel, b[0].rel, a[0].rel);
        }
        LessIrreflexive(a[0].rel);
      }
      assert a[0] == b[0];
      TailElements(a);
      TailElements(b);
      SortedUnique(a[1..], b[1..]);
      assert a == [a[0]] + a[1..] && b == [b[0]] + b[1..];
    }
  }

  lemma NoElements(a: seq<Item>)
    ensures Elements(a) == {} <==> a == []
  {
    if a != [] {
      assert a[0] in Elements(a);
    }
  }

  lemma TailElements(a: seq<Item>)
    requires Sorted(a) && a != []
    ensures Elements(a[1..]) == Elements(a) - {a[0]} && Sorted(a[1..])
  {
    LessIrreflexive(a[0].rel);
    assert a == [a[0]] + a[1..];
    assert forall k :: 0 < k < |a| ==> Less(a[0].rel, a[k].rel);
    assert a[0] !in a[1..];
  }

  const ByRel: (Item, Item) -> bool := (a: Item, b: Item) => Less(a.rel, b.rel)

  /** sort.Slice on the collected records: the one sorted list of them, by SortedUnique. */
  function Sort(items: seq<Item>): (r: seq<Item>)
    requires DistinctPaths(items)
    ensures Sorted(r) && Elements(r) == Elements(items)
  {
    SortIsSorted(items);
    StableSort(ByRel, items)
  }

  lemma {:induction false} SortIsSorted(items: seq<Item>)
    requires DistinctPaths(items)
    ensures var r := StableSort(ByRel, items); Sorted(r) && Elements(r) == Elements(items)
  {
    hide StableSort, Less;
    var r := StableSort(ByRel, items);
    forall a: Item, b: Item, c: Item {
      LessWeak(a.rel, b.rel, c.rel);
    }
    SortOrders(ByRel, items);
    SameMembers(r, items);
    assert Distinct(items);
    StillDistinct(r, items);
    forall i, j | 0 <= i < j < |r|
      ensures Less(r[i].rel, r[j].rel)
    {
      LessTotal(r[i].rel, r[j].rel);
      SamePath(items, r[i], r[j]);
      assert !ByRel(r[j], r[i]);
    }
  }

  lemma SamePath(items: seq<Item>, a: Item, b: Item)
    requires DistinctPaths(items) && a in items && b in items
    ensures a.rel == b.rel ==> a == b
  {}

  /** The digest input for the collected records, in whatever order the walk met them. */
  method DigestInput(items: seq<Item>) returns (input: string)
    requires DistinctPaths(items) && forall it <- items :: WellFormed(it)
    ensures input == Encode(Sort(items))
  {
    var sorted := Sort(items);
    input := "";
    for i := 0 to |sorted|
      invariant input == Encode(sorted[..i])
    {
      EncodeSnoc(sorted[..i], sorted[i]);
      assert sorted[..i + 1] == sorted[..i] + [sorted[i]];
      input := input + sorted[i].rel + [NUL] + sorted[i].sum + [NUL];
    }
    assert sorted[..|sorted|] == sorted;
  }

  lemma {:induction false} EncodeSnoc(front: seq<Item>, it: Item)
    ensures Encode(front + [it]) == Encode(front) + it.rel + [NUL] + it.sum + [NUL]
  {
    if front != [] {
      assert (front + [it])[1..] == front[1..] + [it];
      EncodeSnoc(front[1..], it);
    } else {
      assert [it][1..] == [];
    }
  }

  /** Two walks give the same input exactly when they collected the same records, in whatever order. */
  lemma InputDecidesRecords(a: seq<Item>, b: seq<Item>)
    requires DistinctPaths(a) && DistinctPaths(b)
    requires (forall it <- a :: WellFormed(it)) && (forall it <- b :: WellFormed(it))
    ensures Encode(Sort(a)) == Encode(Sort(b)) <==> Elements(a) == Elements(b)
  {
    assert forall it <- Sort(a) :: it in Elements(a);
    assert forall it <- Sort(b) :: it in Elements(b);
    if Encode(Sort(a)) == Encode(Sort(b)) {
      EncodeInjective(Sort(a), Sort(b));
    }
    if Elements(a) == Elements(b) {
      SortedUnique(Sort(a), Sort(b));
    }
  }
}
