/** Strict total orders, strings under one of them, and binary search in a sorted sequence. */
module SortedSeqs {

  ghost predicate StrictOrder<T(!new)>(less: (T, T) -> bool) {
    && (forall a :: !less(a, a))
    && (forall a, b, c :: less(a, b) && less(b, c) ==> less(a, c))
    && (forall a, b :: a == b || less(a, b) || less(b, a))
  }

  ghost predicate Sorted<T>(s: seq<T>, less: (T, T) -> bool) {
    forall i, j :: 0 <= i < j < |s| ==> less(s[i], s[j])
  }

  /** In order, equal elements allowed. */
  ghost predicate Ascending<T>(s: seq<T>, less: (T, T) -> bool) {
    forall i, j :: 0 <= i < j < |s| ==> !less(s[j], s[i])
  }

  lemma SortedAscends<T(!new)>(s: seq<T>, less: (T, T) -> bool)
    requires StrictOrder(less) && Sorted(s, less)
    ensures Ascending(s, less)
  {
    forall i, j | 0 <= i < j < |s|
      ensures !less(s[j], s[i])
    {
      var x, y := s[i], s[j];
      assert less(y, x) ==> less(x, x);
    }
  }

  /** Everything before position i is smaller than x, nothing from i on is. */
  ghost predicate IsLowerBound<T>(s: seq<T>, x: T, less: (T, T) -> bool, i: nat) {
    && i <= |s|
    && (forall j :: 0 <= j < i ==> less(s[j], x))
    && (forall j :: i <= j < |s| ==> !less(s[j], x))
  }

  /** The search of Go's sort.Search and slices.BinarySearchFunc. */
  method LowerBound<T(!new)>(s: seq<T>, x: T, less: (T, T) -> bool) returns (i: nat)
    requires StrictOrder(less) && Ascending(s, less)
    ensures IsLowerBound(s, x, less, i)
  {
    i := 0;
    var j := |s|;
    while i < j
      invariant i <= j <= |s|
      invariant forall k :: 0 <= k < i ==> less(s[k], x)
      invariant forall k :: j <= k < |s| ==> !less(s[k], x)
    {
      var h := (i + j) / 2;
      if less(s[h], x) {
        assert forall k :: 0 <= k < h ==> s[k] == s[h] || less(s[k], s[h]);
        i := h + 1;
      } else {
        j := h;
      }
    }
  }

  /** In a sorted sequence the search hits x exactly when x occurs. */
  lemma SearchIsMembership<T(!new)>(s: seq<T>, x: T, less: (T, T) -> bool, i: nat)
    requires StrictOrder(less) && Sorted(s, less) && IsLowerBound(s, x, less, i)
    ensures i < |s| && s[i] == x <==> x in s
  {
    if x in s {
      var k :| 0 <= k < |s| && s[k] == x;
    }
  }

  function InsertAt<T>(s: seq<T>, i: nat, x: T): seq<T>
    requires i <= |s|
  {
    s[..i] + [x] + s[i..]
  }

  lemma InsertKeepsAscending<T(!new)>(s: seq<T>, x: T, less: (T, T) -> bool, i: nat)
    requires StrictOrder(less) && Ascending(s, less) && IsLowerBound(s, x, less, i)
    ensures Ascending(InsertAt(s, i, x), less)
  {
    var r := InsertAt(s, i, x);
    forall a, b | 0 <= a < b < |r|
      ensures !less(r[b], r[a])
    {
      assert b == i ==> (less(x, s[a]) ==> less(x, x));
    }
  }

  lemma InsertKeepsSorted<T(!new)>(s: seq<T>, x: T, less: (T, T) -> bool, i: nat)
    requires StrictOrder(less) && Sorted(s, less) && IsLowerBound(s, x, less, i) && x !in s
    ensures Sorted(InsertAt(s, i, x), less)
  {
    var r := InsertAt(s, i, x);
    forall a, b | 0 <= a < b < |r|
      ensures less(r[a], r[b])
    {
      if b > i {
        assert r[b] == s[b - 1];
      }
    }
  }

  lemma RemoveKeepsSorted<T>(s: seq<T>, less: (T, T) -> bool, i: nat)
    requires Sorted(s, less) && i < |s|
    ensures Sorted(s[..i] + s[i + 1..], less)
  {
  }

  lemma InsertMembers<T>(s: seq<T>, x: T, i: nat, y: T)
    requires i <= |s|
    ensures y in InsertAt(s, i, x) <==> y == x || y in s
  {
    assert s == s[..i] + s[i..];
  }

  /** A sorted sequence is determined by its members. */
  lemma {:induction false} SortedUnique<T(!new)>(s: seq<T>, t: seq<T>, less: (T, T) -> bool)
    requires StrictOrder(less) && Sorted(s, less) && Sorted(t, less)
    requires forall x :: x in s <==> x in t
    ensures s == t
  {
    HasMember(t);
    if s != [] {
      assert s[0] in t;
      FirstIsLeast(s, less, t[0]);
      FirstIsLeast(t, less, s[0]);
      forall x
        ensures x in s[1..] <==> x in t[1..]
      {
        TailMembers(s, less, x);
        TailMembers(t, less, x);
      }
      SortedUnique(s[1..], t[1..], less);
    }
  }

  lemma HasMember<T>(s: seq<T>)
    ensures s != [] ==> exists x :: x in s
  {
    if s != [] {
      assert s[0] in s;
    }
  }

  lemma FirstIsLeast<T(!new)>(s: seq<T>, less: (T, T) -> bool, x: T)
    requires Sorted(s, less) && s != []
    ensures x in s ==> x == s[0] || less(s[0], x)
    ensures s[0] in s
  {
  }

  lemma TailMembers<T(!new)>(s: seq<T>, less: (T, T) -> bool, x: T)
    requires StrictOrder(less) && Sorted(s, less) && s != []
    ensures x in s[1..] <==> x in s && x != s[0]
  {
    if x in s[1..] {
      var k :| 0 <= k < |s[1..]| && s[1..][k] == x;
      assert less(s[0], s[k + 1]);
    }
  }

  /** Go's < on strings. */
  predicate TextLess(a: string, b: string) {
    b != "" && (a == "" || a[0] < b[0] || (a[0] == b[0] && TextLess(a[1..], b[1..])))
  }

  lemma {:induction false} TextIrreflexive(a: string)
    ensures !TextLess(a, a)
  {
    if a != "" { TextIrreflexive(a[1..]); }
  }

  lemma {:induction false} TextTransitive(a: string, b: string, c: string)
    requires TextLess(a, b) && TextLess(b, c)
    ensures TextLess(a, c)
  {
    if a != "" && a[0] == b[0] == c[0] { TextTransitive(a[1..], b[1..], c[1..]); }
  }

  lemma {:induction false} TextConnected(a: string, b: string)
    ensures a == b || TextLess(a, b) || TextLess(b, a)
  {
    if a != "" && b != "" && a[0] == b[0] {
      TextConnected(a[1..], b[1..]);
      if a[1..] == b[1..] {
        assert a == [a[0]] + a[1..] && b == [b[0]] + b[1..];
      }
    }
  }

  lemma TextOrder()
    ensures StrictOrder(TextLess)
  {
    forall a
      ensures !TextLess(a, a)
    {
      TextIrreflexive(a);
    }
    forall a, b, c | TextLess(a, b) && TextLess(b, c)
      ensures TextLess(a, c)
    {
      TextTransitive(a, b, c);
    }
    forall a, b
      ensures a == b || TextLess(a, b) || TextLess(b, a)
    {
      TextConnected(a, b);
    }
  }
}
