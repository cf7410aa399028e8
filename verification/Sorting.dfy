/** The sort the source borrows from its standard library: stable, by a total order. */
module Sorting {
  ghost predicate Total<T(!new)>(le: (T, T) -> bool) {
    forall x, y :: le(x, y) || le(y, x)
  }

  ghost predicate Sorted<T>(s: seq<T>, le: (T, T) -> bool) {
    forall i :: 0 < i < |s| ==> le(s[i - 1], s[i])
  }

  function Insert<T>(x: T, s: seq<T>, le: (T, T) -> bool): seq<T> {
    if s == [] || le(x, s[0]) then [x] + s else [s[0]] + Insert(x, s[1..], le)
  }

  function StableSort<T>(s: seq<T>, le: (T, T) -> bool): seq<T> {
    if s == [] then [] else Insert(s[0], StableSort(s[1..], le), le)
  }

  lemma SortedPrepend<T>(x: T, s: seq<T>, le: (T, T) -> bool)
    requires Sorted(s, le) && s != [] && le(x, s[0])
    ensures Sorted([x] + s, le)
  {
    var more := [x] + s;
    forall i | 0 < i < |more| ensures le(more[i - 1], more[i]) {
      if i > 1 {
        assert more[i - 1] == s[i - 2] && more[i] == s[i - 1];
      }
    }
  }

  lemma {:induction false} InsertCorrect<T(!new)>(x: T, s: seq<T>, le: (T, T) -> bool)
    requires Total(le) && Sorted(s, le)
    ensures Sorted(Insert(x, s, le), le)
    ensures multiset(Insert(x, s, le)) == multiset{x} + multiset(s)
    ensures Insert(x, s, le)[0] == x || (s != [] && Insert(x, s, le)[0] == s[0])
  {
    if s != [] && !le(x, s[0]) {
      var rest := Insert(x, s[1..], le);
      InsertCorrect(x, s[1..], le);
      assert s == [s[0]] + s[1..];
      SortedPrepend(s[0], rest, le);
    } else if s != [] {
      SortedPrepend(x, s, le);
    }
  }

  lemma NothingToSort<T>(le: (T, T) -> bool)
    ensures Sorted([], le)
  {
  }

  /** The sorted list is in order and holds the same elements as often as before. */
  lemma {:induction false} SortCorrect<T(!new)>(s: seq<T>, le: (T, T) -> bool)
    requires Total(le)
    ensures Sorted(StableSort(s, le), le)
    ensures multiset(StableSort(s, le)) == multiset(s) && |StableSort(s, le)| == |s|
  {
    hide Insert, Sorted, Total;
    if s == [] {
      assert Sorted(s, le) by { NothingToSort(le); }
    } else {
      SortCorrect(s[1..], le);
      InsertCorrect(s[0], StableSort(s[1..], le), le);
      assert s == [s[0]] + s[1..];
    }
    assert |multiset(StableSort(s, le))| == |StableSort(s, le)| && |multiset(s)| == |s|;
  }

  function Keep<T>(s: seq<T>, p: T -> bool): seq<T> {
    if s == [] then [] else (if p(s[0]) then [s[0]] else []) + Keep(s[1..], p)
  }

  lemma KeepFirst<T>(x: T, s: seq<T>, p: T -> bool)
    ensures Keep([x] + s, p) == (if p(x) then [x] else []) + Keep(s, p)
  {
    assert ([x] + s)[1..] == s;
  }

  lemma {:induction false} InsertStable<T(!new)>(x: T, s: seq<T>, le: (T, T) -> bool, p: T -> bool)
    requires forall a, b :: p(a) && p(b) ==> le(a, b)
    ensures Keep(Insert(x, s, le), p) == (if p(x) then [x] else []) + Keep(s, p)
  {
    hide Keep;
    if s == [] || le(x, s[0]) {
      KeepFirst(x, s, p);
    } else {
      InsertStable(x, s[1..], le, p);
      KeepFirst(s[0], Insert(x, s[1..], le), p);
      KeepFirst(s[0], s[1..], p);
      assert s == [s[0]] + s[1..] && !(p(x) && p(s[0]));
    }
  }

  /** The sort is stable: elements of equal rank keep their order. */
  lemma {:induction false} SortStable<T(!new)>(s: seq<T>, le: (T, T) -> bool, p: T -> bool)
    requires forall a, b :: p(a) && p(b) ==> le(a, b)
    ensures Keep(StableSort(s, le), p) == Keep(s, p)
  {
    if s != [] {
      SortStable(s[1..], le, p);
      InsertStable(s[0], StableSort(s[1..], le), le, p);
    }
  }

  /** Byte-wise order of strings. */
  predicate StringLe(a: string, b: string) {
    a == [] || (b != [] && (a[0] < b[0] || (a[0] == b[0] && StringLe(a[1..], b[1..]))))
  }

  lemma {:induction false} StringLeTotalAt(a: string, b: string)
    ensures StringLe(a, b) || StringLe(b, a)
    ensures StringLe(a, b) && StringLe(b, a) ==> a == b
  {
    if a != [] && b != [] {
      StringLeTotalAt(a[1..], b[1..]);
      assert a == [a[0]] + a[1..] && b == [b[0]] + b[1..];
    }
  }

  /** One string comes before another if it begins the other, or has the smaller character where they first
      differ. */
  lemma {:induction false} StringLeIff(a: string, b: string)
    ensures StringLe(a, b) <==> a <= b || exists k: nat :: SmallerAt(a, b, k)
  {
    if a != [] && b != [] && a[0] == b[0] {
      var x, y := a[1..], b[1..];
      StringLeIff(x, y);
      assert a == [a[0]] + x && b == [b[0]] + y;
      if k: nat :| SmallerAt(x, y, k) {
        DiffersLater(a, b, k);
      }
      if k: nat :| SmallerAt(a, b, k) {
        assert k > 0;
        DiffersLater(a, b, k - 1);
      }
    } else if a != [] && b != [] {
      assert SmallerAt(a, b, 0) <==> a[0] < b[0];
      forall k: nat | 0 < k < |a| && k < |b| ensures a[..k] != b[..k] {
        assert a[..k][0] != b[..k][0];
      }
    }
  }

  /** The strings agree up to k, and there the first has the smaller character. */
  ghost predicate SmallerAt(a: string, b: string, k: nat) {
    k < |a| && k < |b| && a[..k] == b[..k] && a[k] < b[k]
  }

  lemma DiffersLater(a: string, b: string, k: nat)
    requires a != [] && b != [] && a[0] == b[0]
    ensures SmallerAt(a[1..], b[1..], k) <==> SmallerAt(a, b, k + 1)
  {
    if k + 1 < |a| && k + 1 < |b| {
      assert a[..k + 1] == [a[0]] + a[1..][..k] && b[..k + 1] == [b[0]] + b[1..][..k];
      assert a[..k + 1][1..] == a[1..][..k] && b[..k + 1][1..] == b[1..][..k];
    }
  }

  lemma StringLeTotal()
    ensures Total(StringLe)
  {
    forall a, b ensures StringLe(a, b) || StringLe(b, a) {
      StringLeTotalAt(a, b);
    }
  }
}
