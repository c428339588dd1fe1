/** Sorting by a strict order: the stable sort as a function. */
module Sorting {

  /** A strict weak order: incomparability is an equivalence. */
  ghost predicate StrictWeak<T(!new)>(lt: (T, T) -> bool) {
    && (forall x :: !lt(x, x))
    && (forall x, y :: !(lt(x, y) && lt(y, x)))
    && (forall x, y, z :: lt(x, y) && lt(y, z) ==> lt(x, z))
    && (forall x, y, z :: lt(x, z) ==> lt(x, y) || lt(y, z))
  }

  /** A strict total order: only equal elements are incomparable. */
  ghost predicate StrictTotal<T(!new)>(lt: (T, T) -> bool) {
    StrictWeak(lt) && forall x, y :: lt(x, y) || lt(y, x) || x == y
  }

  ghost predicate Sorted<T>(s: seq<T>, lt: (T, T) -> bool) {
    forall i, j :: 0 <= i < j < |s| ==> !lt(s[j], s[i])
  }

  function Insert<T>(x: T, s: seq<T>, lt: (T, T) -> bool): seq<T> {
    if s == [] || !lt(s[0], x) then [x] + s else [s[0]] + Insert(x, s[1..], lt)
  }

  function StableSort<T>(s: seq<T>, lt: (T, T) -> bool): seq<T> {
    if s == [] then [] else Insert(s[0], StableSort(s[1..], lt), lt)
  }

  lemma {:induction false} InsertKeeps<T>(x: T, s: seq<T>, lt: (T, T) -> bool)
    ensures multiset(Insert(x, s, lt)) == multiset{x} + multiset(s)
  {
    if s != [] && lt(s[0], x) {
      InsertKeeps(x, s[1..], lt);
      assert s == [s[0]] + s[1..];
    }
  }

  lemma {:induction false} SortPermutes<T>(s: seq<T>, lt: (T, T) -> bool)
    ensures multiset(StableSort(s, lt)) == multiset(s)
    ensures |StableSort(s, lt)| == |s|
  {
    if s != [] {
      SortPermutes(s[1..], lt);
      InsertKeeps(s[0], StableSort(s[1..], lt), lt);
      assert s == [s[0]] + s[1..];
      assert |multiset(StableSort(s, lt))| == |multiset(s)|;
    }
  }

  lemma {:induction false} InsertSorted<T(!new)>(x: T, s: seq<T>, lt: (T, T) -> bool)
    requires StrictWeak(lt) && Sorted(s, lt)
    ensures Sorted(Insert(x, s, lt), lt)
  {
    if s != [] {
      if lt(s[0], x) {
        InsertSorted(x, s[1..], lt);
        InsertKeeps(x, s[1..], lt);
        var r := Insert(x, s[1..], lt);
        forall j | 0 <= j < |r| ensures !lt(r[j], s[0]) {
          assert r[j] in multiset(r);
          if r[j] != x {
            assert r[j] in s[1..];
          }
        }
      } else {
        forall j | 0 <= j < |s| ensures !lt(s[j], x) {}
      }
    }
  }

  lemma {:induction false} SortSorts<T(!new)>(s: seq<T>, lt: (T, T) -> bool)
    requires StrictWeak(lt)
    ensures Sorted(StableSort(s, lt), lt)
  {
    if s != [] {
      SortSorts(s[1..], lt);
      InsertSorted(s[0], StableSort(s[1..], lt), lt);
    }
  }

  /** Under a total order the sorted arrangement of a multiset is unique, so which sorting algorithm
      runs, and whether it is stable, cannot matter. */
  lemma {:induction false} SortedUnique<T(!new)>(s: seq<T>, t: seq<T>, lt: (T, T) -> bool)
    requires StrictTotal(lt) && Sorted(s, lt) && Sorted(t, lt) && multiset(s) == multiset(t)
    ensures s == t
  {
    assert |s| == |multiset(s)| == |multiset(t)| == |t|;
    if s != [] {
      assert s[0] in multiset(t) && t[0] in multiset(s);
      assert s[0] == t[0];
      assert s == [s[0]] + s[1..] && t == [t[0]] + t[1..];
      assert multiset(s[1..]) == multiset(s) - multiset{s[0]} == multiset(t[1..]);
      SortedUnique(s[1..], t[1..], lt);
    }
  }

  /** The elements of `s` that `lt` cannot tell from `x`, in order. */
  ghost function Ties<T>(s: seq<T>, x: T, lt: (T, T) -> bool): seq<T> {
    if s == [] then []
    else (if lt(s[0], x) || lt(x, s[0]) then [] else [s[0]]) + Ties(s[1..], x, lt)
  }

  lemma {:induction false} InsertTies<T(!new)>(y: T, s: seq<T>, x: T, lt: (T, T) -> bool)
    requires StrictWeak(lt)
    ensures Ties(Insert(y, s, lt), x, lt) == (if lt(y, x) || lt(x, y) then [] else [y]) + Ties(s, x, lt)
  {
    if s != [] && lt(s[0], y) {
      InsertTies(y, s[1..], x, lt);
    }
  }

  lemma {:induction false} SortIsStable<T(!new)>(s: seq<T>, x: T, lt: (T, T) -> bool)
    requires StrictWeak(lt)
    ensures Ties(StableSort(s, lt), x, lt) == Ties(s, x, lt)
  {
    if s != [] {
      SortIsStable(s[1..], x, lt);
      InsertTies(s[0], StableSort(s[1..], lt), x, lt);
    }
  }

  /** A beginning of a sequence has a beginning of its ties. */
  lemma {:induction false} TiesOfPrefix<T>(s: seq<T>, n: nat, x: T, lt: (T, T) -> bool)
    requires n <= |s|
    ensures Ties(s[..n], x, lt) <= Ties(s, x, lt)
  {
    if n > 0 {
      assert s[..n][0] == s[0] && s[..n][1..] == s[1..][..n - 1];
      TiesOfPrefix(s[1..], n - 1, x, lt);
    }
  }
}
