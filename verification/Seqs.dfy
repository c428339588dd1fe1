/** Sequences built element by element. */
module Seqs {

  function FlatMap<T, U>(s: seq<T>, f: T -> seq<U>): seq<U> {
    if s == [] then [] else f(s[0]) + FlatMap(s[1..], f)
  }

  lemma {:induction false} FlatMapAppend<T, U>(s: seq<T>, t: seq<T>, f: T -> seq<U>)
    ensures FlatMap(s + t, f) == FlatMap(s, f) + FlatMap(t, f)
  {
    if s == [] {
      assert s + t == t;
    } else {
      assert (s + t)[1..] == s[1..] + t;
      FlatMapAppend(s[1..], t, f);
    }
  }

  lemma FlatMapNext<T, U>(s: seq<T>, i: nat, f: T -> seq<U>)
    requires i < |s|
    ensures FlatMap(s[..i + 1], f) == FlatMap(s[..i], f) + f(s[i])
  {
    assert s[..i + 1] == s[..i] + [s[i]];
    FlatMapAppend(s[..i], [s[i]], f);
    assert FlatMap([s[i]], f) == f(s[i]) + FlatMap([], f);
  }

  lemma {:induction false} FlatMapMember<T, U>(s: seq<T>, f: T -> seq<U>, u: U)
    ensures u in FlatMap(s, f) <==> exists t :: t in s && u in f(t)
  {
    if s != [] {
      FlatMapMember(s[1..], f, u);
      assert s == [s[0]] + s[1..];
    }
  }

  lemma HeadTail<T>(s: seq<T>)
    requires s != []
    ensures multiset(s) == multiset{s[0]} + multiset(s[1..])
  {
    assert s == [s[0]] + s[1..];
  }

  lemma {:induction false} FlatMapPullOut<T, U>(t: seq<T>, k: nat, f: T -> seq<U>)
    requires k < |t|
    ensures multiset(FlatMap(t, f)) == multiset(f(t[k])) + multiset(FlatMap(t[..k] + t[k + 1..], f))
  {
    var rest := t[..k] + t[k + 1..];
    if k == 0 {
      assert rest == t[1..];
    } else {
      assert rest[0] == t[0] && rest[1..] == t[1..][..k - 1] + t[1..][k..];
      FlatMapPullOut(t[1..], k - 1, f);
    }
  }

  lemma WithoutIndex<T>(t: seq<T>, k: nat)
    requires k < |t|
    ensures multiset(t[..k] + t[k + 1..]) == multiset(t) - multiset{t[k]}
  {
    assert multiset(t) == multiset(t[..k] + [t[k]] + t[k + 1..]) by {
      assert t == t[..k] + [t[k]] + t[k + 1..];
    }
  }

  lemma SameHead<T>(s: seq<T>, t: seq<T>) returns (k: nat)
    requires multiset(s) == multiset(t) && s != []
    ensures k < |t| && t[k] == s[0] && multiset(s[1..]) == multiset(t[..k] + t[k + 1..])
  {
    assert s[0] in multiset(t);
    k :| 0 <= k < |t| && t[k] == s[0];
    WithoutIndex(s, 0);
    WithoutIndex(t, k);
    assert s[..0] + s[1..] == s[1..];
  }

  /** The results' multiset depends only on the arguments' multiset. */
  lemma {:induction false} FlatMapPermutation<T, U>(s: seq<T>, t: seq<T>, f: T -> seq<U>)
    requires multiset(s) == multiset(t)
    ensures multiset(FlatMap(s, f)) == multiset(FlatMap(t, f))
  {
    if s == [] {
      assert |t| == |multiset(t)| == |multiset(s)| == 0;
    } else {
      var k := SameHead(s, t);
      FlatMapPermutation(s[1..], t[..k] + t[k + 1..], f);
      FlatMapPullOut(t, k, f);
    }
  }

  /** The first `n` elements, or all of them when there are fewer; none when `n` is negative. */
  function Prefix<T>(s: seq<T>, n: int): seq<T> {
    if n <= 0 then [] else if n < |s| then s[..n] else s
  }

  function Sum<T>(s: seq<T>, weight: T -> nat): nat {
    if s == [] then 0 else weight(s[0]) + Sum(s[1..], weight)
  }

  lemma {:induction false} SumAppend<T>(s: seq<T>, t: seq<T>, weight: T -> nat)
    ensures Sum(s + t, weight) == Sum(s, weight) + Sum(t, weight)
  {
    if s == [] {
      assert s + t == t;
    } else {
      assert (s + t)[1..] == s[1..] + t;
      SumAppend(s[1..], t, weight);
    }
  }

  lemma SumUpdate<T>(s: seq<T>, i: nat, x: T, weight: T -> nat)
    requires i < |s|
    ensures Sum(s[i := x], weight) + weight(s[i]) == Sum(s, weight) + weight(x)
  {
    assert s == s[..i] + ([s[i]] + s[i + 1..]);
    assert s[i := x] == s[..i] + ([x] + s[i + 1..]);
    SumAppend(s[..i], [s[i]] + s[i + 1..], weight);
    SumAppend(s[..i], [x] + s[i + 1..], weight);
  }
}
