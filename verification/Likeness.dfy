/** How plausibly one name was meant when another was typed: greedy alignment of their tokens. */
module Likeness {
  import opened Text
  import opened Seqs
  import opened EditDistance

  const EXACT := 20
  const SYNONYM := 16
  const UNMATCHED := 4

  const SYNONYM_CLASSES: seq<seq<string>> := [
    ["get", "show", "fetch"],
    ["list", "ls"],
    ["delete", "remove", "rm"],
    ["update", "edit"],
    ["search", "find"]
  ]

  function ClassFrom(token: string, i: nat): int
    requires i <= |SYNONYM_CLASSES|
    decreases |SYNONYM_CLASSES| - i
  {
    if i == |SYNONYM_CLASSES| then -1
    else if token in SYNONYM_CLASSES[i] then i
    else ClassFrom(token, i + 1)
  }

  function SynonymClass(token: string): int { ClassFrom(token, 0) }

  function Tokens(name: string): seq<string> { FieldsFunc(name, c => c in "_.-") }

  function TypoBound(a: string, b: string): int {
    var n := Min(|a|, |b|);
    if n <= 4 then 1 else if n <= 8 then 2 else 3
  }

  /** What one typed token earns against one candidate token; 0 is no match. */
  function Points(gt: string, ct: string): int {
    if gt == ct then EXACT
    else if SynonymClass(gt) >= 0 && SynonymClass(gt) == SynonymClass(ct) then SYNONYM
    else
      var d := Distance(gt, ct);
      if d <= TypoBound(gt, ct) then 18 - d * 2 else 0
  }

  lemma PointsLevels(gt: string, ct: string)
    ensures Points(gt, ct) in {0, 12, 14, 16, 20}
    ensures Points(gt, ct) == EXACT <==> gt == ct
  {
    ZeroExactlyWhenEqual(gt, ct);
  }

  // ----- the greedy alignment

  /** A typed token's match: the position of the candidate token it took, or -1 for none. */
  datatype Match = Match(at: int, points: int)

  const NO_MATCH := Match(-1, 0)

  /** The first unused candidate token among the first `n` that earns the most, if any earns something. */
  function Pick(gt: string, cand: seq<string>, used: seq<bool>, n: nat): (m: Match)
    requires n <= |cand| == |used|
    ensures m == NO_MATCH || (0 <= m.at < n && !used[m.at] && m.points == Points(gt, cand[m.at]) > 0)
    ensures forall i :: 0 <= i < n && !used[i] ==> Points(gt, cand[i]) <= m.points
    ensures forall i :: 0 <= i < m.at && !used[i] ==> Points(gt, cand[i]) < m.points
  {
    if n == 0 then NO_MATCH
    else
      var m := Pick(gt, cand, used, n - 1);
      if !used[n - 1] && Points(gt, cand[n - 1]) > m.points then Match(n - 1, Points(gt, cand[n - 1])) else m
  }

  function Take(used: seq<bool>, m: Match): (r: seq<bool>)
    requires m == NO_MATCH || 0 <= m.at < |used|
    ensures |r| == |used|
  {
    if m == NO_MATCH then used else used[m.at := true]
  }

  function Align(got: seq<string>, cand: seq<string>, used: seq<bool>): (ms: seq<Match>)
    requires |cand| == |used|
    ensures |ms| == |got|
  {
    if got == [] then []
    else
      var m := Pick(got[0], cand, used, |cand|);
      [m] + Align(got[1..], cand, Take(used, m))
  }

  function Total(ms: seq<Match>): int {
    if ms == [] then 0 else ms[0].points + Total(ms[1..])
  }

  function Shared(ms: seq<Match>): nat {
    if ms == [] then 0 else (if ms[0] == NO_MATCH then 0 else 1) + Shared(ms[1..])
  }

  function Unused(n: nat): seq<bool> { seq(n, _ => false) }

  function Alignment(got: string, candidate: string): seq<Match> {
    Align(Tokens(got), Tokens(candidate), Unused(|Tokens(candidate)|))
  }

  /** The score of a name pair, from its alignment. */
  function Score(got: string, candidate: string): int {
    var ms := Alignment(got, candidate);
    var n, m, k := |Tokens(got)|, |Tokens(candidate)|, Shared(ms);
    if k == 0 then
      var d := Distance(got, candidate);
      if d <= TypoBound(got, candidate) then 90 - d else 0
    else Max(0, Total(ms) - (n - k) * UNMATCHED - (m - k) * UNMATCHED)
  }

  // ----- the loops

  method PickMatch(gt: string, cand: seq<string>, used: array<bool>) returns (best: int, bestAt: int)
    requires used.Length == |cand|
    ensures Match(bestAt, best) == Pick(gt, cand, used[..], |cand|)
  {
    best, bestAt := 0, -1;
    for i := 0 to |cand|
      invariant Match(bestAt, best) == Pick(gt, cand, used[..], i)
    {
      if used[i] {
        continue;
      }
      var ct := cand[i];
      var pts := 0;
      if gt == ct {
        pts := EXACT;
      } else if SynonymClass(gt) >= 0 && SynonymClass(gt) == SynonymClass(ct) {
        pts := SYNONYM;
      } else {
        var d := EditDistance.EditDistance(gt, ct);
        if d <= TypoBound(gt, ct) {
          pts := 18 - d * 2;
        }
      }
      if pts > best {
        best, bestAt := pts, i;
      }
    }
  }

  lemma {:induction false} AddMatch(ms: seq<Match>, m: Match)
    ensures Total(ms + [m]) == Total(ms) + m.points
    ensures Shared(ms + [m]) == Shared(ms) + if m == NO_MATCH then 0 else 1
  {
    if ms != [] {
      assert (ms + [m])[1..] == ms[1..] + [m];
      AddMatch(ms[1..], m);
    }
  }

  lemma AlignStep(done: seq<Match>, got: seq<string>, g: nat, cand: seq<string>, used: seq<bool>)
    requires g < |got| && |cand| == |used|
    ensures var m := Pick(got[g], cand, used, |cand|);
            done + Align(got[g..], cand, used) == done + [m] + Align(got[g + 1..], cand, Take(used, m))
  {}

  method AlignTokens(gotTokens: seq<string>, candTokens: seq<string>) returns (score: int, shared: nat)
    ensures var ms := Align(gotTokens, candTokens, Unused(|candTokens|));
            score == Total(ms) && shared == Shared(ms)
  {
    var used := new bool[|candTokens|](_ => false);
    score, shared := 0, 0;
    assert used[..] == Unused(|candTokens|);
    ghost var done: seq<Match> := [];
    ghost var all := Align(gotTokens, candTokens, used[..]);
    for g := 0 to |gotTokens|
      invariant all == done + Align(gotTokens[g..], candTokens, used[..])
      invariant score == Total(done) && shared == Shared(done)
    {
      var best, bestAt := PickMatch(gotTokens[g], candTokens, used);
      ghost var m := Match(bestAt, best);
      ghost var before := used[..];
      if bestAt >= 0 {
        used[bestAt] := true;
        shared := shared + 1;
        score := score + best;
      }
      assert used[..] == Take(before, m);
      AddMatch(done, m);
      AlignStep(done, gotTokens, g, candTokens, before);
      done := done + [m];
    }
    assert done == all;
  }

  method Likeness(got: string, candidate: string) returns (score: int)
    ensures score == Score(got, candidate)
  {
    var gotTokens, candTokens := Tokens(got), Tokens(candidate);
    var shared;
    score, shared := AlignTokens(gotTokens, candTokens);
    if shared == 0 {
      var d := EditDistance.EditDistance(got, candidate);
      if d <= TypoBound(got, candidate) {
        return 90 - d;
      }
      return 0;
    }
    score := score - (|gotTokens| - shared) * UNMATCHED;
    score := score - (|candTokens| - shared) * UNMATCHED;
    if score <= 0 {
      return 0;
    }
  }

  // ----- what the alignment guarantees

  lemma {:induction false} AlignInjective(got: seq<string>, cand: seq<string>, used: seq<bool>)
    requires |cand| == |used|
    ensures var ms := Align(got, cand, used);
            && (forall i :: 0 <= i < |ms| && ms[i] != NO_MATCH ==>
                  && 0 <= ms[i].at < |cand| && !used[ms[i].at]
                  && ms[i].points == Points(got[i], cand[ms[i].at])
                  && ms[i].points in {12, 14, 16, 20})
            && (forall i, j :: 0 <= i < j < |ms| && ms[i] != NO_MATCH && ms[j] != NO_MATCH ==> ms[i].at != ms[j].at)
  {
    if got != [] {
      var m := Pick(got[0], cand, used, |cand|);
      if m != NO_MATCH {
        PointsLevels(got[0], cand[m.at]);
      }
      AlignInjective(got[1..], cand, Take(used, m));
    }
  }

  /** The candidate tokens no typed token has taken yet. */
  ghost function Free(cand: seq<string>, used: seq<bool>): multiset<string>
    requires |cand| == |used|
  {
    if cand == [] then multiset{}
    else (if used[0] then multiset{} else multiset{cand[0]}) + Free(cand[1..], used[1..])
  }

  lemma RemoveFromSum<T>(a: multiset<T>, b: multiset<T>, x: T)
    requires x in b
    ensures a + b - multiset{x} == a + (b - multiset{x})
  {}

  lemma PutBack<T>(a: multiset<T>, b: multiset<T>, x: T)
    requires x in b && a <= b - multiset{x}
    ensures multiset{x} + a <= b
  {}

  lemma WholePart<T>(a: multiset<T>, b: multiset<T>)
    requires a <= b && |a| == |b|
    ensures a == b
  {
    assert b == a + (b - a);
  }

  lemma {:induction false} TakeFromFree(cand: seq<string>, used: seq<bool>, at: nat)
    requires |cand| == |used| && at < |cand| && !used[at]
    ensures cand[at] in Free(cand, used)
    ensures Free(cand, used[at := true]) == Free(cand, used) - multiset{cand[at]}
  {
    if at > 0 {
      TakeFromFree(cand[1..], used[1..], at - 1);
      assert used[at := true][1..] == used[1..][at - 1 := true];
      RemoveFromSum(if used[0] then multiset{} else multiset{cand[0]}, Free(cand[1..], used[1..]), cand[at]);
    } else {
      assert used[at := true][1..] == used[1..];
    }
  }

  lemma {:induction false} FreeToken(cand: seq<string>, used: seq<bool>, t: string)
    requires |cand| == |used| && t in Free(cand, used)
    ensures exists i :: 0 <= i < |cand| && !used[i] && cand[i] == t
  {
    if used[0] || cand[0] != t {
      FreeToken(cand[1..], used[1..], t);
      var i :| 0 <= i < |cand[1..]| && !used[1..][i] && cand[1..][i] == t;
      assert !used[i + 1] && cand[i + 1] == t;
    }
  }

  lemma {:induction false} AllFree(cand: seq<string>)
    ensures Free(cand, Unused(|cand|)) == multiset(cand)
  {
    if cand != [] {
      assert Unused(|cand|)[1..] == Unused(|cand[1..]|);
      AllFree(cand[1..]);
      assert cand == [cand[0]] + cand[1..];
    }
  }

  /** Each aligned token uses up one free candidate token, and scores at most EXACT. */
  lemma {:induction false} SharedBounds(got: seq<string>, cand: seq<string>, used: seq<bool>)
    requires |cand| == |used|
    ensures var ms := Align(got, cand, used);
            && Shared(ms) <= |got| && Shared(ms) <= |Free(cand, used)|
            && 12 * Shared(ms) <= Total(ms) <= EXACT * Shared(ms)
  {
    if got != [] {
      var m := Pick(got[0], cand, used, |cand|);
      if m != NO_MATCH {
        PointsLevels(got[0], cand[m.at]);
        TakeFromFree(cand, used, m.at);
      }
      SharedBounds(got[1..], cand, Take(used, m));
    }
  }

  /** A head match that lets the whole reach full marks is an exact one, taken from the free tokens. */
  lemma FullMarks(gt: string, cand: seq<string>, used: seq<bool>, m: Match, rest: int, n: nat)
    requires |cand| == |used| && m == Pick(gt, cand, used, |cand|)
    requires rest <= EXACT * n && m.points + rest == EXACT * (n + 1)
    ensures m.points == EXACT && rest == EXACT * n
    ensures gt in Free(cand, used) && Free(cand, Take(used, m)) == Free(cand, used) - multiset{gt}
  {
    PointsLevels(gt, cand[m.at]);
    TakeFromFree(cand, used, m.at);
  }

  /** When every typed token earned the exact points, the typed tokens are among the free ones. */
  lemma {:induction false} ExactOnlyTakesEqual(got: seq<string>, cand: seq<string>, used: seq<bool>)
    requires |cand| == |used| && Total(Align(got, cand, used)) == EXACT * |got|
    ensures multiset(got) <= Free(cand, used)
  {
    if got != [] {
      var m := Pick(got[0], cand, used, |cand|);
      var after := Take(used, m);
      SharedBounds(got[1..], cand, after);
      FullMarks(got[0], cand, used, m, Total(Align(got[1..], cand, after)), |got[1..]|);
      ExactOnlyTakesEqual(got[1..], cand, after);
      PutBack(multiset(got[1..]), Free(cand, used), got[0]);
      HeadTail(got);
    }
  }

  lemma {:induction false} EqualTokensAlignExactly(got: seq<string>, cand: seq<string>, used: seq<bool>)
    requires |cand| == |used| && multiset(got) == Free(cand, used)
    ensures Total(Align(got, cand, used)) == EXACT * |got| && Shared(Align(got, cand, used)) == |got|
  {
    if got != [] {
      HeadTail(got);
      FreeToken(cand, used, got[0]);
      var i :| 0 <= i < |cand| && !used[i] && cand[i] == got[0];
      var m := Pick(got[0], cand, used, |cand|);
      PointsLevels(got[0], cand[i]);
      PointsLevels(got[0], cand[m.at]);
      TakeFromFree(cand, used, m.at);
      EqualTokensAlignExactly(got[1..], cand, Take(used, m));
    }
  }

  /** Once a token aligns, the score never exceeds what perfect matches on the shorter side leave after
      paying for the surplus on the longer side; and it reaches the full EXACT per typed token exactly
      when both names have the same tokens with the same multiplicity. */
  lemma ScoreBound(got: string, candidate: string)
    requires Shared(Alignment(got, candidate)) > 0
    ensures var n, m := |Tokens(got)|, |Tokens(candidate)|;
            && 0 <= Score(got, candidate) <= Max(0, EXACT * Min(n, m) - UNMATCHED * (Max(n, m) - Min(n, m)))
            && (Score(got, candidate) == EXACT * n <==> multiset(Tokens(got)) == multiset(Tokens(candidate)))
  {
    var g, c := Tokens(got), Tokens(candidate);
    var ms := Alignment(got, candidate);
    AllFree(c);
    SharedBounds(g, c, Unused(|c|));
    assert |multiset(g)| == |g| && |multiset(c)| == |c|;
    if multiset(g) == multiset(c) {
      EqualTokensAlignExactly(g, c, Unused(|c|));
    }
    if Score(got, candidate) == EXACT * |g| {
      ExactOnlyTakesEqual(g, c, Unused(|c|));
      WholePart(multiset(g), multiset(c));
    }
  }
}
