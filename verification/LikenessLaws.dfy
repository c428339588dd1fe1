/** What likeness points and scores mean, said by edit scripts, synonym classes and tokens. */
module LikenessLaws {
  import opened Text
  import opened TextLaws
  import opened Seqs
  import opened EditDistance
  import opened Likeness

  // ----- tokens

  /** A '_', '.' or '-' ends the tokens before it and begins those behind it; a text without them is one token. */
  lemma TokensOfJoined(a: string, x: char, b: string)
    ensures x in "_.-" ==> Tokens(a + [x] + b) == Tokens(a) + Tokens(b)
    ensures (forall i :: 0 <= i < |a| ==> a[i] !in "_.-") ==> Tokens(a) == if a == "" then [] else [a]
  {
    var sep := (c: char) => c in "_.-";
    if x in "_.-" { FieldsOfJoined(a, x, b, sep); }
    if forall i :: 0 <= i < |a| ==> a[i] !in "_.-" { FieldsOfOne(a, sep); }
  }

  // ----- points

  /** Both tokens stand in one class. */
  ghost predicate Synonyms(a: string, b: string) {
    exists i :: 0 <= i < |SYNONYM_CLASSES| && a in SYNONYM_CLASSES[i] && b in SYNONYM_CLASSES[i]
  }

  lemma {:induction false} ClassIsFirst(t: string, i: nat)
    requires i <= |SYNONYM_CLASSES|
    ensures var c := ClassFrom(t, i);
            if c == -1 then forall j :: i <= j < |SYNONYM_CLASSES| ==> t !in SYNONYM_CLASSES[j]
            else i <= c < |SYNONYM_CLASSES| && t in SYNONYM_CLASSES[c]
    decreases |SYNONYM_CLASSES| - i
  {
    if i < |SYNONYM_CLASSES| { ClassIsFirst(t, i + 1); }
  }

  lemma OneClassEach(t: string, i: nat, j: nat)
    requires i < |SYNONYM_CLASSES| && j < |SYNONYM_CLASSES| && t in SYNONYM_CLASSES[i] && t in SYNONYM_CLASSES[j]
    ensures i == j
  {}

  lemma SameClassMeansSynonyms(a: string, b: string)
    ensures SynonymClass(a) >= 0 && SynonymClass(a) == SynonymClass(b) <==> Synonyms(a, b)
  {
    ClassIsFirst(a, 0);
    ClassIsFirst(b, 0);
    if Synonyms(a, b) {
      var i :| 0 <= i < |SYNONYM_CLASSES| && a in SYNONYM_CLASSES[i] && b in SYNONYM_CLASSES[i];
      OneClassEach(a, i, SynonymClass(a));
      OneClassEach(b, i, SynonymClass(b));
    }
  }

  /** What a slip of `d` edits earns between tokens of which the shorter has `short` characters. */
  function TypoPoints(d: int, short: nat): int {
    if d == 1 then 16 else if d == 2 && short > 4 then 14 else if d == 3 && short > 8 then 12 else 0
  }

  function Shorter(a: string, b: string): nat { if |a| <= |b| then |a| else |b| }

  lemma SameMinimum(d: int, e: int, a: string, b: string)
    requires IsMinimumCost(d, a, b) && IsMinimumCost(e, a, b)
    ensures d == e
  {}

  /** Equal tokens earn 20, different ones of one synonym class 16; others earn by the least number of edits that
      make one of the other: 16, 14 and 12 for one, two and three, as far as the shorter token is long enough. */
  lemma PointsAre(gt: string, ct: string, d: int)
    requires IsMinimumCost(d, gt, ct)
    ensures Points(gt, ct) == if gt == ct then 20 else if Synonyms(gt, ct) then 16 else TypoPoints(d, Shorter(gt, ct))
  {
    DistanceIsMinimumCost(gt, ct);
    SameMinimum(d, Distance(gt, ct), gt, ct);
    ZeroExactlyWhenEqual(gt, ct);
    SameClassMeansSynonyms(gt, ct);
  }

  /** Of two tokens that are no synonyms, the one fewer edits away earns strictly more, if the other earns at all. */
  lemma NearerEarnsMore(gt: string, near: string, far: string, d: int, e: int)
    requires IsMinimumCost(d, gt, near) && IsMinimumCost(e, gt, far) && d < e && gt != far
    requires !Synonyms(gt, near) && !Synonyms(gt, far) && Points(gt, far) > 0
    ensures Points(gt, near) > Points(gt, far)
  {
    PointsAre(gt, near, d);
    PointsAre(gt, far, e);
    DistanceIsMinimumCost(gt, near);
    SameMinimum(d, Distance(gt, near), gt, near);
    ZeroExactlyWhenEqual(gt, near);
    BetweenLengths(gt, near);
  }

  // ----- the greedy choice

  /** No token that is still free when a typed token's turn comes would earn it more than the one it takes. */
  lemma {:induction false} AlignIsGreedy(got: seq<string>, cand: seq<string>, used: seq<bool>, i: nat, p: nat)
    requires |cand| == |used| && i < |got| && p < |cand| && !used[p]
    requires forall j :: 0 <= j < i ==> Align(got, cand, used)[j].at != p
    ensures Points(got[i], cand[p]) <= Align(got, cand, used)[i].points
  {
    if i > 0 {
      var m := Pick(got[0], cand, used, |cand|);
      var ms := Align(got, cand, used);
      assert ms[0] == m && ms[1..] == Align(got[1..], cand, Take(used, m));
      forall j | 0 <= j < i - 1 ensures ms[1..][j].at != p { assert ms[1..][j] == ms[j + 1]; }
      AlignIsGreedy(got[1..], cand, Take(used, m), i - 1, p);
    }
  }

  // ----- scores

  lemma {:induction false} SubsetAlignsExactly(got: seq<string>, cand: seq<string>, used: seq<bool>)
    requires |cand| == |used| && multiset(got) <= Free(cand, used)
    ensures Total(Align(got, cand, used)) == 20 * |got| && Shared(Align(got, cand, used)) == |got|
  {
    if got != [] {
      HeadTail(got);
      assert got[0] in multiset(got);
      FreeToken(cand, used, got[0]);
      var i :| 0 <= i < |cand| && !used[i] && cand[i] == got[0];
      var m := Pick(got[0], cand, used, |cand|);
      PointsLevels(got[0], cand[i]);
      PointsLevels(got[0], cand[m.at]);
      TakeFromFree(cand, used, m.at);
      SubsetAlignsExactly(got[1..], cand, Take(used, m));
    }
  }

  /** When the candidate has all typed tokens and `k` more, the score is 20 for each typed token less 4 for each
      surplus one, never below 0. */
  lemma SubsetScore(got: string, candidate: string, k: nat)
    requires Tokens(got) != [] && multiset(Tokens(got)) <= multiset(Tokens(candidate))
    requires |Tokens(candidate)| == |Tokens(got)| + k
    ensures Score(got, candidate) == if 20 * |Tokens(got)| >= 4 * k then 20 * |Tokens(got)| - 4 * k else 0
  {
    var g, c := Tokens(got), Tokens(candidate);
    AllFree(c);
    SubsetAlignsExactly(g, c, Unused(|c|));
  }

  /** Where no token aligns, the whole names are compared: 90 less the edits, within the same bounds. */
  lemma WholeNameScore(got: string, candidate: string, d: int)
    requires Shared(Alignment(got, candidate)) == 0 && IsMinimumCost(d, got, candidate)
    ensures var short := Shorter(got, candidate);
            Score(got, candidate) == if d <= 1 || (d == 2 && short > 4) || (d == 3 && short > 8) then 90 - d else 0
  {
    DistanceIsMinimumCost(got, candidate);
    SameMinimum(d, Distance(got, candidate), got, candidate);
  }

  lemma TotalOfOne(m: Match)
    requires m != NO_MATCH
    ensures Total([m]) == m.points && Shared([m]) == 1
  {
    assert [m][1..] == [] && Total([]) == 0 && Shared([]) == 0;
  }

  lemma SingleScore(got: string, candidate: string)
    requires Tokens(got) == [got] && Tokens(candidate) == [candidate] && Points(got, candidate) > 0
    ensures Score(got, candidate) == Points(got, candidate)
  {
    var used := Unused(1);
    assert Pick(got, [candidate], used, 0) == NO_MATCH;
    var m := Pick(got, [candidate], used, 1);
    assert m == Match(0, Points(got, candidate));
    assert Alignment(got, candidate) == [m] + Align([got][1..], [candidate], Take(used, m));
    assert Alignment(got, candidate) == [m];
    TotalOfOne(m);
  }

  /** Two names of one token each, one slip apart, score 16. */
  lemma OneSlipScores(got: string, candidate: string)
    requires Tokens(got) == [got] && Tokens(candidate) == [candidate] && !Synonyms(got, candidate)
    requires IsMinimumCost(1, got, candidate)
    ensures Score(got, candidate) == 16
  {
    PointsAre(got, candidate, 1);
    DistanceIsMinimumCost(got, candidate);
    SameMinimum(1, Distance(got, candidate), got, candidate);
    ZeroExactlyWhenEqual(got, candidate);
    SingleScore(got, candidate);
  }
}
