/** Suggesting the nearest valid names for a mistyped one. */
module NameRank {
  import opened Text
  import TextLaws
  import opened Sorting
  import opened Seqs
  import opened EditDistance
  import Likeness
  import opened LikenessLaws

  const CONFIDENT_SCORE := 16

  datatype Scored = Scored(name: string, score: int)

  /** Better score first, then the smaller name. */
  predicate Outranks(x: Scored, y: Scored) {
    x.score > y.score || (x.score == y.score && Before(x.name, y.name))
  }

  lemma OutranksIsTotal()
    ensures StrictTotal(Outranks)
  {
    forall x: Scored, y: Scored
      ensures Outranks(x, y) || Outranks(y, x) || x == y
      ensures !(Outranks(x, y) && Outranks(y, x))
    {
      BeforeTotal(x.name, y.name);
    }
    forall x: Scored ensures !Outranks(x, x) {
      BeforeTotal(x.name, x.name);
    }
    forall x: Scored, y: Scored, z: Scored | Outranks(x, y) && Outranks(y, z) ensures Outranks(x, z) {
      if x.score == y.score == z.score {
        BeforeTransitive(x.name, y.name, z.name);
      }
    }
    forall x: Scored, y: Scored, z: Scored | Outranks(x, z) ensures Outranks(x, y) || Outranks(y, z) {
      BeforeTotal(x.name, y.name);
    }
  }

  /** What one candidate contributes: nothing when blank, the typed name itself, or not alike enough. */
  function Entry(got: string, candidate: string, minScore: int): seq<Scored> {
    var name := TrimSpace(candidate);
    if name == "" || EqualFold(name, got) then []
    else
      var s := Likeness.Score(got, ToLower(name));
      if s >= minScore then [Scored(name, s)] else []
  }

  function Entries(got: string, candidates: seq<string>, minScore: int): seq<Scored> {
    FlatMap(candidates, candidate => Entry(got, candidate, minScore))
  }

  function Names(s: seq<Scored>): (names: seq<string>)
    ensures |names| == |s|
    ensures forall i :: 0 <= i < |s| ==> names[i] == s[i].name
  {
    if s == [] then [] else [s[0].name] + Names(s[1..])
  }

  /** The qualifying candidates in rank order. */
  function Ranking(got: string, candidates: seq<string>, minScore: int): seq<Scored> {
    var typed := ToLower(TrimSpace(got));
    if typed == "" then [] else StableSort(Entries(typed, candidates, minScore), Outranks)
  }

  function TopNames(got: string, candidates: seq<string>, max: int, minScore: int): seq<string> {
    Names(Prefix(Ranking(got, candidates, minScore), max))
  }

  /** The library sort: some arrangement of its input in rank order. */
  method SortSlice(s: seq<Scored>) returns (r: seq<Scored>)
    ensures Sorted(r, Outranks) && multiset(r) == multiset(s)
  {
    OutranksIsTotal();
    SortSorts(s, Outranks);
    SortPermutes(s, Outranks);
    r := StableSort(s, Outranks);
  }

  method Qualify(typed: string, candidates: seq<string>, minScore: int) returns (ranked: seq<Scored>)
    ensures ranked == Entries(typed, candidates, minScore)
  {
    ghost var entry := candidate => Entry(typed, candidate, minScore);
    ranked := [];
    for i := 0 to |candidates|
      invariant ranked == FlatMap(candidates[..i], entry)
    {
      FlatMapNext(candidates, i, entry);
      var name := TrimSpace(candidates[i]);
      if name == "" || EqualFold(name, typed) {
        continue;
      }
      var s := Likeness.Likeness(typed, ToLower(name));
      if s >= minScore {
        ranked := ranked + [Scored(name, s)];
      }
    }
    assert candidates[..|candidates|] == candidates;
  }

  method TakeNames(ranked: seq<Scored>, max: int) returns (out: seq<string>)
    requires max > 0
    ensures out == Names(Prefix(ranked, max))
  {
    out := [];
    for i := 0 to |ranked|
      invariant |out| == i < max && forall k :: 0 <= k < i ==> out[k] == ranked[k].name
    {
      out := out + [ranked[i].name];
      if |out| == max {
        break;
      }
    }
    assert |out| == |Prefix(ranked, max)| && out == Names(Prefix(ranked, max));
  }

  method Rank(got: string, candidates: seq<string>, max: int, minScore: int) returns (out: seq<string>)
    ensures out == TopNames(got, candidates, max, minScore)
  {
    var typed := ToLower(TrimSpace(got));
    if typed == "" || |candidates| == 0 || max <= 0 {
      return [];
    }
    var entries := Qualify(typed, candidates, minScore);
    var ranked := SortSlice(entries);
    OutranksIsTotal();
    SortSorts(entries, Outranks);
    SortPermutes(entries, Outranks);
    SortedUnique(ranked, StableSort(entries, Outranks), Outranks);
    out := TakeNames(ranked, max);
  }

  method Nearest(got: string, candidates: seq<string>) returns (name: string)
    ensures var top := TopNames(got, candidates, 1, CONFIDENT_SCORE);
            name == if top == [] then "" else top[0]
  {
    var matches := Rank(got, candidates, 1, CONFIDENT_SCORE);
    if |matches| == 0 {
      return "";
    }
    name := matches[0];
  }

  method CloseMatches(got: string, candidates: seq<string>, max: int) returns (names: seq<string>)
    ensures names == TopNames(got, candidates, max, 1)
  {
    names := Rank(got, candidates, max, 1);
  }

  // ----- what a ranking guarantees

  /** Candidates come from a map, in any order: the suggestions are the same for every order. */
  lemma OrderOfCandidatesIrrelevant(got: string, c: seq<string>, d: seq<string>, max: int, minScore: int)
    requires multiset(c) == multiset(d)
    ensures TopNames(got, c, max, minScore) == TopNames(got, d, max, minScore)
  {
    var typed := ToLower(TrimSpace(got));
    var x, y := Entries(typed, c, minScore), Entries(typed, d, minScore);
    FlatMapPermutation(c, d, candidate => Entry(typed, candidate, minScore));
    OutranksIsTotal();
    SortSorts(x, Outranks);
    SortSorts(y, Outranks);
    SortPermutes(x, Outranks);
    SortPermutes(y, Outranks);
    SortedUnique(StableSort(x, Outranks), StableSort(y, Outranks), Outranks);
  }

  /** The candidate may be suggested, under its trimmed name and with its score. */
  ghost predicate Qualifies(typed: string, c: string, minScore: int, e: Scored) {
    && e.name == TrimSpace(c) && e.name != "" && ToLower(e.name) != ToLower(typed)
    && e.score == Likeness.Score(typed, ToLower(e.name)) && e.score >= minScore
  }

  lemma EntryQualifies(typed: string, candidates: seq<string>, minScore: int, e: Scored)
    ensures e in Entries(typed, candidates, minScore) <==>
            exists c :: c in candidates && Qualifies(typed, c, minScore, e)
  {
    var entry := candidate => Entry(typed, candidate, minScore);
    FlatMapMember(candidates, entry, e);
    forall c ensures e in entry(c) <==> Qualifies(typed, c, minScore, e) {}
  }

  /** Better score first, and among equal scores the smaller name. */
  predicate InOrder(x: Scored, y: Scored) {
    x.score > y.score || (x.score == y.score && (x.name == y.name || Before(x.name, y.name)))
  }

  lemma RankingMembers(got: string, candidates: seq<string>, minScore: int, e: Scored)
    requires ToLower(TrimSpace(got)) != ""
    ensures e in Ranking(got, candidates, minScore) <==>
            exists c :: c in candidates && Qualifies(ToLower(TrimSpace(got)), c, minScore, e)
  {
    var entries := Entries(ToLower(TrimSpace(got)), candidates, minScore);
    SortPermutes(entries, Outranks);
    assert e in multiset(entries) <==> e in multiset(StableSort(entries, Outranks));
    EntryQualifies(ToLower(TrimSpace(got)), candidates, minScore, e);
  }

  lemma RankingInOrder(got: string, candidates: seq<string>, minScore: int)
    ensures var r := Ranking(got, candidates, minScore); forall i, j :: 0 <= i < j < |r| ==> InOrder(r[i], r[j])
  {
    var r := Ranking(got, candidates, minScore);
    OutranksIsTotal();
    SortSorts(Entries(ToLower(TrimSpace(got)), candidates, minScore), Outranks);
    forall i, j | 0 <= i < j < |r| ensures InOrder(r[i], r[j]) {
      BeforeTotal(r[i].name, r[j].name);
    }
  }

  /** The suggestions are as many as asked for or as qualify: exactly the candidates that are not blank, are not the
      typed name itself and reach the score floor are ranked, each as often as it is given, better scores first and
      smaller names first among equal scores, and the suggestions are the first of them. */
  lemma SuggestionsAreBest(got: string, candidates: seq<string>, max: nat, minScore: int)
    requires ToLower(TrimSpace(got)) != ""
    ensures var typed := ToLower(TrimSpace(got));
            var r := Ranking(got, candidates, minScore);
            var k := if max < |r| then max else |r|;
            && TopNames(got, candidates, max, minScore) == Names(r[..k])
            && multiset(r) == multiset(Entries(typed, candidates, minScore))
            && (forall i, j :: 0 <= i < j < |r| ==> InOrder(r[i], r[j]))
            && forall e :: e in r <==> exists c :: c in candidates && Qualifies(typed, c, minScore, e)
  {
    var typed := ToLower(TrimSpace(got));
    SortPermutes(Entries(typed, candidates, minScore), Outranks);
    RankingInOrder(got, candidates, minScore);
    forall e ensures e in Ranking(got, candidates, minScore) <==>
                     exists c :: c in candidates && Qualifies(typed, c, minScore, e)
    {
      RankingMembers(got, candidates, minScore, e);
    }
  }

  // ----- the one confident suggestion

  /** Nobody but the candidates named `name` comes first. */
  ghost predicate NoneBetter(typed: string, candidates: seq<string>, name: string, score: int) {
    forall c, e :: c in candidates && Qualifies(typed, c, 16, e) ==>
      e.score < score || (e.score == score && (e.name == name || Before(name, e.name)))
  }

  lemma NotRanked(got: string, candidates: seq<string>, c: string, e: Scored)
    requires ToLower(TrimSpace(got)) != "" && c in candidates && Ranking(got, candidates, CONFIDENT_SCORE) == []
    ensures !Qualifies(ToLower(TrimSpace(got)), c, 16, e)
  {
    RankingMembers(got, candidates, CONFIDENT_SCORE, e);
  }

  /** There is no suggestion exactly when no candidate scores 16 or more. */
  lemma NoneExactlyWhenNoneQualifies(got: string, candidates: seq<string>)
    requires ToLower(TrimSpace(got)) != ""
    ensures TopNames(got, candidates, 1, CONFIDENT_SCORE) == []
            <==> forall c, e :: c in candidates ==> !Qualifies(ToLower(TrimSpace(got)), c, 16, e)
  {
    var typed := ToLower(TrimSpace(got));
    var r := Ranking(got, candidates, CONFIDENT_SCORE);
    if r == [] {
      forall c, e | c in candidates ensures !Qualifies(typed, c, 16, e) { NotRanked(got, candidates, c, e); }
    } else {
      RankingMembers(got, candidates, CONFIDENT_SCORE, r[0]);
      assert Prefix(r, 1) == [r[0]];
    }
  }

  lemma FirstInRanking(r: seq<Scored>, e: Scored)
    requires e in r && forall i, j :: 0 <= i < j < |r| ==> InOrder(r[i], r[j])
    requires r[0].score < e.score || (r[0].score == e.score && (r[0].name == e.name || Before(e.name, r[0].name)))
    ensures r[0].name == e.name
  {
    var i :| 0 <= i < |r| && r[i] == e;
    BeforeTotal(r[0].name, e.name);
    assert i == 0 || InOrder(r[0], r[i]);
  }

  /** The suggestion is the qualifying candidate that no other one beats. */
  lemma NearestIsBest(got: string, candidates: seq<string>, c: string, score: int)
    requires ToLower(TrimSpace(got)) != "" && c in candidates
    requires Qualifies(ToLower(TrimSpace(got)), c, 16, Scored(TrimSpace(c), score))
    requires NoneBetter(ToLower(TrimSpace(got)), candidates, TrimSpace(c), score)
    ensures TopNames(got, candidates, 1, CONFIDENT_SCORE) == [TrimSpace(c)]
  {
    var typed, e := ToLower(TrimSpace(got)), Scored(TrimSpace(c), score);
    var r := Ranking(got, candidates, CONFIDENT_SCORE);
    RankingMembers(got, candidates, CONFIDENT_SCORE, e);
    RankingMembers(got, candidates, CONFIDENT_SCORE, r[0]);
    RankingInOrder(got, candidates, CONFIDENT_SCORE);
    FirstInRanking(r, e);
    assert Prefix(r, 1) == [r[0]];
  }

  /** A single token typed with one slip is understood: the candidate that is one edit away is suggested, unless
      another one scores better, or the same with a smaller name. */
  lemma OneSlipIsUnderstood(got: string, candidates: seq<string>, c: string)
    requires c in candidates
    requires var typed, name := ToLower(TrimSpace(got)), ToLower(TrimSpace(c));
             && Likeness.Tokens(typed) == [typed] && Likeness.Tokens(name) == [name]
             && IsMinimumCost(1, typed, name) && !Synonyms(typed, name)
             && NoneBetter(typed, candidates, TrimSpace(c), 16)
    ensures TopNames(got, candidates, 1, CONFIDENT_SCORE) == [TrimSpace(c)]
  {
    var typed, name := ToLower(TrimSpace(got)), ToLower(TrimSpace(c));
    OneSlipScores(typed, name);
    TokensOfJoined("", '_', "");
    TextLaws.LoweringReplacesCapitals(TrimSpace(got));
    DistanceIsMinimumCost(typed, name);
    SameMinimum(1, Distance(typed, name), typed, name);
    ZeroExactlyWhenEqual(typed, name);
    NearestIsBest(got, candidates, c, 16);
  }
}
