/** Optimal-string-alignment distance: the table loop of the name guesser, the recurrence it
    fills in, and edit scripts as the independent meaning of both. */
module EditDistance {

  function Min(x: int, y: int): int { if x < y then x else y }

  function Max(x: int, y: int): int { if x < y then y else x }

  // ----- meaning: edit scripts

  /** One step of an edit script. Every step is read at the end of what is left of both strings. */
  datatype Edit = Keep | Substitute | Insert | Delete | Transpose

  function EditCost(e: Edit): nat { if e == Keep then 0 else 1 }

  function Cost(script: seq<Edit>): nat {
    if script == [] then 0 else EditCost(script[|script| - 1]) + Cost(script[..|script| - 1])
  }

  /** The script rewrites `a` into `b`, each step accounting for the last characters still open.
      A transposed pair is never edited again, which is what distinguishes this from unrestricted
      Damerau-Levenshtein distance. */
  ghost predicate Rewrites<T>(script: seq<Edit>, a: seq<T>, b: seq<T>)
    decreases |script|
  {
    var n, m := |a|, |b|;
    if script == [] then a == [] && b == []
    else
      var rest := script[..|script| - 1];
      match script[|script| - 1]
      case Keep => n > 0 && m > 0 && a[n - 1] == b[m - 1] && Rewrites(rest, a[..n - 1], b[..m - 1])
      case Substitute => n > 0 && m > 0 && Rewrites(rest, a[..n - 1], b[..m - 1])
      case Insert => m > 0 && Rewrites(rest, a, b[..m - 1])
      case Delete => n > 0 && Rewrites(rest, a[..n - 1], b)
      case Transpose =>
        && n > 1 && m > 1 && a[n - 1] == b[m - 2] && a[n - 2] == b[m - 1]
        && Rewrites(rest, a[..n - 2], b[..m - 2])
  }

  // ----- recurrence

  /** The value the table holds for the prefixes `a` and `b`. */
  function Distance<T(==)>(a: seq<T>, b: seq<T>): int
    decreases |a| + |b|
  {
    var n, m := |a|, |b|;
    if n == 0 then m
    else if m == 0 then n
    else
      var cost := if a[n - 1] == b[m - 1] then 0 else 1;
      var d := Min(Min(Distance(a[..n - 1], b) + 1, Distance(a, b[..m - 1]) + 1),
                   Distance(a[..n - 1], b[..m - 1]) + cost);
      if n > 1 && m > 1 && a[n - 1] == b[m - 2] && a[n - 2] == b[m - 1] then
        Min(d, Distance(a[..n - 2], b[..m - 2]) + 1)
      else d
  }

  lemma CostSnoc(script: seq<Edit>, e: Edit)
    ensures Cost(script + [e]) == Cost(script) + EditCost(e)
  {}

  lemma RewritesSnoc<T>(script: seq<Edit>, e: Edit, a: seq<T>, b: seq<T>)
    requires match e
             case Keep => |a| > 0 && |b| > 0 && a[|a| - 1] == b[|b| - 1] && Rewrites(script, a[..|a| - 1], b[..|b| - 1])
             case Substitute => |a| > 0 && |b| > 0 && Rewrites(script, a[..|a| - 1], b[..|b| - 1])
             case Insert => |b| > 0 && Rewrites(script, a, b[..|b| - 1])
             case Delete => |a| > 0 && Rewrites(script, a[..|a| - 1], b)
             case Transpose => |a| > 1 && |b| > 1 && a[|a| - 1] == b[|b| - 2] && a[|a| - 2] == b[|b| - 1]
                               && Rewrites(script, a[..|a| - 2], b[..|b| - 2])
    ensures Rewrites(script + [e], a, b)
  {}

  /** Lower bound: no script that rewrites `a` into `b` is cheaper than the recurrence. */
  lemma {:induction false} NoCheaperScript<T>(script: seq<Edit>, a: seq<T>, b: seq<T>)
    requires Rewrites(script, a, b)
    ensures Distance(a, b) <= Cost(script)
    decreases |script|
  {
    if script != [] {
      var n, m := |a|, |b|;
      var rest := script[..|script| - 1];
      match script[|script| - 1]
      case Keep => NoCheaperScript(rest, a[..n - 1], b[..m - 1]);
      case Substitute => NoCheaperScript(rest, a[..n - 1], b[..m - 1]);
      case Insert =>
        NoCheaperScript(rest, a, b[..m - 1]);
        if n == 0 { assert Distance(a, b[..m - 1]) == m - 1; }
      case Delete =>
        NoCheaperScript(rest, a[..n - 1], b);
        if m == 0 { assert Distance(a[..n - 1], b) == n - 1; }
      case Transpose => NoCheaperScript(rest, a[..n - 2], b[..m - 2]);
    }
  }

  /** The edit `e` accounts for what `a` and `b` have beyond their first `i` and `j` elements. */
  ghost predicate Accounts<T>(e: Edit, a: seq<T>, b: seq<T>, i: nat, j: nat) {
    match e
    case Keep => i == |a| - 1 && j == |b| - 1 && a[i] == b[j]
    case Substitute => i == |a| - 1 && j == |b| - 1
    case Insert => i == |a| && j == |b| - 1
    case Delete => i == |a| - 1 && j == |b|
    case Transpose => i == |a| - 2 && j == |b| - 2 && a[i + 1] == b[j] && a[i] == b[j + 1]
  }

  /** The edit the recurrence takes last. */
  lemma LastEdit<T>(a: seq<T>, b: seq<T>) returns (e: Edit, i: nat, j: nat)
    requires |a| + |b| > 0
    ensures Accounts(e, a, b, i, j) && i + j < |a| + |b|
    ensures Distance(a, b) == Distance(a[..i], b[..j]) + EditCost(e)
  {
    var n, m := |a|, |b|;
    assert a[..n] == a && b[..m] == b;
    if n == 0 {
      e, i, j := Insert, n, m - 1;
    } else if m == 0 {
      e, i, j := Delete, n - 1, m;
    } else {
      var d := Distance(a, b);
      var same := a[n - 1] == b[m - 1];
      if d == Distance(a[..n - 1], b) + 1 {
        e, i, j := Delete, n - 1, m;
      } else if d == Distance(a, b[..m - 1]) + 1 {
        e, i, j := Insert, n, m - 1;
      } else if d == Distance(a[..n - 1], b[..m - 1]) + (if same then 0 else 1) {
        e, i, j := if same then Keep else Substitute, n - 1, m - 1;
      } else {
        e, i, j := Transpose, n - 2, m - 2;
      }
    }
  }

  /** Attainment: some script costs exactly what the recurrence says. */
  lemma {:induction false} BestScript<T>(a: seq<T>, b: seq<T>) returns (script: seq<Edit>)
    ensures Rewrites(script, a, b) && Cost(script) == Distance(a, b)
    decreases |a| + |b|
  {
    script := [];
    if a != [] || b != [] {
      var e, i, j := LastEdit(a, b);
      script := BestScript(a[..i], b[..j]);
      assert a[..|a|] == a && b[..|b|] == b;
      CostSnoc(script, e);
      RewritesSnoc(script, e, a, b);
      script := script + [e];
    }
  }

  ghost predicate IsMinimumCost<T(!new)>(d: int, a: seq<T>, b: seq<T>) {
    && (exists script :: Rewrites(script, a, b) && Cost(script) == d)
    && (forall script :: Rewrites(script, a, b) ==> d <= Cost(script))
  }

  lemma DistanceIsMinimumCost<T(!new)>(a: seq<T>, b: seq<T>)
    ensures IsMinimumCost(Distance(a, b), a, b)
  {
    var best := BestScript(a, b);
    forall script | Rewrites(script, a, b) ensures Distance(a, b) <= Cost(script) {
      NoCheaperScript(script, a, b);
    }
  }

  // ----- metric facts, read off the scripts

  function Mirror(e: Edit): Edit {
    match e
    case Insert => Delete
    case Delete => Insert
    case _ => e
  }

  lemma {:induction false} MirrorRewrites<T>(script: seq<Edit>, a: seq<T>, b: seq<T>) returns (back: seq<Edit>)
    requires Rewrites(script, a, b)
    ensures Rewrites(back, b, a) && Cost(back) == Cost(script)
    decreases |script|
  {
    back := [];
    if script != [] {
      var n, m := |a|, |b|;
      var rest := script[..|script| - 1];
      var e := script[|script| - 1];
      match e {
        case Keep => back := MirrorRewrites(rest, a[..n - 1], b[..m - 1]);
        case Substitute => back := MirrorRewrites(rest, a[..n - 1], b[..m - 1]);
        case Insert => back := MirrorRewrites(rest, a, b[..m - 1]);
        case Delete => back := MirrorRewrites(rest, a[..n - 1], b);
        case Transpose => back := MirrorRewrites(rest, a[..n - 2], b[..m - 2]);
      }
      CostSnoc(back, Mirror(e));
      RewritesSnoc(back, Mirror(e), b, a);
      back := back + [Mirror(e)];
    }
  }

  lemma {:induction false} Symmetric<T>(a: seq<T>, b: seq<T>)
    ensures Distance(a, b) == Distance(b, a)
  {
    var there := BestScript(a, b);
    var thereBack := MirrorRewrites(there, a, b);
    NoCheaperScript(thereBack, b, a);
    var here := BestScript(b, a);
    var hereBack := MirrorRewrites(here, b, a);
    NoCheaperScript(hereBack, a, b);
  }

  lemma {:induction false} FreeScriptCopies<T>(script: seq<Edit>, a: seq<T>, b: seq<T>)
    requires Rewrites(script, a, b) && Cost(script) == 0
    ensures a == b
    decreases |script|
  {
    if script != [] {
      var n, m := |a|, |b|;
      FreeScriptCopies(script[..|script| - 1], a[..n - 1], b[..m - 1]);
      assert a == a[..n - 1] + [a[n - 1]] && b == b[..m - 1] + [b[m - 1]];
    }
  }

  lemma {:induction false} CopyScript<T>(a: seq<T>) returns (script: seq<Edit>)
    ensures Rewrites(script, a, a) && Cost(script) == 0
  {
    script := [];
    if a != [] {
      script := CopyScript(a[..|a| - 1]);
      CostSnoc(script, Keep);
      RewritesSnoc(script, Keep, a, a);
      script := script + [Keep];
    }
  }

  lemma {:induction false} ZeroExactlyWhenEqual<T>(a: seq<T>, b: seq<T>)
    ensures Distance(a, b) == 0 <==> a == b
    ensures Distance(a, b) >= 0
  {
    var best := BestScript(a, b);
    if Cost(best) == 0 {
      FreeScriptCopies(best, a, b);
    }
    if a == b {
      var copy := CopyScript(a);
      NoCheaperScript(copy, a, b);
    }
  }

  lemma {:induction false} BetweenLengths<T>(a: seq<T>, b: seq<T>)
    ensures Max(|a|, |b|) - Min(|a|, |b|) <= Distance(a, b) <= Max(|a|, |b|)
    decreases |a| + |b|
  {
    var n, m := |a|, |b|;
    if n > 0 && m > 0 {
      BetweenLengths(a[..n - 1], b);
      BetweenLengths(a, b[..m - 1]);
      BetweenLengths(a[..n - 1], b[..m - 1]);
      if n > 1 && m > 1 {
        BetweenLengths(a[..n - 2], b[..m - 2]);
      }
    }
  }

  // ----- the table loop

  /** Entry (i, j) of the table: the distance between the prefixes of those lengths. */
  ghost function Entry<T>(a: seq<T>, b: seq<T>, i: nat, j: nat): int
    requires i <= |a| && j <= |b|
  {
    Distance(a[..i], b[..j])
  }

  lemma Border<T>(a: seq<T>, b: seq<T>)
    ensures forall i :: 0 <= i <= |a| ==> Entry(a, b, i, 0) == i
    ensures forall j :: 0 <= j <= |b| ==> Entry(a, b, 0, j) == j
  {}

  lemma Cell<T>(a: seq<T>, b: seq<T>, i: nat, j: nat)
    requires 0 < i <= |a| && 0 < j <= |b|
    ensures var cost := if a[i - 1] == b[j - 1] then 0 else 1;
            var d := Min(Min(Entry(a, b, i - 1, j) + 1, Entry(a, b, i, j - 1) + 1),
                         Entry(a, b, i - 1, j - 1) + cost);
            Entry(a, b, i, j) ==
            if i > 1 && j > 1 && a[i - 1] == b[j - 2] && a[i - 2] == b[j - 1] then
              Min(d, Entry(a, b, i - 2, j - 2) + 1)
            else d
  {
    assert a[..i][..i - 1] == a[..i - 1] && b[..j][..j - 1] == b[..j - 1];
    if i > 1 && j > 1 {
      assert a[..i][..i - 2] == a[..i - 2] && b[..j][..j - 2] == b[..j - 2];
    }
  }

  /** Every cell before (i, j) in row order, and the whole border, holds its entry. */
  ghost predicate Filled<T>(rows: array2<int>, a: seq<T>, b: seq<T>, i: nat, j: nat)
    reads rows
  {
    && rows.Length0 == |a| + 1 && rows.Length1 == |b| + 1
    && forall p, q :: 0 <= p <= |a| && 0 <= q <= |b| && (p == 0 || q == 0 || p < i || (p == i && q < j)) ==>
         rows[p, q] == Entry(a, b, p, q)
  }

  method FillCell<T(==)>(rows: array2<int>, a: seq<T>, b: seq<T>, i: nat, j: nat)
    requires 0 < i <= |a| && 0 < j <= |b| && Filled(rows, a, b, i, j)
    modifies rows
    ensures Filled(rows, a, b, i, j + 1)
  {
    var cost := 1;
    if a[i - 1] == b[j - 1] {
      cost := 0;
    }
    var d := Min(Min(rows[i - 1, j] + 1, rows[i, j - 1] + 1), rows[i - 1, j - 1] + cost);
    if i > 1 && j > 1 && a[i - 1] == b[j - 2] && a[i - 2] == b[j - 1] {
      d := Min(d, rows[i - 2, j - 2] + 1);
    }
    Cell(a, b, i, j);
    rows[i, j] := d;
  }

  method EditDistance<T(==)>(a: seq<T>, b: seq<T>) returns (d: int)
    ensures d == Distance(a, b)
  {
    if a == b {
      ZeroExactlyWhenEqual(a, b);
      return 0;
    }
    var rows := new int[|a| + 1, |b| + 1];
    for i := 0 to |a| + 1
      invariant forall k :: 0 <= k < i ==> rows[k, 0] == k
    {
      rows[i, 0] := i;
    }
    for j := 0 to |b| + 1
      invariant forall k :: 0 <= k <= |a| ==> rows[k, 0] == k
      invariant forall k :: 0 <= k < j ==> rows[0, k] == k
    {
      rows[0, j] := j;
    }
    Border(a, b);
    for i := 1 to |a| + 1
      invariant Filled(rows, a, b, i, 1)
    {
      for j := 1 to |b| + 1
        invariant Filled(rows, a, b, i, j)
      {
        FillCell(rows, a, b, i, j);
      }
    }
    assert a[..|a|] == a && b[..|b|] == b;
    d := rows[|a|, |b|];
  }
}
