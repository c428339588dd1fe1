/** What the text functions mean, said without them. */
module TextLaws {
  import opened Text

  // ----- substrings

  /** `sub` stands somewhere in `s`. */
  ghost predicate Inside(s: string, sub: string) { exists i :: 0 <= i <= |s| && sub <= s[i..] }

  lemma {:induction false} ContainsMeansInside(s: string, sub: string)
    ensures Contains(s, sub) <==> Inside(s, sub)
  {
    if s != [] {
      ContainsMeansInside(s[1..], sub);
      if Inside(s[1..], sub) {
        var i :| 0 <= i <= |s[1..]| && sub <= s[1..][i..];
        assert s[i + 1..] == s[1..][i..];
      }
      if Inside(s, sub) {
        var i :| 0 <= i <= |s| && sub <= s[i..];
        if i == 0 { assert s[0..] == s; } else { assert s[1..][i - 1..] == s[i..]; }
      }
    }
    assert s[0..] == s;
  }

  // ----- case

  lemma LoweredChar(c: char)
    ensures 'A' <= c <= 'Z' ==> 'a' <= LowerChar(c) <= 'z' && LowerChar(c) as int - 97 == c as int - 65
    ensures !('A' <= c <= 'Z') ==> LowerChar(c) == c
    ensures LowerChar(LowerChar(c)) == LowerChar(c)
  {}

  /** Lowering puts the small letter at the same place of the alphabet for each capital and keeps every other
      character; lowering again changes nothing. */
  lemma LoweringReplacesCapitals(s: string)
    ensures forall i :: 0 <= i < |s| && 'A' <= s[i] <= 'Z' ==>
              'a' <= ToLower(s)[i] <= 'z' && ToLower(s)[i] as int - 97 == s[i] as int - 65
    ensures forall i :: 0 <= i < |s| && !('A' <= s[i] <= 'Z') ==> ToLower(s)[i] == s[i]
    ensures ToLower(ToLower(s)) == ToLower(s)
  {
    forall i | 0 <= i < |s| ensures LowerChar(LowerChar(s[i])) == LowerChar(s[i]) { LoweredChar(s[i]); }
  }

  // ----- order

  /** `k` is where the texts part: one ends there, or has the smaller character. */
  ghost predicate SmallerAt(s: string, t: string, k: nat) {
    && k <= |s| && k < |t| && s[..k] == t[..k]
    && (k == |s| || s[k] < t[k])
  }

  /** The order of texts is lexicographic. */
  lemma {:induction false} BeforeIsLexicographic(s: string, t: string)
    ensures Before(s, t) <==> exists k: nat :: SmallerAt(s, t, k)
  {
    if s != [] && t != [] {
      BeforeIsLexicographic(s[1..], t[1..]);
      if s[0] == t[0] {
        if k: nat :| SmallerAt(s[1..], t[1..], k) {
          assert s[..k + 1] == [s[0]] + s[1..][..k] && t[..k + 1] == [t[0]] + t[1..][..k];
          assert SmallerAt(s, t, k + 1);
        }
        if k: nat :| SmallerAt(s, t, k) {
          assert s[1..][..k - 1] == s[..k][1..] && t[1..][..k - 1] == t[..k][1..];
          assert SmallerAt(s[1..], t[1..], k - 1);
        }
      } else if s[0] < t[0] {
        assert SmallerAt(s, t, 0);
      } else {
        forall k: nat ensures !SmallerAt(s, t, k) {
          if k > 0 && k <= |s| && k <= |t| { assert s[..k][0] == s[0] && t[..k][0] == t[0]; }
        }
      }
    } else if t != [] {
      assert SmallerAt(s, t, 0);
    }
  }

  // ----- trimming

  ghost predicate Blank(s: string) { forall i :: 0 <= i < |s| ==> IsSpace(s[i]) }

  lemma {:induction false} TrimLeftCuts(s: string) returns (l: string)
    ensures s == l + TrimLeft(s) && Blank(l)
  {
    l := "";
    if s != [] && IsSpace(s[0]) {
      var rest := TrimLeftCuts(s[1..]);
      l := [s[0]] + rest;
    }
  }

  lemma {:induction false} TrimRightCuts(s: string) returns (r: string)
    ensures s == TrimRight(s) + r && Blank(r)
  {
    r := "";
    if s != [] && IsSpace(s[|s| - 1]) {
      var rest := TrimRightCuts(s[..|s| - 1]);
      r := rest + [s[|s| - 1]];
    }
  }

  /** Trimming cuts blanks off both ends, and only blanks. */
  lemma TrimSpaceCuts(s: string) returns (l: string, r: string)
    ensures s == l + TrimSpace(s) + r && Blank(l) && Blank(r) && Trimmed(TrimSpace(s))
  {
    l := TrimLeftCuts(s);
    r := TrimRightCuts(TrimLeft(s));
    TrimSpaceTrimmed(s);
  }

  // ----- cutting

  /** The text before and after the first `c`. */
  lemma CutAtFirst(a: string, b: string, c: char)
    requires c !in a
    ensures Cut(a + [c] + b, c) == Halves(a, b, true) && Cut(a, c) == Halves(a, "", false)
  {
    var s := a + [c] + b;
    IndexAfter(a, b, c);
    assert s[..|a|] == a && s[|a| + 1..] == b;
  }

  // ----- fields

  ghost predicate Without(s: string, sep: char -> bool) { forall i :: 0 <= i < |s| ==> !sep(s[i]) }

  lemma {:induction false} FieldsOfRun(s: string, sep: char -> bool, run: string)
    requires Without(s, sep)
    ensures FieldsFrom(s, sep, run) == if run + s == [] then [] else [run + s]
    decreases |s|
  {
    if s == [] {
      assert run + s == run;
    } else {
      FieldsOfRun(s[1..], sep, run + [s[0]]);
      assert run + [s[0]] + s[1..] == run + s;
    }
  }

  /** A text without separators is one field, or none when it is empty. */
  lemma FieldsOfOne(s: string, sep: char -> bool)
    requires Without(s, sep)
    ensures FieldsFunc(s, sep) == if s == [] then [] else [s]
  {
    FieldsOfRun(s, sep, []);
    assert [] + s == s;
  }

  lemma Associate<T>(x: seq<T>, y: seq<T>, z: seq<T>)
    ensures x + (y + z) == x + y + z
  {}

  lemma {:induction false} FieldsFromJoined(a: string, x: char, b: string, sep: char -> bool, run: string)
    requires sep(x)
    ensures FieldsFrom(a + [x] + b, sep, run) == FieldsFrom(a, sep, run) + FieldsFunc(b, sep)
    decreases |a|
  {
    if a == [] {
      assert (a + [x] + b)[1..] == b;
    } else {
      assert (a + [x] + b)[0] == a[0] && (a + [x] + b)[1..] == a[1..] + [x] + b;
      if sep(a[0]) {
        FieldsFromJoined(a[1..], x, b, sep, []);
        Associate(if run == [] then [] else [run], FieldsFrom(a[1..], sep, []), FieldsFunc(b, sep));
      } else {
        FieldsFromJoined(a[1..], x, b, sep, run + [a[0]]);
      }
    }
  }

  /** A separator ends the fields before it and begins those behind it. */
  lemma FieldsOfJoined(a: string, x: char, b: string, sep: char -> bool)
    requires sep(x)
    ensures FieldsFunc(a + [x] + b, sep) == FieldsFunc(a, sep) + FieldsFunc(b, sep)
  {
    FieldsFromJoined(a, x, b, sep, []);
  }
}
