/** Strings as the program handles them, restricted to ASCII: every Go byte is one `char`. */
module Text {

  datatype Option<+T> = None | Some(value: T)

  predicate IsSpace(c: char) { c in " \t\n\r" || c == 11 as char || c == 12 as char }

  function LowerChar(c: char): char {
    if 'A' <= c <= 'Z' then (c as int + 32) as char else c
  }

  function ToLower(s: string): (r: string)
    ensures |r| == |s|
    ensures forall i :: 0 <= i < |s| ==> r[i] == LowerChar(s[i])
  {
    if s == [] then [] else [LowerChar(s[0])] + ToLower(s[1..])
  }

  predicate EqualFold(s: string, t: string) { ToLower(s) == ToLower(t) }

  function TrimLeft(s: string): string {
    if s != [] && IsSpace(s[0]) then TrimLeft(s[1..]) else s
  }

  function TrimRight(s: string): string {
    if s != [] && IsSpace(s[|s| - 1]) then TrimRight(s[..|s| - 1]) else s
  }

  function TrimSpace(s: string): string { TrimRight(TrimLeft(s)) }

  /** No blank at either end. */
  predicate Trimmed(s: string) {
    s == [] || (!IsSpace(s[0]) && !IsSpace(s[|s| - 1]))
  }

  lemma {:induction false} TrimLeftHead(s: string)
    ensures var r := TrimLeft(s); |r| <= |s| && r == s[|s| - |r|..] && (r == [] || !IsSpace(r[0]))
  {
    if s != [] && IsSpace(s[0]) {
      TrimLeftHead(s[1..]);
    }
  }

  lemma {:induction false} TrimRightEnd(s: string)
    ensures var r := TrimRight(s); |r| <= |s| && r == s[..|r|] && (r == [] || !IsSpace(r[|r| - 1]))
  {
    if s != [] && IsSpace(s[|s| - 1]) {
      TrimRightEnd(s[..|s| - 1]);
    }
  }

  lemma TrimSpaceTrimmed(s: string)
    ensures Trimmed(TrimSpace(s))
  {
    TrimLeftHead(s);
    TrimRightEnd(TrimLeft(s));
  }

  lemma TrimmedFixed(s: string)
    requires Trimmed(s)
    ensures TrimSpace(s) == s
  {}

  lemma TrimSpaceIdempotent(s: string)
    ensures TrimSpace(TrimSpace(s)) == TrimSpace(s)
  {
    TrimSpaceTrimmed(s);
    TrimmedFixed(TrimSpace(s));
  }

  /** Where `c` first occurs, or the length when it does not. */
  function IndexOf(s: string, c: char): (i: nat)
    ensures i <= |s| && c !in s[..i] && (i < |s| <==> c in s) && (i < |s| ==> s[i] == c)
  {
    if s == [] || s[0] == c then 0 else 1 + IndexOf(s[1..], c)
  }

  lemma {:induction false} IndexAfter(a: string, x: string, c: char)
    requires c !in a
    ensures IndexOf(a + [c] + x, c) == |a|
  {
    if a != [] {
      assert (a + [c] + x)[1..] == a[1..] + [c] + x;
      IndexAfter(a[1..], x, c);
    }
  }

  datatype Halves = Halves(before: string, after: string, found: bool)

  function Cut(s: string, c: char): Halves {
    var i := IndexOf(s, c);
    if i < |s| then Halves(s[..i], s[i + 1..], true) else Halves(s, "", false)
  }

  /** The maximal runs of characters for which `sep` is false, in order. `run` is the run being read. */
  function FieldsFrom(s: string, sep: char -> bool, run: string): seq<string>
    decreases |s|
  {
    var flushed := if run == [] then [] else [run];
    if s == [] then flushed
    else if sep(s[0]) then flushed + FieldsFrom(s[1..], sep, [])
    else FieldsFrom(s[1..], sep, run + [s[0]])
  }

  function FieldsFunc(s: string, sep: char -> bool): seq<string> { FieldsFrom(s, sep, []) }

  function Fields(s: string): seq<string> { FieldsFunc(s, IsSpace) }

  predicate Contains(s: string, sub: string) {
    sub <= s || (s != [] && Contains(s[1..], sub))
  }

  /** Byte-wise lexicographic order, as Go compares strings. */
  predicate Before(s: string, t: string) {
    t != [] && (s == [] || s[0] < t[0] || (s[0] == t[0] && Before(s[1..], t[1..])))
  }

  lemma {:induction false} BeforeTotal(s: string, t: string)
    ensures Before(s, t) || s == t || Before(t, s)
    ensures !(Before(s, t) && (s == t || Before(t, s)))
  {
    if s != [] && t != [] {
      BeforeTotal(s[1..], t[1..]);
      assert s == [s[0]] + s[1..] && t == [t[0]] + t[1..];
    }
  }

  lemma {:induction false} BeforeTransitive(s: string, t: string, u: string)
    requires Before(s, t) && Before(t, u)
    ensures Before(s, u)
  {
    if s != [] && s[0] == t[0] && t[0] == u[0] {
      BeforeTransitive(s[1..], t[1..], u[1..]);
    }
  }

  // ----- numbers

  function Digit(d: nat): char
    requires d < 10
  {
    d as char + '0'
  }

  function Itoa(n: nat): string { if n < 10 then [Digit(n)] else Itoa(n / 10) + [Digit(n % 10)] }

  lemma ItoaNotEmpty(n: nat)
    ensures |Itoa(n)| > 0 && forall c :: c in Itoa(n) ==> '0' <= c <= '9'
  {}

  lemma {:induction false} ItoaInjective(m: nat, n: nat)
    requires Itoa(m) == Itoa(n)
    ensures m == n
  {
    var s, t := Itoa(m), Itoa(n);
    assert s[|s| - 1] == t[|t| - 1] && s[..|s| - 1] == t[..|t| - 1];
    assert s[|s| - 1] == Digit(m % 10) && t[|t| - 1] == Digit(n % 10);
    if m >= 10 && n >= 10 {
      assert s[..|s| - 1] == Itoa(m / 10) && t[..|t| - 1] == Itoa(n / 10);
      ItoaInjective(m / 10, n / 10);
    } else if m >= 10 {
      ItoaNotEmpty(m / 10);
    } else if n >= 10 {
      ItoaNotEmpty(n / 10);
    }
  }
}
