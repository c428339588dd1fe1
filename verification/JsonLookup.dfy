/** What a lookup by path means, said without the function that does it. */
module JsonLookup {
  import opened Text
  import opened JsonTree

  // ----- array indexes

  function Zeros(k: nat): string { seq(k, _ => '0') }

  /** The decimal text of `n`, with leading zeros or a sign that changes nothing. */
  ghost predicate Numeral(s: string, n: nat) {
    exists sign: string, k: nat :: s == sign + Zeros(k) + Itoa(n) && (sign in {"", "+"} || (sign == "-" && n == 0))
  }

  lemma {:induction false} DigitsAppend(s: string, t: string, n: nat)
    ensures Digits(s + t, n) == if Digits(s, n).None? then None else Digits(t, Digits(s, n).value)
  {
    if s == [] {
      assert s + t == t;
    } else {
      assert (s + t)[1..] == s[1..] + t;
      if IsDigit(s[0]) { DigitsAppend(s[1..], t, 10 * n + (s[0] - '0') as int); }
    }
  }

  lemma {:induction false} DigitsOfZeros(k: nat)
    ensures Digits(Zeros(k), 0) == Some(0)
  {
    if k > 0 {
      assert Zeros(k)[1..] == Zeros(k - 1);
      DigitsOfZeros(k - 1);
    }
  }

  lemma DigitOf(d: nat, n: nat)
    requires d < 10
    ensures Digits([Digit(d)], n) == Some(10 * n + d)
  {
    assert [Digit(d)][1..] == [];
  }

  lemma {:induction false} DigitsOfItoa(n: nat)
    ensures Digits(Itoa(n), 0) == Some(n)
  {
    if n < 10 {
      DigitOf(n, 0);
    } else {
      DigitsOfItoa(n / 10);
      DigitsAppend(Itoa(n / 10), [Digit(n % 10)], 0);
      DigitOf(n % 10, n / 10);
    }
  }

  /** Digits are leading zeros and the text of their value. */
  lemma {:induction false} DigitsAreItoa(s: string) returns (k: nat)
    requires s != [] && Digits(s, 0).Some?
    ensures s == Zeros(k) + Itoa(Digits(s, 0).value)
  {
    var init, c := s[..|s| - 1], s[|s| - 1];
    assert s == init + [c];
    DigitsAppend(init, [c], 0);
    var m := Digits(init, 0).value;
    assert IsDigit(c) && [c][1..] == [];
    var d := (c - '0') as int;
    assert Digits(s, 0).value == 10 * m + d && c == Digit(d);
    if init == [] {
      k := 0;
    } else {
      k := DigitsAreItoa(init);
      if m == 0 {
        assert s == Zeros(k + 1) + [c];
        k := k + 1;
      } else {
        assert (10 * m + d) / 10 == m && (10 * m + d) % 10 == d;
        assert s == Zeros(k) + (Itoa(m) + [c]);
      }
    }
  }

  lemma HeadOfItoa(n: nat)
    ensures Itoa(n) != "" && IsDigit(Itoa(n)[0])
  {
    ItoaNotEmpty(n);
    assert Itoa(n)[0] in Itoa(n);
  }

  lemma SignedIsRead(sign: string, body: string, n: nat)
    requires body != "" && IsDigit(body[0]) && Digits(body, 0) == Some(n)
    requires sign in {"", "+"} || (sign == "-" && n == 0)
    ensures Atoi(sign + body) == Some(n)
  {
    if sign == "" {
      assert sign + body == body;
    } else {
      assert (sign + body)[0] == sign[0] && (sign + body)[1..] == body;
    }
  }

  lemma NumeralIsRead(s: string, n: nat)
    requires Numeral(s, n)
    ensures Atoi(s) == Some(n)
  {
    var sign: string, k: nat :|
      s == sign + Zeros(k) + Itoa(n) && (sign in {"", "+"} || (sign == "-" && n == 0));
    var body := Zeros(k) + Itoa(n);
    DigitsOfZeros(k);
    DigitsOfItoa(n);
    DigitsAppend(Zeros(k), Itoa(n), 0);
    HeadOfItoa(n);
    assert s == sign + body;
    SignedIsRead(sign, body, n);
  }

  lemma ReadIsNumeral(s: string, n: nat)
    requires Atoi(s) == Some(n)
    ensures Numeral(s, n)
  {
    var signed := s[0] == '+' || s[0] == '-';
    var sign, body := if signed then [s[0]] else "", if signed then s[1..] else s;
    var k := DigitsAreItoa(body);
    assert s == sign + Zeros(k) + Itoa(n);
  }

  /** A segment is read as an index exactly when it is a numeral for it. */
  lemma ReadExactlyNumerals(s: string, n: nat)
    ensures Atoi(s) == Some(n) <==> Numeral(s, n)
  {
    if Numeral(s, n) { NumeralIsRead(s, n); }
    if Atoi(s) == Some(n) { ReadIsNumeral(s, n); }
  }

  // ----- lookup

  /** Following the segments from `v` leads to `w`: a key goes into an object, a numeral to the element of an array
      with that index, "*" to all elements at once. */
  ghost predicate Finds(v: Json, path: seq<string>, w: Json)
    decreases |path|, 0
  {
    if path == [] then v == w
    else
      match v
      case Obj(m) => path[0] in m && Finds(m[path[0]], path[1..], w)
      case Arr(items) =>
        if path[0] == "*" then w.Arr? && Gathers(items, path[1..], w.items)
        else exists n: nat :: n < |items| && Numeral(path[0], n) && Finds(items[n], path[1..], w)
      case _ => false
  }

  /** `found` is what the elements lead to, in their order, leaving out those that lead nowhere. */
  ghost predicate Gathers(items: seq<Json>, path: seq<string>, found: seq<Json>)
    decreases |path|, 1, |items|
  {
    if items == [] then found == []
    else
      || (found != [] && Finds(items[0], path, found[0]) && Gathers(items[1..], path, found[1..]))
      || ((forall w :: !Finds(items[0], path, w)) && Gathers(items[1..], path, found))
  }

  ghost predicate LooksUp(path: seq<string>) {
    forall v, w :: Extract(v, path) == Some(w) <==> Finds(v, path, w)
  }

  lemma HitIsFound(v: Json, path: seq<string>)
    requires LooksUp(path)
    ensures var hit := Extract(v, path);
            if hit.Some? then forall w :: Finds(v, path, w) <==> w == hit.value else forall w :: !Finds(v, path, w)
  {
    var hit := Extract(v, path);
    forall w ensures hit == Some(w) <==> Finds(v, path, w) {}
    if hit.Some? { assert Finds(v, path, hit.value); }
  }

  lemma {:induction false} ProjectIsGathering(items: seq<Json>, path: seq<string>, found: seq<Json>)
    requires LooksUp(path)
    ensures Project(items, path) == found <==> Gathers(items, path, found)
  {
    if items != [] {
      HitIsFound(items[0], path);
      ProjectIsGathering(items[1..], path, found);
      if found != [] {
        ProjectIsGathering(items[1..], path, found[1..]);
        assert found == [found[0]] + found[1..];
      }
    }
  }

  lemma IndexFinds(items: seq<Json>, path: seq<string>, w: Json)
    requires path != [] && path[0] != "*" && LooksUp(path[1..])
    ensures Extract(Arr(items), path) == Some(w) <==> Finds(Arr(items), path, w)
  {
    forall n: nat ensures Atoi(path[0]) == Some(n) <==> Numeral(path[0], n) { ReadExactlyNumerals(path[0], n); }
    forall n: nat | n < |items| ensures Extract(items[n], path[1..]) == Some(w) <==> Finds(items[n], path[1..], w) {}
    var i := Atoi(path[0]);
    if i.Some? && 0 <= i.value {
      var n: nat := i.value;
      assert Numeral(path[0], n);
    }
  }

  /** A lookup finds exactly what the path leads to, through keys, indexes and projections. */
  lemma {:induction false} LookupFinds(path: seq<string>)
    ensures forall v, w :: Extract(v, path) == Some(w) <==> Finds(v, path, w)
  {
    if path != [] {
      LookupFinds(path[1..]);
      assert LooksUp(path[1..]);
      forall v, w ensures Extract(v, path) == Some(w) <==> Finds(v, path, w) {
        if v.Arr? {
          if path[0] == "*" {
            if w.Arr? { ProjectIsGathering(v.items, path[1..], w.items); }
          } else {
            IndexFinds(v.items, path, w);
          }
        }
      }
    }
  }

  // ----- dotted paths

  function Join(parts: seq<string>, sep: char): string
    requires parts != []
  {
    if |parts| == 1 then parts[0] else parts[0] + [sep] + Join(parts[1..], sep)
  }

  lemma {:induction false} SplitOne(a: string, sep: char)
    requires sep !in a
    ensures Split(a, sep) == [a]
  {
    if a != [] {
      SplitOne(a[1..], sep);
      assert [a[0]] + a[1..] == a;
    }
  }

  lemma {:induction false} SplitFirst(a: string, b: string, sep: char)
    requires sep !in a
    ensures Split(a + [sep] + b, sep) == [a] + Split(b, sep)
  {
    var s := a + [sep] + b;
    if a == [] {
      assert s[0] == sep && s[1..] == b;
    } else {
      assert s[0] == a[0] && s[1..] == a[1..] + [sep] + b;
      SplitFirst(a[1..], b, sep);
      assert ([a[1..]] + Split(b, sep))[1..] == Split(b, sep);
      assert [a[0]] + a[1..] == a;
    }
  }

  /** Splitting gives back the segments that were joined. */
  lemma {:induction false} SplitOfJoin(parts: seq<string>, sep: char)
    requires parts != [] && forall i :: 0 <= i < |parts| ==> sep !in parts[i]
    ensures Split(Join(parts, sep), sep) == parts
  {
    if |parts| == 1 {
      SplitOne(parts[0], sep);
      assert [parts[0]] == parts;
    } else {
      SplitOfJoin(parts[1..], sep);
      SplitFirst(parts[0], Join(parts[1..], sep), sep);
      assert parts == [parts[0]] + parts[1..];
    }
  }

  /** Joining gives back the text that was split, and no segment has a separator. */
  lemma {:induction false} JoinOfSplit(s: string, sep: char)
    ensures Join(Split(s, sep), sep) == s
    ensures forall i :: 0 <= i < |Split(s, sep)| ==> sep !in Split(s, sep)[i]
  {
    if s != [] {
      var r := Split(s[1..], sep);
      JoinOfSplit(s[1..], sep);
      if s[0] == sep {
        assert ([""] + r)[1..] == r;
      } else {
        assert ([[s[0]] + r[0]] + r[1..])[1..] == r[1..];
      }
    }
  }

  /** The value at a dotted path. */
  function ExtractPath(v: Json, path: string): Option<Json> { Extract(v, Split(path, '.')) }

  /** A dotted path finds what its segments lead to. */
  lemma PathFinds(v: Json, parts: seq<string>, w: Json)
    requires parts != [] && forall i :: 0 <= i < |parts| ==> '.' !in parts[i]
    ensures ExtractPath(v, Join(parts, '.')) == Some(w) <==> Finds(v, parts, w)
  {
    SplitOfJoin(parts, '.');
    LookupFinds(parts);
  }
}
