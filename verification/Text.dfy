/**
 Text as the registry uses it: Go strings compared byte by byte, trimmed of
 white space, cut at a separator, split and joined, and the decimal rendering
 of numbers with zero padding (`%0wd`).

 A string is a sequence of code points. On well-formed UTF-8 the byte order
 that Go, SQLite and the "C" collation use is the order of the code points.
 */
module Text {

  function Sign(n: int): int { if n < 0 then -1 else if n > 0 then 1 else 0 }

  /** strings.Compare: the lexicographic order, as -1, 0 or 1. */
  function Compare(a: string, b: string): int
  {
    if a == [] && b == [] then 0
    else if a == [] then -1
    else if b == [] then 1
    else if a[0] != b[0] then (if a[0] < b[0] then -1 else 1)
    else Compare(a[1..], b[1..])
  }

  lemma Assoc(a: string, b: string, c: string)
    ensures (a + b) + c == a + (b + c)
  {
  }

  lemma {:induction false} CompareEqual(a: string, b: string)
    ensures Compare(a, b) == 0 <==> a == b
  {
    if a != [] && b != [] {
      CompareEqual(a[1..], b[1..]);
      assert a == [a[0]] + a[1..] && b == [b[0]] + b[1..];
    }
  }

  lemma {:induction false} CompareFlip(a: string, b: string)
    ensures Compare(b, a) == -Compare(a, b)
  {
    if a != [] && b != [] { CompareFlip(a[1..], b[1..]); }
  }

  lemma {:induction false} CompareTransitive(a: string, b: string, c: string)
    requires Compare(a, b) <= 0 && Compare(b, c) <= 0
    ensures Compare(a, c) <= 0
    ensures Compare(a, b) < 0 || Compare(b, c) < 0 ==> Compare(a, c) < 0
  {
    if a != [] && b != [] && c != [] && a[0] == b[0] && b[0] == c[0] {
      CompareTransitive(a[1..], b[1..], c[1..]);
    }
  }

  /** A common prefix never decides a comparison. */
  lemma {:induction false} CompareAfterPrefix(p: string, a: string, b: string)
    ensures Compare(p + a, p + b) == Compare(a, b)
  {
    if p == [] {
      assert p + a == a && p + b == b;
    } else {
      assert (p + a)[1..] == p[1..] + a && (p + b)[1..] == p[1..] + b;
      CompareAfterPrefix(p[1..], a, b);
    }
  }

  /** Two different strings of the same length decide, whatever follows them. */
  lemma {:induction false} CompareSameLength(a: string, b: string, x: string, y: string)
    requires |a| == |b|
    ensures a != b ==> Compare(a + x, b + y) == Compare(a, b)
    ensures a == b ==> Compare(a + x, b + y) == Compare(x, y)
  {
    if a == b {
      CompareAfterPrefix(a, x, y);
    } else {
      assert (a + x)[1..] == a[1..] + x && (b + y)[1..] == b[1..] + y;
      assert a == [a[0]] + a[1..] && b == [b[0]] + b[1..];
      if a[0] == b[0] { CompareSameLength(a[1..], b[1..], x, y); }
    }
  }

  /** unicode.IsSpace. */
  predicate IsSpace(c: char)
  {
    c in "\t\n\U{0B}\U{0C}\r \U{85}\U{A0}\U{1680}\U{2028}\U{2029}\U{202F}\U{205F}\U{3000}"
    || '\U{2000}' <= c <= '\U{200A}'
  }

  function TrimLeft(s: string): (r: string)
    ensures |r| <= |s|
    ensures r == [] || !IsSpace(r[0])
  {
    if s != [] && IsSpace(s[0]) then TrimLeft(s[1..]) else s
  }

  function TrimRight(s: string): (r: string)
    ensures r <= s
    ensures r == [] || !IsSpace(r[|r| - 1])
  {
    if s != [] && IsSpace(s[|s| - 1]) then TrimRight(s[..|s| - 1]) else s
  }

  /** strings.TrimSpace. */
  function TrimSpace(s: string): string { TrimRight(TrimLeft(s)) }

  /** strings.Split and strings.SplitSeq for a one-character separator. */
  function Split(s: string, sep: char): (parts: seq<string>)
    ensures |parts| >= 1
  {
    if s == [] then [[]]
    else if s[0] == sep then [[]] + Split(s[1..], sep)
    else var rest := Split(s[1..], sep); [[s[0]] + rest[0]] + rest[1..]
  }

  function Join(parts: seq<string>, sep: char): string
    requires |parts| >= 1
  {
    if |parts| == 1 then parts[0] else parts[0] + [sep] + Join(parts[1..], sep)
  }

  /** The part of strings.Cut before the first separator, and whether there is one. */
  function Before(s: string, sep: char): (r: string)
    ensures r <= s && sep !in r
    ensures |r| < |s| ==> s[|r|] == sep
  {
    if s == [] || s[0] == sep then [] else [s[0]] + Before(s[1..], sep)
  }

  function After(s: string, sep: char): string
  {
    var n := |Before(s, sep)|;
    if n < |s| then s[n + 1..] else []
  }

  lemma {:induction false} BeforeOfSeparated(a: string, sep: char, b: string)
    requires sep !in a
    ensures Before(a + [sep] + b, sep) == a && After(a + [sep] + b, sep) == b
  {
    if a == [] {
      assert a + [sep] + b == [sep] + b;
    } else {
      assert (a + [sep] + b)[1..] == a[1..] + [sep] + b;
      BeforeOfSeparated(a[1..], sep, b);
    }
  }

  lemma {:induction false} BeforeWithout(a: string, sep: char)
    requires sep !in a
    ensures Before(a, sep) == a && After(a, sep) == []
  {
    if a != [] { BeforeWithout(a[1..], sep); }
  }

  lemma {:induction false} SplitWithout(a: string, sep: char)
    requires sep !in a
    ensures Split(a, sep) == [a]
  {
    if a != [] { SplitWithout(a[1..], sep); assert a == [a[0]] + a[1..]; }
  }

  lemma {:induction false} SplitSeparated(a: string, sep: char, b: string)
    requires sep !in a
    ensures Split(a + [sep] + b, sep) == [a] + Split(b, sep)
  {
    if a == [] {
      assert a + [sep] + b == [sep] + b;
    } else {
      var s := a + [sep] + b;
      assert s[1..] == a[1..] + [sep] + b && s[0] == a[0];
      SplitSeparated(a[1..], sep, b);
      assert a == [a[0]] + a[1..];
    }
  }

  /** Splitting undoes joining when no part holds the separator. */
  lemma {:induction false} SplitOfJoin(parts: seq<string>, sep: char)
    requires |parts| >= 1
    requires forall p :: p in parts ==> sep !in p
    ensures Split(Join(parts, sep), sep) == parts
  {
    if |parts| == 1 {
      SplitWithout(parts[0], sep);
    } else {
      SplitOfJoin(parts[1..], sep);
      SplitSeparated(parts[0], sep, Join(parts[1..], sep));
      assert parts == [parts[0]] + parts[1..];
    }
  }

  /** And joining undoes splitting. */
  lemma {:induction false} JoinOfSplit(s: string, sep: char)
    ensures Join(Split(s, sep), sep) == s
  {
    if s == "" {
    } else {
      var rest := Split(s[1..], sep);
      JoinOfSplit(s[1..], sep);
      if s[0] == sep {
        assert ([[]] + rest)[1..] == rest;
      } else {
        var parts := Split(s, sep);
        assert parts[1..] == rest[1..];
      }
      assert s == [s[0]] + s[1..];
    }
  }

  lemma {:induction false} SplitPartsAvoid(s: string, sep: char)
    ensures forall p :: p in Split(s, sep) ==> sep !in p
  {
    if s != [] { SplitPartsAvoid(s[1..], sep); }
  }

  lemma {:induction false} SplitStart(s: string, sep: char)
    requires Split(s, sep)[0] != ""
    ensures s != "" && s[0] == Split(s, sep)[0][0]
  {
  }

  /* ---------- decimal rendering ---------- */

  predicate IsDigit(c: char) { '0' <= c <= '9' }

  predicate Digits(s: string) { forall i :: 0 <= i < |s| ==> IsDigit(s[i]) }

  function DigitChar(d: nat): char
    requires d < 10
  {
    '0' + d as char
  }

  function DigitOf(c: char): (d: nat)
    requires IsDigit(c)
    ensures d < 10
  {
    (c - '0') as int
  }

  function Pow10(w: nat): (p: nat)
    ensures p > 0
  {
    if w == 0 then 1 else 10 * Pow10(w - 1)
  }

  /** n in exactly w decimal digits. */
  function Fixed(n: nat, w: nat): (s: string)
    ensures |s| == w && Digits(s)
  {
    if w == 0 then [] else Fixed(n / 10, w - 1) + [DigitChar(n % 10)]
  }

  function Decimal(n: nat): (s: string)
    ensures s != [] && Digits(s)
  {
    if n < 10 then [DigitChar(n)] else Decimal(n / 10) + [DigitChar(n % 10)]
  }

  /** fmt's `%0wd`: at least w digits, more when the number needs them. */
  function Padded(n: nat, w: nat): (s: string)
    ensures Digits(s)
  {
    if n < Pow10(w) then Fixed(n, w) else Decimal(n)
  }

  /** The number a run of digits denotes. */
  function Value(s: string): nat
    requires Digits(s)
  {
    if s == [] then 0 else 10 * Value(s[..|s| - 1]) + DigitOf(s[|s| - 1])
  }

  lemma {:induction false} ValueBound(s: string)
    requires Digits(s)
    ensures Value(s) < Pow10(|s|)
    ensures s != [] && s[0] != '0' ==> Pow10(|s| - 1) <= Value(s)
  {
    if s != [] {
      ValueBound(s[..|s| - 1]);
    }
  }

  /** Among digit runs of one length the text order is the numeric order. */
  lemma {:induction false} ValueOrder(a: string, b: string)
    requires Digits(a) && Digits(b) && |a| == |b|
    ensures Compare(a, b) == Sign(Value(a) - Value(b))
  {
    if a != [] {
      var i, j := a[..|a| - 1], b[..|b| - 1];
      ValueOrder(i, j);
      CompareEqual(i, j);
      assert a == i + [a[|a| - 1]] && b == j + [b[|b| - 1]];
      CompareSameLength(i, j, [a[|a| - 1]], [b[|b| - 1]]);
      if i == j {
        LastDigitOrder(a[|a| - 1], b[|b| - 1]);
      }
    }
  }

  lemma LastDigitOrder(c: char, d: char)
    requires IsDigit(c) && IsDigit(d)
    ensures Compare([c], [d]) == Sign(DigitOf(c) - DigitOf(d))
  {
    if c == d { assert [c][1..] == [] && [d][1..] == []; }
  }

  lemma {:induction false} ValueOfFixed(n: nat, w: nat)
    requires n < Pow10(w)
    ensures Value(Fixed(n, w)) == n
  {
    if w > 0 {
      ValueOfFixed(n / 10, w - 1);
      assert Fixed(n, w)[..w - 1] == Fixed(n / 10, w - 1);
    }
  }

  /** Fixed-width numbers sort as numbers. */
  lemma FixedOrder(m: nat, n: nat, w: nat)
    requires m < Pow10(w) && n < Pow10(w)
    ensures Compare(Fixed(m, w), Fixed(n, w)) == Sign(m - n)
  {
    ValueOfFixed(m, w);
    ValueOfFixed(n, w);
    ValueOrder(Fixed(m, w), Fixed(n, w));
  }

  lemma {:induction false} Pow10Grows(v: nat, w: nat)
    requires v <= w
    ensures Pow10(v) <= Pow10(w)
  {
    if v < w { Pow10Grows(v, w - 1); }
  }

  /** A width large enough for n. */
  lemma {:induction false} WidthFor(n: nat) returns (w: nat)
    ensures n < Pow10(w)
  {
    w := 0;
    while Pow10(w) <= n
      invariant Pow10(w) >= w
      decreases n - w
    {
      w := w + 1;
    }
  }
}
