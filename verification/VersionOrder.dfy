/**
 The sort key stored beside every release, so that SQL's `order by` on text
 yields version precedence. A key is built for a padding width; the registry
 uses width 10. The proof is for every width, which also gives the laws of
 CompareVersions without any bound on the identifiers.
 */
module VersionOrder {
  import opened Text
  import opened Version
  import opened VersionGrammar

  const KEY_WIDTH: nat := 10

  function NumberKey(part: string, w: nat): string { Padded(|part|, w) + part + "!" }

  function IdentifierKey(part: string, w: nat): string
  {
    if Digits(part) then "0" + NumberKey(part, w) else "1" + part + "!"
  }

  function NumberKeys(parts: seq<string>, w: nat, tail: string): string
  {
    if parts == [] then tail else NumberKey(parts[0], w) + NumberKeys(parts[1..], w, tail)
  }

  function IdentifierKeys(parts: seq<string>, w: nat): string
  {
    if parts == [] then "" else IdentifierKey(parts[0], w) + IdentifierKeys(parts[1..], w)
  }

  function SemverKey(v: Semver, w: nat): string
  {
    "1" + NumberKeys([v.major, v.minor, v.patch], w, ReleaseMark(v.pre, w))
  }

  function Key(version: string, w: nat): string
  {
    match Normalized(version)
    case None => "0" + TrimSpace(version)
    case Some(v) => SemverKey(v, w)
  }

  /** The column `version_order`. */
  function OrderKey(version: string): string { Key(version, KEY_WIDTH) }

  /** Every numeric identifier of the version has at most so many digits. */
  predicate NumbersUpTo(version: string, digits: nat)
  {
    match Normalized(version)
    case None => true
    case Some(v) =>
      |v.major| <= digits && |v.minor| <= digits && |v.patch| <= digits
      && forall id :: id in v.pre && Digits(id) ==> |id| <= digits
  }

  /** Every numeric identifier of the version has fewer than 10^w digits. */
  predicate Fits(version: string, w: nat) { NumbersUpTo(version, Pow10(w) - 1) }

  /* ---------- one component at a time ---------- */

  lemma NumberKeyDecides(x: string, y: string, p: string, q: string, w: nat)
    requires Numeric(x) && Numeric(y) && |x| < Pow10(w) && |y| < Pow10(w)
    ensures Compare(NumberKey(x, w) + p, NumberKey(y, w) + q)
         == if x == y then Compare(p, q) else Sign(Value(x) - Value(y))
    ensures x != y ==> Value(x) != Value(y)
  {
    NumericOrder(x, y);
    var a, b := Padded(|x|, w), Padded(|y|, w);
    FixedOrder(|x|, |y|, w);
    assert NumberKey(x, w) + p == a + (x + ("!" + p));
    assert NumberKey(y, w) + q == b + (y + ("!" + q));
    CompareEqual(a, b);
    CompareSameLength(a, b, x + ("!" + p), y + ("!" + q));
    if |x| == |y| {
      CompareSameLength(x, y, "!" + p, "!" + q);
      CompareAfterPrefix("!", p, q);
      CompareEqual(x, y);
    }
  }

  /** The terminator sorts below every identifier character. */
  lemma {:induction false} TextKeyDecides(x: string, y: string, p: string, q: string)
    requires forall i :: 0 <= i < |x| ==> IdentifierChar(x[i])
    requires forall i :: 0 <= i < |y| ==> IdentifierChar(y[i])
    ensures Compare(x + "!" + p, y + "!" + q) == if x == y then Compare(p, q) else Compare(x, y)
  {
    if x == [] && y == [] {
      CompareAfterPrefix("!", p, q);
      assert x + "!" + p == "!" + p && y + "!" + q == "!" + q;
    } else if x != [] && y != [] {
      assert (x + "!" + p)[1..] == x[1..] + "!" + p && (y + "!" + q)[1..] == y[1..] + "!" + q;
      assert x == [x[0]] + x[1..] && y == [y[0]] + y[1..];
      TextKeyDecides(x[1..], y[1..], p, q);
    }
  }

  lemma NumericIdentifierKey(x: string, p: string, w: nat)
    requires Digits(x)
    ensures IdentifierKey(x, w) + p == "0" + (NumberKey(x, w) + p)
  {
    assert "0" + NumberKey(x, w) + p == "0" + (NumberKey(x, w) + p);
  }

  lemma TextIdentifierKey(x: string, p: string, w: nat)
    requires !Digits(x)
    ensures IdentifierKey(x, w) + p == "1" + (x + "!" + p)
  {
    assert "1" + x + "!" + p == "1" + (x + "!" + p);
  }

  lemma IdentifierKeyDecides(x: string, y: string, p: string, q: string, w: nat)
    requires PreIdentifier(x) && PreIdentifier(y)
    requires Digits(x) ==> |x| < Pow10(w)
    requires Digits(y) ==> |y| < Pow10(w)
    ensures Compare(IdentifierKey(x, w) + p, IdentifierKey(y, w) + q)
         == if x == y then Compare(p, q) else CompareIdentifiers(x, y)
    ensures x != y <==> CompareIdentifiers(x, y) != 0
  {
    if Digits(x) && Digits(y) {
      NumericIdentifierKey(x, p, w);
      NumericIdentifierKey(y, q, w);
      CompareAfterPrefix("0", NumberKey(x, w) + p, NumberKey(y, w) + q);
      NumberKeyDecides(x, y, p, q, w);
    } else if !Digits(x) && !Digits(y) {
      CompareEqual(x, y);
      TextIdentifierKey(x, p, w);
      TextIdentifierKey(y, q, w);
      CompareAfterPrefix("1", x + "!" + p, y + "!" + q);
      TextKeyDecides(x, y, p, q);
    } else if Digits(x) {
      NumericIdentifierKey(x, p, w);
      TextIdentifierKey(y, q, w);
      FirstCharDecides('0', '1', NumberKey(x, w) + p, y + "!" + q);
    } else {
      TextIdentifierKey(x, p, w);
      NumericIdentifierKey(y, q, w);
      FirstCharDecides('1', '0', x + "!" + p, NumberKey(y, w) + q);
    }
  }

  lemma FirstCharDecides(c: char, d: char, p: string, q: string)
    requires c != d
    ensures Compare([c] + p, [d] + q) == if c < d then -1 else 1
  {
  }

  lemma {:induction false} PreKeyOrder(a: seq<string>, b: seq<string>, w: nat)
    requires forall id :: id in a ==> PreIdentifier(id) && (Digits(id) ==> |id| < Pow10(w))
    requires forall id :: id in b ==> PreIdentifier(id) && (Digits(id) ==> |id| < Pow10(w))
    ensures Compare(IdentifierKeys(a, w), IdentifierKeys(b, w)) == ComparePre(a, b)
  {
    if a != [] && b != [] {
      IdentifierKeyDecides(a[0], b[0], IdentifierKeys(a[1..], w), IdentifierKeys(b[1..], w), w);
      PreKeyOrder(a[1..], b[1..], w);
    }
  }

  /** The part of the key after the three numbers. */
  function ReleaseMark(pre: seq<string>, w: nat): string
  {
    if pre == [] then "1" else "0" + IdentifierKeys(pre, w)
  }

  lemma ReleaseMarkOrder(a: seq<string>, b: seq<string>, w: nat)
    requires forall id :: id in a ==> PreIdentifier(id) && (Digits(id) ==> |id| < Pow10(w))
    requires forall id :: id in b ==> PreIdentifier(id) && (Digits(id) ==> |id| < Pow10(w))
    ensures Compare(ReleaseMark(a, w), ReleaseMark(b, w))
         == if a == [] && b == [] then 0 else if a == [] then 1 else if b == [] then -1 else ComparePre(a, b)
  {
    var i, j := IdentifierKeys(a, w), IdentifierKeys(b, w);
    if a != [] && b != [] {
      CompareAfterPrefix("0", i, j);
      PreKeyOrder(a, b, w);
    } else if a == [] && b == [] {
      CompareEqual(ReleaseMark(a, w), ReleaseMark(b, w));
    } else if a == [] {
      FirstCharDecides('1', '0', "", j);
    } else {
      FirstCharDecides('0', '1', i, "");
    }
  }

  /** The three numbers decide in turn; when they agree, what follows them decides. */
  lemma {:induction false} NumbersDecide(a: seq<string>, b: seq<string>, p: string, q: string, w: nat)
    requires |a| == |b|
    requires forall i :: 0 <= i < |a| ==> Numeric(a[i]) && |a[i]| < Pow10(w)
    requires forall i :: 0 <= i < |b| ==> Numeric(b[i]) && |b[i]| < Pow10(w)
    ensures Compare(NumberKeys(a, w, p), NumberKeys(b, w, q)) == CompareNumbers(a, b, Compare(p, q))
  {
    if a != [] {
      var x, y := a[1..], b[1..];
      assert forall i :: 0 <= i < |x| ==> x[i] == a[i + 1] && y[i] == b[i + 1];
      NumbersDecide(x, y, p, q, w);
      NumberKeyDecides(a[0], b[0], NumberKeys(x, w, p), NumberKeys(y, w, q), w);
    }
  }

  function CompareNumbers(a: seq<string>, b: seq<string>, otherwise: int): int
    requires |a| == |b|
    requires forall i :: 0 <= i < |a| ==> Numeric(a[i])
    requires forall i :: 0 <= i < |b| ==> Numeric(b[i])
  {
    if a == [] then otherwise
    else assert Numeric(a[0]) && Numeric(b[0]); if a[0] != b[0] then Sign(Value(a[0]) - Value(b[0]))
    else CompareNumbers(a[1..], b[1..], otherwise)
  }

  lemma SemverKeyOrder(a: Semver, b: Semver, w: nat)
    requires a.Valid() && b.Valid()
    requires |a.major| < Pow10(w) && |a.minor| < Pow10(w) && |a.patch| < Pow10(w)
    requires |b.major| < Pow10(w) && |b.minor| < Pow10(w) && |b.patch| < Pow10(w)
    requires forall id :: id in a.pre && Digits(id) ==> |id| < Pow10(w)
    requires forall id :: id in b.pre && Digits(id) ==> |id| < Pow10(w)
    ensures Compare(SemverKey(a, w), SemverKey(b, w)) == Precedence(a, b)
  {
    var p, q := ReleaseMark(a.pre, w), ReleaseMark(b.pre, w);
    ThreeNumbersDecide(a, b, p, q, w);
    ReleaseMarkOrder(a.pre, b.pre, w);
    PrecedenceByNumbers(a, b, Compare(p, q));
  }

  lemma ThreeNumbersDecide(a: Semver, b: Semver, p: string, q: string, w: nat)
    requires a.Valid() && b.Valid()
    requires |a.major| < Pow10(w) && |a.minor| < Pow10(w) && |a.patch| < Pow10(w)
    requires |b.major| < Pow10(w) && |b.minor| < Pow10(w) && |b.patch| < Pow10(w)
    ensures var x, y := [a.major, a.minor, a.patch], [b.major, b.minor, b.patch];
            && (forall i :: 0 <= i < 3 ==> Numeric(x[i]) && Numeric(y[i]))
            && Compare("1" + NumberKeys(x, w, p), "1" + NumberKeys(y, w, q)) == CompareNumbers(x, y, Compare(p, q))
  {
    var x, y := [a.major, a.minor, a.patch], [b.major, b.minor, b.patch];
    CompareAfterPrefix("1", NumberKeys(x, w, p), NumberKeys(y, w, q));
    NumbersDecide(x, y, p, q, w);
  }

  lemma PrecedenceByNumbers(a: Semver, b: Semver, mark: int)
    requires a.Valid() && b.Valid()
    requires mark == if a.pre == [] && b.pre == [] then 0 else if a.pre == [] then 1
                     else if b.pre == [] then -1 else ComparePre(a.pre, b.pre)
    ensures CompareNumbers([a.major, a.minor, a.patch], [b.major, b.minor, b.patch], mark) == Precedence(a, b)
  {
    var x, y := [a.major, a.minor, a.patch], [b.major, b.minor, b.patch];
    assert x[1..] == [a.minor, a.patch] && y[1..] == [b.minor, b.patch];
    assert x[1..][1..] == [a.patch] && y[1..][1..] == [b.patch];
    NumericOrder(a.major, b.major);
    NumericOrder(a.minor, b.minor);
    NumericOrder(a.patch, b.patch);
    assert CompareNumbers([a.patch], [b.patch], mark)
        == if a.patch != b.patch then Sign(Value(a.patch) - Value(b.patch)) else mark;
  }

  /** The key order is version precedence, valid and invalid versions alike. */
  lemma KeyOrder(a: string, b: string, w: nat)
    requires Fits(a, w) && Fits(b, w)
    ensures Compare(Key(a, w), Key(b, w)) == CompareVersions(a, b)
  {
    match (Normalized(a), Normalized(b))
    case (Some(l), Some(r)) => SemverKeyOrder(l, r, w);
    case (None, None) => CompareAfterPrefix("0", TrimSpace(a), TrimSpace(b));
    case (Some(l), None) => FirstCharDecides('1', '0', SemverKey(l, w)[1..], TrimSpace(b));
    case (None, Some(r)) => FirstCharDecides('0', '1', TrimSpace(a), SemverKey(r, w)[1..]);
  }

  /* ---------- the main results ---------- */

  /** `order by version_order` is CompareVersions. */
  lemma SortKeyIsOrderIsomorphic(a: string, b: string)
    requires Fits(a, KEY_WIDTH) && Fits(b, KEY_WIDTH)
    ensures Compare(OrderKey(a), OrderKey(b)) == CompareVersions(a, b)
  {
    KeyOrder(a, b, KEY_WIDTH);
  }

  lemma {:induction false} PowerOfTenText(w: nat)
    ensures Decimal(Pow10(w))[0] == '1'
    ensures w > 0 ==> Fixed(Pow10(w) - 1, w)[0] == '9'
  {
    if w > 0 {
      PowerOfTenText(w - 1);
      assert Pow10(w) / 10 == Pow10(w - 1) && (Pow10(w) - 1) / 10 == Pow10(w - 1) - 1;
    }
  }

  /** The release whose major version is the given number. */
  function MajorRelease(major: string): string { Join([major, "0", "0"], '.') }

  lemma MajorReleaseParses(major: string)
    requires Numeric(major)
    ensures Normalized(MajorRelease(major)) == Some(Semver(major, "0", "0", []))
  {
    var v := Semver(major, "0", "0", []);
    CoreIsJoined(v);
    ReleasesAreTakenAsWritten(major, "0", "0", [], []);
    assert MajorRelease(major) == Core(v) + Suffix('-', []) + Suffix('+', []);
  }

  /**
   With a number of 10^10 digits the padded length grows by one character, and
   the greater version gets the smaller key.
   */
  lemma LongNumbersBreakTheOrder(shorter: string, longer: string)
    requires shorter == MajorRelease(seq(Pow10(KEY_WIDTH) - 1, _ => '1'))
    requires longer == MajorRelease(seq(Pow10(KEY_WIDTH), _ => '1'))
    ensures NumbersUpTo(shorter, Pow10(KEY_WIDTH)) && NumbersUpTo(longer, Pow10(KEY_WIDTH))
    ensures CompareVersions(shorter, longer) == -1
    ensures Compare(OrderKey(shorter), OrderKey(longer)) == 1
  {
    var few, many: string := seq(Pow10(KEY_WIDTH) - 1, _ => '1'), seq(Pow10(KEY_WIDTH), _ => '1');
    MajorReleaseParses(few);
    MajorReleaseParses(many);
    LongKeysAreReversed(few, many, KEY_WIDTH);
  }

  /** At any width, the first number too long for it gets the smaller key. */
  lemma LongKeysAreReversed(few: string, many: string, w: nat)
    requires Numeric(few) && Numeric(many) && w > 0 && |few| + 1 == |many| == Pow10(w)
    ensures Precedence(Semver(few, "0", "0", []), Semver(many, "0", "0", [])) == -1
    ensures Compare(SemverKey(Semver(few, "0", "0", []), w), SemverKey(Semver(many, "0", "0", []), w)) == 1
  {
    NumericOrder(few, many);
    PaddingStart(|few|, w);
    KeyStart(Semver(few, "0", "0", []), w);
    KeyStart(Semver(many, "0", "0", []), w);
    SecondCharDecides(SemverKey(Semver(few, "0", "0", []), w), SemverKey(Semver(many, "0", "0", []), w));
  }

  lemma PaddingStart(n: nat, w: nat)
    requires w > 0 && n + 1 == Pow10(w)
    ensures Padded(n, w) != [] && Padded(n, w)[0] == '9'
    ensures Padded(n + 1, w) != [] && Padded(n + 1, w)[0] == '1'
  {
    PowerOfTenText(w);
  }

  lemma TenDigits()
    ensures Pow10(KEY_WIDTH) == 10000000000
  {
    assert Pow10(2) == 100;
    assert Pow10(4) == 10000 && Pow10(6) == 1000000 by { assert Pow10(3) == 1000 && Pow10(5) == 100000; }
    assert Pow10(8) == 100000000 by { assert Pow10(7) == 10000000; }
    assert Pow10(9) == 1000000000;
  }

  predicate KeysAgree(a: string, b: string) { Compare(OrderKey(a), OrderKey(b)) == CompareVersions(a, b) }

  /** The keys sort as CompareVersions exactly as long as numbers have fewer than 10^10 digits. */
  lemma SortKeyIsExact(digits: nat)
    ensures (forall a, b :: NumbersUpTo(a, digits) && NumbersUpTo(b, digits) ==> KeysAgree(a, b)) <==> digits < 10000000000
  {
    TenDigits();
    if digits < 10000000000 {
      forall a, b | NumbersUpTo(a, digits) && NumbersUpTo(b, digits) ensures KeysAgree(a, b) { SortKeyIsOrderIsomorphic(a, b); }
    } else {
      var shorter, longer := LongReleases();
      assert NumbersUpTo(shorter, digits) && NumbersUpTo(longer, digits) && !KeysAgree(shorter, longer);
    }
  }

  lemma LongReleases() returns (shorter: string, longer: string)
    ensures NumbersUpTo(shorter, Pow10(KEY_WIDTH)) && NumbersUpTo(longer, Pow10(KEY_WIDTH))
    ensures CompareVersions(shorter, longer) == -1 && CompareVersions(longer, shorter) == 1
    ensures Compare(OrderKey(shorter), OrderKey(longer)) == 1
  {
    shorter := MajorRelease(seq(Pow10(KEY_WIDTH) - 1, _ => '1'));
    longer := MajorRelease(seq(Pow10(KEY_WIDTH), _ => '1'));
    LongNumbersBreakTheOrder(shorter, longer);
    ComparisonIsTotalPreorder(shorter, longer, longer);
  }

  lemma SecondCharDecides(a: string, b: string)
    requires |a| >= 2 && |b| >= 2 && a[0] == b[0] == '1' && a[1] > b[1]
    ensures Compare(a, b) == 1
  {
    assert a == ['1'] + ([a[1]] + a[2..]) && b == ['1'] + ([b[1]] + b[2..]);
    CompareAfterPrefix(['1'], [a[1]] + a[2..], [b[1]] + b[2..]);
    FirstCharDecides(a[1], b[1], a[2..], b[2..]);
  }

  lemma KeyStart(v: Semver, w: nat)
    requires Padded(|v.major|, w) != []
    ensures |SemverKey(v, w)| >= 2
    ensures SemverKey(v, w)[0] == '1' && SemverKey(v, w)[1] == Padded(|v.major|, w)[0]
  {
    var three := [v.major, v.minor, v.patch];
    assert NumberKeys(three, w, ReleaseMark(v.pre, w))[0] == NumberKey(v.major, w)[0];
  }

  /** A width at which three versions fit. */
  lemma CommonWidth(a: string, b: string, c: string) returns (w: nat)
    ensures Fits(a, w) && Fits(b, w) && Fits(c, w)
  {
    w := WidthFor(Longest(a) + Longest(b) + Longest(c));
    LongestBounds(a, w);
    LongestBounds(b, w);
    LongestBounds(c, w);
  }

  ghost function Longest(version: string): nat
  {
    match Normalized(version)
    case None => 0
    case Some(v) => |v.major| + |v.minor| + |v.patch| + Total(v.pre)
  }

  ghost function Total(parts: seq<string>): nat
  {
    if parts == [] then 0 else |parts[0]| + Total(parts[1..])
  }

  lemma {:induction false} TotalBounds(parts: seq<string>)
    ensures forall p :: p in parts ==> |p| <= Total(parts)
  {
    if parts != [] { TotalBounds(parts[1..]); }
  }

  lemma LongestBounds(version: string, w: nat)
    requires Longest(version) < Pow10(w)
    ensures Fits(version, w)
  {
    match Normalized(version)
    case None =>
    case Some(v) => TotalBounds(v.pre);
  }

  /** CompareVersions is a total preorder on all strings, of any length. */
  lemma ComparisonIsTotalPreorder(a: string, b: string, c: string)
    ensures CompareVersions(a, a) == 0
    ensures CompareVersions(b, a) == -CompareVersions(a, b)
    ensures CompareVersions(a, b) <= 0 && CompareVersions(b, c) <= 0 ==> CompareVersions(a, c) <= 0
    ensures CompareVersions(a, b) == 0 ==> CompareVersions(a, c) == CompareVersions(b, c)
  {
    var w := CommonWidth(a, b, c);
    var x, y, z := Key(a, w), Key(b, w), Key(c, w);
    KeyOrder(a, a, w);
    KeyOrder(a, b, w);
    KeyOrder(b, a, w);
    KeyOrder(b, c, w);
    KeyOrder(a, c, w);
    CompareEqual(x, x);
    CompareEqual(x, y);
    CompareFlip(x, y);
    if Compare(x, y) <= 0 && Compare(y, z) <= 0 { CompareTransitive(x, y, z); }
  }

  /** A row of a release listing. */
  datatype ListedRelease = ListedRelease(version: string, createdAt: int, id: string)

  /** `order by version_order desc, created_at desc, id`. */
  predicate PagedBefore(a: ListedRelease, b: ListedRelease)
  {
    var c := Compare(OrderKey(a.version), OrderKey(b.version));
    c > 0 || (c == 0 && (a.createdAt > b.createdAt || (a.createdAt == b.createdAt && Compare(a.id, b.id) < 0)))
  }

  /** The less function of sortModuleVersions. */
  predicate SortedBefore(a: ListedRelease, b: ListedRelease)
  {
    var c := CompareVersions(a.version, b.version);
    if c != 0 then c > 0 else a.createdAt > b.createdAt
  }

  /**
   A page and the in-memory sort do not disagree: what the sort puts strictly
   first the page puts first, and only rows the sort leaves tied are ordered by
   the page's tie-break on the id.
   */
  predicate PageFollowsSort(a: ListedRelease, b: ListedRelease)
  {
    && (SortedBefore(a, b) ==> PagedBefore(a, b) && !PagedBefore(b, a))
    && (PagedBefore(a, b) ==> !SortedBefore(b, a))
    && (PagedBefore(a, b) && !SortedBefore(a, b) ==>
          CompareVersions(a.version, b.version) == 0 && a.createdAt == b.createdAt && Compare(a.id, b.id) < 0)
  }

  lemma PagesAgreeWithSort(a: ListedRelease, b: ListedRelease)
    requires Fits(a.version, KEY_WIDTH) && Fits(b.version, KEY_WIDTH)
    ensures PageFollowsSort(a, b)
  {
    KeyOrder(a.version, b.version, KEY_WIDTH);
    KeyOrder(b.version, a.version, KEY_WIDTH);
    CompareFlip(OrderKey(a.version), OrderKey(b.version));
  }

  /** Pages and the sort agree on all rows exactly as long as numbers have fewer than 10^10 digits. */
  lemma PagesAgreeExactly(digits: nat)
    ensures (forall a: ListedRelease, b: ListedRelease :: NumbersUpTo(a.version, digits) && NumbersUpTo(b.version, digits) ==>
               PageFollowsSort(a, b))
            <==> digits < 10000000000
  {
    TenDigits();
    if digits < 10000000000 {
      forall a: ListedRelease, b: ListedRelease | NumbersUpTo(a.version, digits) && NumbersUpTo(b.version, digits)
        ensures PageFollowsSort(a, b)
      {
        PagesAgreeWithSort(a, b);
      }
    } else {
      var a, b := LongRows();
      assert NumbersUpTo(a.version, digits) && NumbersUpTo(b.version, digits);
    }
  }

  lemma LongRows() returns (a: ListedRelease, b: ListedRelease)
    ensures NumbersUpTo(a.version, Pow10(KEY_WIDTH)) && NumbersUpTo(b.version, Pow10(KEY_WIDTH)) && !PageFollowsSort(a, b)
  {
    var shorter, longer := LongReleases();
    a, b := ListedRelease(shorter, 0, ""), ListedRelease(longer, 0, "");
    assert PagedBefore(a, b) && SortedBefore(b, a);
  }

  /* ---------- building the key ---------- */

  /** `"v" + strings.TrimPrefix(version, "v")` parses as CompareVersions' own normal form. */
  function Prefixed(version: string): string
  {
    if version != "" && version[0] == 'v' then "v" + version[1..] else "v" + version
  }

  lemma PrefixedParse(version: string)
    ensures Parse(Prefixed(TrimSpace(version))) == Normalized(version)
  {
    var text := TrimSpace(version);
    if text == "" {
      EmptyCoreIsInvalid();
    } else if text[0] == 'v' {
      assert "v" + text[1..] == text;
    }
  }

  lemma EmptyCoreIsInvalid()
    ensures Parse("v") == None
  {
    assert "v"[1..] == "";
    assert Split("", '.') == [""];
    assert "" in Split("", '.');
  }

  /** Cutting and splitting the canonical text gives the parsed parts back. */
  lemma CanonicalParts(v: Semver, canonical: string)
    requires v.Valid()
    requires canonical == CanonicalText(v)
    ensures Split(Before(canonical, '-'), '.') == [v.major, v.minor, v.patch]
    ensures After(canonical, '-') == "" <==> v.pre == []
    ensures v.pre != [] ==> Split(After(canonical, '-'), '.') == v.pre
  {
    var three := [v.major, v.minor, v.patch];
    var core := Join(three, '.');
    assert forall p :: p in three ==> Numeric(p);
    CoreAvoids(three);
    SplitOfJoin(three, '.');
    if v.pre == [] {
      assert canonical == core;
      BeforeWithout(core, '-');
    } else {
      assert canonical == core + ['-'] + Join(v.pre, '.');
      BeforeOfSeparated(core, '-', Join(v.pre, '.'));
      forall p | p in v.pre ensures '.' !in p { assert PreIdentifier(p); }
      SplitOfJoin(v.pre, '.');
      assert PreIdentifier(v.pre[0]);
    }
  }

  lemma {:induction false} CoreAvoids(parts: seq<string>)
    requires |parts| >= 1 && forall p :: p in parts ==> Numeric(p)
    ensures '-' !in Join(parts, '.')
    ensures forall p :: p in parts ==> '.' !in p
  {
    forall p | p in parts ensures '.' !in p && '-' !in p { assert Numeric(p); }
    if |parts| > 1 { CoreAvoids(parts[1..]); }
  }

  /** The loop over the core: one padded length, number and terminator each. */
  method AppendNumbers(key: string, numbers: seq<string>, ghost tail: string) returns (r: string)
    ensures r + tail == key + NumberKeys(numbers, KEY_WIDTH, tail)
  {
    r := key;
    for i := 0 to |numbers|
      invariant r + NumberKeys(numbers[i..], KEY_WIDTH, tail) == key + NumberKeys(numbers, KEY_WIDTH, tail)
    {
      var part := NumberKey(numbers[i], KEY_WIDTH);
      assert numbers[i..][1..] == numbers[i + 1..];
      Assoc(r, part, NumberKeys(numbers[i + 1..], KEY_WIDTH, tail));
      r := r + part;
    }
  }

  /** The loop over the pre-release identifiers. */
  method AppendIdentifiers(key: string, parts: seq<string>) returns (r: string)
    ensures r == key + IdentifierKeys(parts, KEY_WIDTH)
  {
    r := key;
    for i := 0 to |parts|
      invariant r + IdentifierKeys(parts[i..], KEY_WIDTH) == key + IdentifierKeys(parts, KEY_WIDTH)
    {
      var part := IdentifierKey(parts[i], KEY_WIDTH);
      assert parts[i..][1..] == parts[i + 1..];
      Assoc(r, part, IdentifierKeys(parts[i + 1..], KEY_WIDTH));
      r := r + part;
    }
  }

  lemma CanonicalTail(version: string, tail: string) returns (v: Semver)
    requires Canonical(Prefixed(TrimSpace(version))) != ""
    requires tail == Canonical(Prefixed(TrimSpace(version)))[1..]
    ensures Normalized(version) == Some(v) && v.Valid()
    ensures tail == CanonicalText(v)
  {
    PrefixedParse(version);
    v := Normalized(version).value;
  }

  /** releaseVersionOrder: trim, canonicalise, cut, split and append. */
  method ReleaseVersionOrder(version: string) returns (key: string)
    ensures key == OrderKey(version)
  {
    var text := TrimSpace(version);
    var canonical := Canonical(Prefixed(text));
    PrefixedParse(version);
    if canonical == "" {
      return "0" + text;
    }
    canonical := canonical[1..];
    ghost var v := CanonicalTail(version, canonical);
    CanonicalParts(v, canonical);
    ghost var mark := ReleaseMark(v.pre, KEY_WIDTH);
    key := AppendNumbers("1", Split(Before(canonical, '-'), '.'), mark);
    var pre := After(canonical, '-');
    if pre == "" {
      key := key + "1";
    } else {
      Assoc(key, "0", IdentifierKeys(v.pre, KEY_WIDTH));
      key := AppendIdentifiers(key + "0", Split(pre, '.'));
    }
  }
}
