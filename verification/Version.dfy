/**
 Release versions: the grammar of Semantic Versioning 2.0.0 with the `v1` and
 `v1.2` shorthands the registry also accepts, the precedence of section 11 of
 that standard, and the registry's own comparison of version strings.
 */
module Version {
  import opened Text

  datatype Option<+T> = None | Some(value: T)

  /** A parsed version. Build metadata is checked by the parser and dropped. */
  datatype Semver = Semver(major: string, minor: string, patch: string, pre: seq<string>) {
    predicate Valid() {
      Numeric(major) && Numeric(minor) && Numeric(patch)
      && forall id :: id in pre ==> PreIdentifier(id)
    }
  }

  predicate Numeric(s: string) { s != [] && Digits(s) && (s[0] == '0' ==> |s| == 1) }

  predicate IdentifierChar(c: char) {
    IsDigit(c) || 'a' <= c <= 'z' || 'A' <= c <= 'Z' || c == '-'
  }

  predicate BuildIdentifier(s: string) { s != [] && forall i :: 0 <= i < |s| ==> IdentifierChar(s[i]) }

  predicate PreIdentifier(s: string) { BuildIdentifier(s) && (Digits(s) ==> Numeric(s)) }

  /** What golang.org/x/mod/semver accepts. */
  function Parse(v: string): (r: Option<Semver>)
    ensures r.Some? ==> r.value.Valid()
  {
    if v == "" || v[0] != 'v' then None else
    var body := v[1..];
    var plain := Before(body, '+');
    var core := Before(plain, '-');
    var hasBuild, hasPre := |plain| < |body|, |core| < |plain|;
    var numbers := Split(core, '.');
    var pre := if hasPre then Split(After(plain, '-'), '.') else [];
    var build := if hasBuild then Split(After(body, '+'), '.') else [];
    if && |numbers| <= 3
       && (hasBuild || hasPre ==> |numbers| == 3)
       && (forall n :: n in numbers ==> Numeric(n))
       && (forall id :: id in pre ==> PreIdentifier(id))
       && (forall id :: id in build ==> BuildIdentifier(id))
    then Some(Semver(numbers[0],
                     if |numbers| > 1 then numbers[1] else "0",
                     if |numbers| > 2 then numbers[2] else "0",
                     pre))
    else None
  }

  /** semver.Canonical: the full form without build metadata, "" when invalid. */
  function Canonical(v: string): string
  {
    match Parse(v)
    case None => ""
    case Some(p) => "v" + CanonicalText(p)
  }

  function CanonicalText(p: Semver): string
  {
    Join([p.major, p.minor, p.patch], '.') + if p.pre == [] then "" else "-" + Join(p.pre, '.')
  }

  /* ---------- precedence, section 11 of Semantic Versioning 2.0.0 ---------- */

  function CompareIdentifiers(x: string, y: string): int
  {
    if Digits(x) && Digits(y) then Sign(Value(x) - Value(y))
    else if Digits(x) then -1
    else if Digits(y) then 1
    else Compare(x, y)
  }

  function ComparePre(a: seq<string>, b: seq<string>): int
  {
    if a == [] && b == [] then 0
    else if a == [] then -1
    else if b == [] then 1
    else
      var c := CompareIdentifiers(a[0], b[0]);
      if c != 0 then c else ComparePre(a[1..], b[1..])
  }

  function Precedence(a: Semver, b: Semver): int
    requires a.Valid() && b.Valid()
  {
    if Value(a.major) != Value(b.major) then Sign(Value(a.major) - Value(b.major))
    else if Value(a.minor) != Value(b.minor) then Sign(Value(a.minor) - Value(b.minor))
    else if Value(a.patch) != Value(b.patch) then Sign(Value(a.patch) - Value(b.patch))
    else if a.pre == [] && b.pre == [] then 0
    else if a.pre == [] then 1
    else if b.pre == [] then -1
    else ComparePre(a.pre, b.pre)
  }

  /* ---------- the registry's comparison ---------- */

  /** normalizedSemanticVersion: trim, add the missing `v`, parse. */
  function Normalized(value: string): (r: Option<Semver>)
    ensures r.Some? ==> r.value.Valid()
  {
    var text := TrimSpace(value);
    if text == "" then None
    else Parse(if text[0] == 'v' then text else "v" + text)
  }

  function CompareVersions(left: string, right: string): int
  {
    match (Normalized(left), Normalized(right))
    case (Some(l), Some(r)) => Precedence(l, r)
    case (Some(_), None) => 1
    case (None, Some(_)) => -1
    case (None, None) => Compare(TrimSpace(left), TrimSpace(right))
  }

  /** Numbers without leading zeros: more digits is more, then digit by digit. */
  lemma NumericOrder(x: string, y: string)
    requires Numeric(x) && Numeric(y)
    ensures |x| != |y| ==> Sign(Value(x) - Value(y)) == Sign(|x| - |y|)
    ensures |x| == |y| ==> Sign(Value(x) - Value(y)) == Compare(x, y)
    ensures Value(x) == Value(y) <==> x == y
  {
    ValueBound(x);
    ValueBound(y);
    if |x| == |y| {
      ValueOrder(x, y);
      CompareEqual(x, y);
    } else if |x| < |y| {
      ShorterIsSmaller(x, y);
    } else {
      ShorterIsSmaller(y, x);
    }
  }

  lemma ShorterIsSmaller(x: string, y: string)
    requires Numeric(x) && Numeric(y) && |x| < |y|
    ensures Value(x) < Value(y)
  {
    ValueBound(x);
    ValueBound(y);
    Pow10Grows(|x|, |y| - 1);
  }
}
