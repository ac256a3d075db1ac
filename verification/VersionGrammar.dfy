/**
 The texts of versions: which texts the registry takes for a version, and for
 which one, from the grammar of Semantic Versioning 2.0.0 with the shorthands;
 and the order of section 11 of that standard in its own words.
 */
module VersionGrammar {
  import opened Text
  import opened Version

  /* ---------- the grammar ---------- */

  predicate Blank(s: string) { forall i :: 0 <= i < |s| ==> IsSpace(s[i]) }

  predicate BuildIdentifiers(build: seq<string>) { forall id :: id in build ==> BuildIdentifier(id) }

  function Core(v: Semver): string { v.major + "." + v.minor + "." + v.patch }

  function Suffix(mark: char, parts: seq<string>): string { if parts == [] then "" else [mark] + Join(parts, '.') }

  /** `major.minor.patch[-pre][+build]`. */
  function FullText(v: Semver, build: seq<string>): string { Core(v) + Suffix('-', v.pre) + Suffix('+', build) }

  /** A full text, or one of the shorthands `1` and `1.2` for `1.0.0` and `1.2.0`. */
  ghost predicate Spells(text: string, v: Semver)
  {
    && v.Valid()
    && ((exists build :: BuildIdentifiers(build) && text == FullText(v, build))
        || (v.patch == "0" && v.pre == [] && text == v.major + "." + v.minor)
        || (v.minor == v.patch == "0" && v.pre == [] && text == v.major))
  }

  ghost predicate WrittenAs(value: string, v: Semver, before: string, prefix: string, text: string, after: string)
  {
    Blank(before) && Blank(after) && prefix in {"", "v"} && Spells(text, v) && value == before + prefix + text + after
  }

  /** With or without a leading `v`, and with blanks around. */
  ghost predicate Written(value: string, v: Semver)
  {
    exists before, prefix, text, after :: WrittenAs(value, v, before, prefix, text, after)
  }

  /* ---------- characters ---------- */

  lemma {:induction false} JoinChars(parts: seq<string>, sep: char, c: char)
    requires |parts| >= 1 && c in Join(parts, sep) && c != sep
    ensures exists p :: p in parts && c in p
  {
    if |parts| > 1 && c !in parts[0] {
      JoinChars(parts[1..], sep, c);
      var p :| p in parts[1..] && c in p;
      assert p in parts;
    }
  }

  lemma SuffixChars(mark: char, parts: seq<string>, c: char)
    requires BuildIdentifiers(parts) && c in Suffix(mark, parts)
    ensures c == mark || c == '.' || IdentifierChar(c)
  {
    if c != mark && c != '.' {
      JoinChars(parts, '.', c);
      var p :| p in parts && c in p;
      assert BuildIdentifier(p);
    }
  }

  lemma CoreChars(v: Semver, c: char)
    requires v.Valid() && c in Core(v)
    ensures c == '.' || IsDigit(c)
  {
  }

  lemma FullTextChars(v: Semver, build: seq<string>, c: char)
    requires v.Valid() && BuildIdentifiers(build) && c in FullText(v, build)
    ensures IdentifierChar(c) || c in ".-+"
  {
    if c in Core(v) { CoreChars(v, c); }
    else if c in Suffix('-', v.pre) { SuffixChars('-', v.pre, c); }
    else { SuffixChars('+', build, c); }
  }

  /** A version's text starts with a digit and holds no blank. */
  lemma SpelledChars(text: string, v: Semver)
    requires Spells(text, v)
    ensures text != "" && IsDigit(text[0]) && forall c :: c in text ==> !IsSpace(c)
  {
    if build: seq<string> :| BuildIdentifiers(build) && text == FullText(v, build) {
      forall c | c in text ensures !IsSpace(c) { FullTextChars(v, build, c); }
      assert text[0] == v.major[0];
    }
  }

  /* ---------- what is spelled parses ---------- */

  lemma CoreIsJoined(v: Semver)
    ensures Core(v) == Join([v.major, v.minor, v.patch], '.')
  {
    assert [v.major, v.minor, v.patch][1..] == [v.minor, v.patch] && [v.minor, v.patch][1..] == [v.patch];
    assert Join([v.minor, v.patch], '.') == v.minor + "." + v.patch;
    assert Core(v) == v.major + "." + (v.minor + "." + v.patch);
  }

  lemma CoreSplits(v: Semver)
    requires v.Valid()
    ensures Split(Core(v), '.') == [v.major, v.minor, v.patch]
  {
    CoreIsJoined(v);
    SplitOfJoin([v.major, v.minor, v.patch], '.');
  }

  lemma SuffixSplits(parts: seq<string>)
    requires parts != [] && BuildIdentifiers(parts)
    ensures Split(Join(parts, '.'), '.') == parts
  {
    forall p | p in parts ensures '.' !in p { assert BuildIdentifier(p); }
    SplitOfJoin(parts, '.');
  }

  /** Cutting at the first mark takes the suffix off again. */
  lemma SuffixCut(front: string, mark: char, parts: seq<string>)
    requires mark !in front
    ensures Before(front + Suffix(mark, parts), mark) == front
    ensures parts != [] ==> After(front + Suffix(mark, parts), mark) == Join(parts, '.')
  {
    if parts == [] {
      BeforeWithout(front, mark);
    } else {
      assert front + Suffix(mark, parts) == front + [mark] + Join(parts, '.');
      BeforeOfSeparated(front, mark, Join(parts, '.'));
    }
  }

  /** Parsing goes by the parts between the first `+`, the first `-` before it, and the dots. */
  lemma PartsParse(body: string, plain: string, core: string, numbers: seq<string>, pre: seq<string>, build: seq<string>)
    requires plain == Before(body, '+') && core == Before(plain, '-') && numbers == Split(core, '.')
    requires if core == plain then pre == [] else pre == Split(After(plain, '-'), '.')
    requires if plain == body then build == [] else build == Split(After(body, '+'), '.')
    requires |numbers| == 3 || (|numbers| < 3 && core == body)
    requires (forall n :: n in numbers ==> Numeric(n)) && (forall id :: id in pre ==> PreIdentifier(id)) && BuildIdentifiers(build)
    ensures Parse("v" + body) == Some(Semver(numbers[0], if |numbers| > 1 then numbers[1] else "0",
                                             if |numbers| > 2 then numbers[2] else "0", pre))
  {
    assert ("v" + body)[1..] == body;
    assert |plain| < |body| <==> plain != body;
    assert |core| < |plain| <==> core != plain;
  }

  lemma SuffixIsEmpty(front: string, mark: char, parts: seq<string>)
    ensures front == front + Suffix(mark, parts) <==> parts == []
  {
    assert |front + Suffix(mark, parts)| == |front| + |Suffix(mark, parts)|;
  }

  lemma FullTextParses(v: Semver, build: seq<string>)
    requires v.Valid() && BuildIdentifiers(build)
    ensures Parse("v" + FullText(v, build)) == Some(v)
  {
    BuildCut(v, build);
    PlainCut(v);
    PartsParse(FullText(v, build), Core(v) + Suffix('-', v.pre), Core(v), [v.major, v.minor, v.patch], v.pre, build);
  }

  lemma BuildCut(v: Semver, build: seq<string>)
    requires v.Valid() && BuildIdentifiers(build)
    ensures var body, plain := FullText(v, build), Core(v) + Suffix('-', v.pre);
            Before(body, '+') == plain && if plain == body then build == [] else build == Split(After(body, '+'), '.')
  {
    var plain := Core(v) + Suffix('-', v.pre);
    if '+' in plain { SuffixOrCoreChars(v, '+'); }
    SuffixCut(plain, '+', build);
    SuffixIsEmpty(plain, '+', build);
    if build != [] { SuffixSplits(build); }
  }

  lemma PlainCut(v: Semver)
    requires v.Valid()
    ensures var plain := Core(v) + Suffix('-', v.pre);
            && Before(plain, '-') == Core(v) && Split(Core(v), '.') == [v.major, v.minor, v.patch]
            && (if Core(v) == plain then v.pre == [] else v.pre == Split(After(plain, '-'), '.'))
  {
    if '-' in Core(v) { CoreChars(v, '-'); }
    SuffixCut(Core(v), '-', v.pre);
    SuffixIsEmpty(Core(v), '-', v.pre);
    CoreSplits(v);
    if v.pre != [] { SuffixSplits(v.pre); }
  }

  lemma SuffixOrCoreChars(v: Semver, c: char)
    requires v.Valid() && c in Core(v) + Suffix('-', v.pre)
    ensures IdentifierChar(c) || c == '.'
  {
    if c in Core(v) { CoreChars(v, c); } else { SuffixChars('-', v.pre, c); }
  }

  lemma ShorthandParses(v: Semver, text: string)
    requires v.Valid() && v.patch == "0" && v.pre == []
    requires text == v.major + "." + v.minor || (text == v.major && v.minor == "0")
    ensures Parse("v" + text) == Some(v)
  {
    BeforeWithout(text, '+');
    BeforeWithout(text, '-');
    if text == v.major {
      SplitWithout(text, '.');
      PartsParse(text, text, text, [v.major], [], []);
    } else {
      SplitSeparated(v.major, '.', v.minor);
      SplitWithout(v.minor, '.');
      PartsParse(text, text, text, [v.major, v.minor], [], []);
    }
  }

  /* ---------- and nothing else does ---------- */

  /** What follows a cut is the mark and the rest. */
  lemma CutAgain(s: string, mark: char)
    ensures s == Before(s, mark) + if |Before(s, mark)| < |s| then [mark] + After(s, mark) else ""
  {
  }

  /** What parsing has found out about a body: the cuts, the parts, and what it made of them. */
  ghost predicate Dissected(body: string, plain: string, core: string, numbers: seq<string>, build: seq<string>, v: Semver)
  {
    && plain == Before(body, '+') && core == Before(plain, '-') && numbers == Split(core, '.')
    && build == (if |plain| < |body| then Split(After(body, '+'), '.') else [])
    && v.pre == (if |core| < |plain| then Split(After(plain, '-'), '.') else [])
    && v.Valid() && BuildIdentifiers(build) && 1 <= |numbers| <= 3 && (|numbers| < 3 ==> core == plain == body)
    && v.major == numbers[0] && v.minor == (if |numbers| > 1 then numbers[1] else "0")
    && v.patch == if |numbers| > 2 then numbers[2] else "0"
  }

  lemma ParsedIsDissected(text: string) returns (plain: string, core: string, numbers: seq<string>, build: seq<string>)
    requires Parse("v" + text).Some?
    ensures Dissected(text, plain, core, numbers, build, Parse("v" + text).value)
  {
    assert ("v" + text)[1..] == text;
    plain := Before(text, '+');
    core := Before(plain, '-');
    numbers := Split(core, '.');
    build := if |plain| < |text| then Split(After(text, '+'), '.') else [];
  }

  lemma PutTogether(body: string, plain: string, core: string, numbers: seq<string>, build: seq<string>, v: Semver)
    requires Dissected(body, plain, core, numbers, build, v)
    ensures core == Join(numbers, '.') && body == core + Suffix('-', v.pre) + Suffix('+', build)
  {
    CutAgain(body, '+');
    CutAgain(plain, '-');
    JoinOfSplit(core, '.');
    JoinOfSplit(After(plain, '-'), '.');
    JoinOfSplit(After(body, '+'), '.');
  }

  lemma ParsedIsSpelled(text: string)
    requires Parse("v" + text).Some?
    ensures Spells(text, Parse("v" + text).value)
  {
    var plain, core, numbers, build := ParsedIsDissected(text);
    DissectedIsSpelled(text, plain, core, numbers, build, Parse("v" + text).value);
  }

  lemma DissectedIsSpelled(body: string, plain: string, core: string, numbers: seq<string>, build: seq<string>, v: Semver)
    requires Dissected(body, plain, core, numbers, build, v)
    ensures Spells(body, v)
  {
    PutTogether(body, plain, core, numbers, build, v);
    if |numbers| == 3 {
      assert numbers == [v.major, v.minor, v.patch];
      CoreIsJoined(v);
      assert body == FullText(v, build);
    } else if |numbers| == 2 {
      assert numbers[1..] == [v.minor];
    } else {
      assert body == v.major;
    }
  }

  lemma ParsesExactly(text: string, v: Semver)
    ensures Parse("v" + text) == Some(v) <==> Spells(text, v)
  {
    if Parse("v" + text) == Some(v) { ParsedIsSpelled(text); }
    if Spells(text, v) {
      if build: seq<string> :| BuildIdentifiers(build) && text == FullText(v, build) {
        FullTextParses(v, build);
      } else {
        ShorthandParses(v, text);
      }
    }
  }

  /* ---------- blanks around ---------- */

  lemma {:induction false} TrimLeftBlank(before: string, s: string)
    requires Blank(before) && s != "" && !IsSpace(s[0])
    ensures TrimLeft(before + s) == s
  {
    if before == "" {
      assert before + s == s;
    } else {
      assert (before + s)[1..] == before[1..] + s;
      TrimLeftBlank(before[1..], s);
    }
  }

  lemma {:induction false} TrimRightBlank(s: string, after: string)
    requires Blank(after) && s != "" && !IsSpace(s[|s| - 1])
    ensures TrimRight(s + after) == s
  {
    if after == "" {
      assert s + after == s;
    } else {
      assert (s + after)[..|s + after| - 1] == s + after[..|after| - 1];
      TrimRightBlank(s, after[..|after| - 1]);
    }
  }

  lemma BlanksAreTrimmed(before: string, s: string, after: string)
    requires Blank(before) && Blank(after) && s != "" && !IsSpace(s[0]) && !IsSpace(s[|s| - 1])
    ensures TrimSpace(before + s + after) == s
  {
    assert before + s + after == before + (s + after);
    TrimLeftBlank(before, s + after);
    TrimRightBlank(s, after);
  }

  lemma {:induction false} LeftIsBlank(s: string)
    ensures var n := |s| - |TrimLeft(s)|; s[n..] == TrimLeft(s) && forall i :: 0 <= i < n ==> IsSpace(s[i])
  {
    if s != "" && IsSpace(s[0]) {
      var n := |s| - |TrimLeft(s)|;
      LeftIsBlank(s[1..]);
      assert s[n..] == s[1..][n - 1..];
      forall i | 0 <= i < n ensures IsSpace(s[i]) { assert i > 0 ==> s[i] == s[1..][i - 1]; }
    }
  }

  lemma {:induction false} RightIsBlank(s: string)
    ensures forall i :: |TrimRight(s)| <= i < |s| ==> IsSpace(s[i])
  {
    if s != "" && IsSpace(s[|s| - 1]) { RightIsBlank(s[..|s| - 1]); }
  }

  /** Only blanks go. */
  lemma TrimmedAreBlanks(s: string) returns (before: string, after: string)
    ensures Blank(before) && Blank(after) && s == before + TrimSpace(s) + after
  {
    var left := TrimLeft(s);
    LeftIsBlank(s);
    RightIsBlank(left);
    before, after := s[..|s| - |left|], left[|TrimRight(left)|..];
    assert left == TrimRight(left) + after;
    assert s == before + left;
    Assoc(before, TrimRight(left), after);
  }

  /* ---------- the main results ---------- */

  /** A value is taken for a version exactly when it is a text of that version, whatever blanks and `v` it comes with. */
  lemma NormalizedExactly(value: string, v: Semver)
    ensures Normalized(value) == Some(v) <==> Written(value, v)
  {
    if Normalized(value) == Some(v) { NormalizedIsWritten(value, v); }
    if before, prefix, text, after :| WrittenAs(value, v, before, prefix, text, after) {
      WrittenIsNormalized(value, v, before, prefix, text, after);
    }
  }

  lemma WrittenIsNormalized(value: string, v: Semver, before: string, prefix: string, text: string, after: string)
    requires WrittenAs(value, v, before, prefix, text, after)
    ensures Normalized(value) == Some(v)
  {
    var whole := prefix + text;
    SpelledChars(text, v);
    assert value == before + whole + after by { Assoc(before, prefix, text); }
    assert whole[0] == if prefix == "v" then 'v' else text[0];
    assert whole[|whole| - 1] == text[|text| - 1];
    BlanksAreTrimmed(before, whole, after);
    ParsesExactly(text, v);
    NormalizedOfTrimmed(value, prefix, text);
  }

  lemma NormalizedOfTrimmed(value: string, prefix: string, text: string)
    requires prefix in {"", "v"} && TrimSpace(value) == prefix + text && text != "" && (prefix == "" ==> text[0] != 'v')
    ensures Normalized(value) == Parse("v" + text)
  {
    if prefix == "" { assert prefix + text == text; }
  }

  lemma NormalizedIsWritten(value: string, v: Semver)
    requires Normalized(value) == Some(v)
    ensures Written(value, v)
  {
    var before, after := TrimmedAreBlanks(value);
    var prefix, text := WithoutPrefix(value);
    ParsesExactly(text, v);
    Assoc(before, prefix, text);
    assert WrittenAs(value, v, before, prefix, text, after);
  }

  lemma WithoutPrefix(value: string) returns (prefix: string, text: string)
    requires Normalized(value).Some?
    ensures prefix in {"", "v"} && TrimSpace(value) == prefix + text && Normalized(value) == Parse("v" + text)
  {
    var whole := TrimSpace(value);
    if whole[0] == 'v' {
      prefix, text := "v", whole[1..];
      assert whole == "v" + text;
    } else {
      prefix, text := "", whole;
      assert whole == "" + whole;
    }
  }

  /** A full text, with or without `v`, is taken for the release it says. */
  lemma ReleasesAreTakenAsWritten(a: string, b: string, c: string, pre: seq<string>, build: seq<string>)
    requires Numeric(a) && Numeric(b) && Numeric(c) && BuildIdentifiers(build) && forall id :: id in pre ==> PreIdentifier(id)
    ensures Taken(a + "." + b + "." + c + Suffix('-', pre) + Suffix('+', build), Semver(a, b, c, pre))
  {
    var v := Semver(a, b, c, pre);
    FullTextParses(v, build);
    ParsedIsTaken(FullText(v, build), v);
  }

  /** And so are the shorthands. */
  lemma ShorthandsAreTaken(a: string, b: string)
    requires Numeric(a) && Numeric(b)
    ensures Taken(a + "." + b, Semver(a, b, "0", [])) && Taken(a, Semver(a, "0", "0", []))
  {
    ShorthandParses(Semver(a, b, "0", []), a + "." + b);
    ParsedIsTaken(a + "." + b, Semver(a, b, "0", []));
    ShorthandParses(Semver(a, "0", "0", []), a);
    ParsedIsTaken(a, Semver(a, "0", "0", []));
  }

  predicate Taken(text: string, v: Semver) { Normalized(text) == Normalized("v" + text) == Some(v) }

  lemma ParsedIsTaken(text: string, v: Semver)
    requires Parse("v" + text) == Some(v)
    ensures Taken(text, v)
  {
    ParsesExactly(text, v);
    AffixesDoNotMatter(text, v, "");
    AffixesDoNotMatter(text, v, "v");
    assert "" + text == text;
  }

  lemma AffixesDoNotMatter(text: string, v: Semver, prefix: string)
    requires Spells(text, v) && prefix in {"", "v"}
    ensures Normalized(prefix + text) == Some(v)
  {
    assert prefix + text == "" + prefix + text + "";
    WrittenIsNormalized(prefix + text, v, "", prefix, text, "");
  }

  /** Numeric identifiers are the decimal texts of the numbers. */
  lemma {:induction false} NumericIsDecimal(s: string)
    requires Digits(s)
    ensures Numeric(s) <==> s == Decimal(Value(s))
  {
    if |s| > 1 {
      var front := s[..|s| - 1];
      NumericIsDecimal(front);
      ValueBound(s);
      Pow10Grows(1, |s| - 1);
      assert Pow10(1) == 10;
      if Value(s) >= 10 { DecimalStep(s); }
    } else if |s| == 1 {
      assert s[..0] == "" && s == [s[0]];
    }
  }

  lemma ValueParts(s: string)
    requires Digits(s) && s != ""
    ensures Value(s) / 10 == Value(s[..|s| - 1]) && Value(s) % 10 == DigitOf(s[|s| - 1])
  {
  }

  lemma DecimalStep(s: string)
    requires Digits(s) && |s| > 1 && Value(s) >= 10
    ensures s == Decimal(Value(s)) <==> s[..|s| - 1] == Decimal(Value(s[..|s| - 1]))
  {
    var front, last, n := s[..|s| - 1], s[|s| - 1], Value(s);
    ValueParts(s);
    assert Decimal(n) == Decimal(Value(front)) + [last];
    LastCharSplits(s, Decimal(Value(front)), last);
  }

  lemma LastCharSplits(s: string, front: string, last: char)
    requires s != "" && s[|s| - 1] == last
    ensures s == front + [last] <==> s[..|s| - 1] == front
  {
    assert s == s[..|s| - 1] + [last];
    if s == front + [last] { assert s[..|s| - 1] == front; }
  }

  /* ---------- section 11 ---------- */

  ghost predicate TextBelow(a: string, b: string)
  {
    exists k :: TextBelowAt(a, b, k)
  }

  predicate TextBelowAt(a: string, b: string, k: int)
  {
    0 <= k <= |a| && k < |b| && a[..k] == b[..k] && (k == |a| || a[k] < b[k])
  }

  /** Numbers by their value and below everything else, which goes by its text. */
  ghost predicate IdentifierBelow(x: string, y: string)
  {
    if Digits(x) then Digits(y) ==> Value(x) < Value(y) else !Digits(y) && TextBelow(x, y)
  }

  /** The first identifiers that differ decide; without any, fewer are below more. */
  ghost predicate PreBelow(a: seq<string>, b: seq<string>)
  {
    exists k :: PreBelowAt(a, b, k)
  }

  ghost predicate PreBelowAt(a: seq<string>, b: seq<string>, k: int)
  {
    0 <= k <= |a| && k < |b| && a[..k] == b[..k] && (k == |a| || IdentifierBelow(a[k], b[k]))
  }

  /** Major, minor and patch version decide in turn, then a pre-release is below its release. */
  ghost predicate Precedes(a: Semver, b: Semver)
    requires a.Valid() && b.Valid()
  {
    if a.major != b.major then Value(a.major) < Value(b.major)
    else if a.minor != b.minor then Value(a.minor) < Value(b.minor)
    else if a.patch != b.patch then Value(a.patch) < Value(b.patch)
    else a.pre != [] && (b.pre == [] || PreBelow(a.pre, b.pre))
  }

  lemma {:induction false} CompareExactly(a: string, b: string)
    ensures Compare(a, b) < 0 <==> TextBelow(a, b)
  {
    if b != [] && (a == [] || a[0] < b[0]) {
      assert TextBelowAt(a, b, 0);
    } else if a != [] && b != [] && a[0] == b[0] {
      CompareExactly(a[1..], b[1..]);
      if k :| TextBelowAt(a[1..], b[1..], k) {
        assert a[..k + 1] == [a[0]] + a[1..][..k] && b[..k + 1] == [b[0]] + b[1..][..k];
        assert TextBelowAt(a, b, k + 1);
      }
      if k :| TextBelowAt(a, b, k) {
        assert a[1..][..k - 1] == a[..k][1..] && b[1..][..k - 1] == b[..k][1..];
        assert TextBelowAt(a[1..], b[1..], k - 1);
      }
    } else if a != [] && b != [] {
      assert forall k :: 0 < k <= |a| && k <= |b| ==> a[..k][0] == a[0] && b[..k][0] == b[0];
    }
  }

  lemma IdentifiersExactly(x: string, y: string)
    requires PreIdentifier(x) && PreIdentifier(y)
    ensures CompareIdentifiers(x, y) < 0 <==> IdentifierBelow(x, y)
    ensures CompareIdentifiers(x, y) > 0 <==> IdentifierBelow(y, x)
    ensures CompareIdentifiers(x, y) == 0 <==> x == y
  {
    if Digits(x) && Digits(y) { NumericOrder(x, y); }
    CompareExactly(x, y);
    CompareExactly(y, x);
    CompareFlip(x, y);
    CompareEqual(x, y);
  }

  lemma PreStep(a: seq<string>, b: seq<string>)
    requires a != [] && b != []
    ensures PreBelow(a, b) <==> IdentifierBelow(a[0], b[0]) || (a[0] == b[0] && PreBelow(a[1..], b[1..]))
  {
    if IdentifierBelow(a[0], b[0]) { assert PreBelowAt(a, b, 0); }
    if k :| a[0] == b[0] && PreBelowAt(a[1..], b[1..], k) { PreLonger(a, b, k); }
    if k :| PreBelowAt(a, b, k) {
      if k > 0 { PreShorter(a, b, k); }
    }
  }

  lemma PreLonger(a: seq<string>, b: seq<string>, k: int)
    requires a != [] && b != [] && a[0] == b[0] && PreBelowAt(a[1..], b[1..], k)
    ensures PreBelowAt(a, b, k + 1)
  {
    assert a[..k + 1] == [a[0]] + a[1..][..k] && b[..k + 1] == [b[0]] + b[1..][..k];
  }

  lemma PreShorter(a: seq<string>, b: seq<string>, k: int)
    requires a != [] && b != [] && k > 0 && PreBelowAt(a, b, k)
    ensures a[0] == b[0] && PreBelowAt(a[1..], b[1..], k - 1)
  {
    assert a[0] == a[..k][0] == b[..k][0];
    assert a[1..][..k - 1] == a[..k][1..] && b[1..][..k - 1] == b[..k][1..];
  }

  lemma {:induction false} PreExactly(a: seq<string>, b: seq<string>)
    requires forall id :: id in a ==> PreIdentifier(id)
    requires forall id :: id in b ==> PreIdentifier(id)
    ensures ComparePre(a, b) < 0 <==> PreBelow(a, b)
    ensures ComparePre(a, b) > 0 <==> PreBelow(b, a)
    ensures ComparePre(a, b) == 0 <==> a == b
  {
    if a == [] || b == [] {
      if b != [] { assert PreBelowAt(a, b, 0); }
      if a != [] { assert PreBelowAt(b, a, 0); }
    } else {
      assert a == [a[0]] + a[1..] && b == [b[0]] + b[1..];
      IdentifiersExactly(a[0], b[0]);
      PreStep(a, b);
      PreStep(b, a);
      PreExactly(a[1..], b[1..]);
    }
  }

  lemma PrecedenceExactly(a: Semver, b: Semver)
    requires a.Valid() && b.Valid()
    ensures Precedence(a, b) < 0 <==> Precedes(a, b)
    ensures Precedence(a, b) > 0 <==> Precedes(b, a)
    ensures Precedence(a, b) == 0 <==> a == b
  {
    NumericOrder(a.major, b.major);
    NumericOrder(a.minor, b.minor);
    NumericOrder(a.patch, b.patch);
    PreExactly(a.pre, b.pre);
  }

  /** Texts of versions compare as section 11 says; build identifiers, blanks and `v` do not matter. */
  lemma VersionsCompareByPrecedence(left: string, right: string, l: Semver, r: Semver)
    requires Written(left, l) && Written(right, r)
    ensures l.Valid() && r.Valid()
    ensures CompareVersions(left, right) == if Precedes(l, r) then -1 else if Precedes(r, l) then 1 else 0
    ensures CompareVersions(left, right) == 0 <==> l == r
  {
    NormalizedExactly(left, l);
    NormalizedExactly(right, r);
    PrecedenceExactly(l, r);
    ComparesAsSign(l, r);
  }

  lemma ComparesAsSign(l: Semver, r: Semver)
    requires l.Valid() && r.Valid()
    ensures -1 <= Precedence(l, r) <= 1
  {
    PreSign(l.pre, r.pre);
  }

  lemma {:induction false} PreSign(a: seq<string>, b: seq<string>)
    ensures -1 <= ComparePre(a, b) <= 1
  {
    if a != [] && b != [] {
      CompareSign(a[0], b[0]);
      PreSign(a[1..], b[1..]);
    }
  }

  lemma {:induction false} CompareSign(a: string, b: string)
    ensures -1 <= Compare(a, b) <= 1
  {
    if a != [] && b != [] { CompareSign(a[1..], b[1..]); }
  }

  /** Any other text is below every version, and two of them compare by their trimmed text. */
  lemma OtherTextsCompareBelow(other: string, value: string, v: Semver)
    requires forall o :: !Written(other, o)
    ensures Written(value, v) ==> CompareVersions(other, value) == -1 && CompareVersions(value, other) == 1
    ensures (forall o :: !Written(value, o)) ==> CompareVersions(other, value) == Compare(TrimSpace(other), TrimSpace(value))
  {
    forall o ensures Normalized(other) != Some(o) { NormalizedExactly(other, o); }
    assert Normalized(other) == None;
    NormalizedExactly(value, v);
    if forall o :: !Written(value, o) {
      forall o ensures Normalized(value) != Some(o) { NormalizedExactly(value, o); }
    }
  }
}
