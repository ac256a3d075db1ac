/**
 Timestamps as SQLite text: `2006-01-02 15:04:05` with up to nine fraction
 digits whose trailing zeros, and the dot before nothing, are left out. Expiry
 and reset times are compared as such text.
 */
module SqliteTime {
  import opened Text
  import opened Version

  /** A UTC time with a four-digit year. */
  datatype Time = Time(year: nat, month: nat, day: nat, hour: nat, minute: nat, second: nat, nanos: nat) {
    predicate Valid() {
      year < 10000 && 1 <= month <= 12 && 1 <= day <= DaysIn(year, month)
      && hour < 24 && minute < 60 && second < 60 && nanos < 1000000000
    }
  }

  function DaysIn(year: nat, month: nat): nat
  {
    if month == 2 then (if year % 4 == 0 && (year % 100 != 0 || year % 400 == 0) then 29 else 28)
    else if month in {4, 6, 9, 11} then 30 else 31
  }

  /** Which of two times comes first. */
  function TimeOrder(a: Time, b: Time): int
  {
    if a.year != b.year then Sign(a.year - b.year)
    else if a.month != b.month then Sign(a.month - b.month)
    else if a.day != b.day then Sign(a.day - b.day)
    else if a.hour != b.hour then Sign(a.hour - b.hour)
    else if a.minute != b.minute then Sign(a.minute - b.minute)
    else if a.second != b.second then Sign(a.second - b.second)
    else Sign(a.nanos - b.nanos)
  }

  /* ---------- formatting ---------- */

  predicate AllZeros(s: string) { forall i :: 0 <= i < |s| ==> s[i] == '0' }

  function TrimZeros(s: string): (r: string)
    ensures |r| <= |s|
  {
    if AllZeros(s) then [] else [s[0]] + TrimZeros(s[1..])
  }

  function Fraction(nanos: nat): string
  {
    if nanos == 0 then [] else ['.'] + TrimZeros(Fixed(nanos, 9))
  }

  function Format(t: Time): string
  {
    Fixed(t.year, 4) + ("-" + (Fixed(t.month, 2) + ("-" + (Fixed(t.day, 2) + (" " + (Fixed(t.hour, 2) + (":"
    + (Fixed(t.minute, 2) + (":" + (Fixed(t.second, 2) + Fraction(t.nanos)))))))))))
  }

  /* ---------- text order is time order ---------- */

  lemma Widths()
    ensures Pow10(0) == 1 && Pow10(2) == 100 && Pow10(4) == 10000 && Pow10(9) == 1000000000
  {
    assert Pow10(3) == 1000 && Pow10(6) == 1000000 by { assert Pow10(4) == 10 * Pow10(3); assert Pow10(6) == 10 * Pow10(5); }
    assert Pow10(8) == 10 * Pow10(7);
  }

  /** A fixed-width number decides before anything that follows it. */
  lemma FieldOrder(m: nat, n: nat, w: nat, x: string, y: string)
    requires m < Pow10(w) && n < Pow10(w)
    ensures Compare(Fixed(m, w) + x, Fixed(n, w) + y) == if m != n then Sign(m - n) else Compare(x, y)
  {
    FixedOrder(m, n, w);
    CompareEqual(Fixed(m, w), Fixed(n, w));
    CompareSameLength(Fixed(m, w), Fixed(n, w), x, y);
  }

  lemma {:induction false} ZerosBelow(x: string, y: string)
    requires |x| == |y| && AllZeros(x) && Digits(y) && !AllZeros(y)
    ensures Compare(x, y) == -1
  {
    if y[0] == '0' {
      ZerosBelow(x[1..], y[1..]);
    }
  }

  /** Dropping trailing zeros changes no comparison of digit runs of one length. */
  lemma {:induction false} TrimmedOrder(x: string, y: string)
    requires |x| == |y| && Digits(x) && Digits(y)
    ensures Compare(TrimZeros(x), TrimZeros(y)) == Compare(x, y)
  {
    if AllZeros(x) && AllZeros(y) {
      assert x == y;
      CompareEqual(x, y);
    } else if AllZeros(x) {
      ZerosBelow(x, y);
    } else if AllZeros(y) {
      ZerosBelow(y, x);
      CompareFlip(x, y);
    } else {
      TrimmedOrder(x[1..], y[1..]);
      assert TrimZeros(x)[1..] == TrimZeros(x[1..]) && TrimZeros(y)[1..] == TrimZeros(y[1..]);
    }
  }

  lemma {:induction false} ZerosAreZero(s: string)
    requires AllZeros(s)
    ensures Digits(s) && Value(s) == 0
  {
    if s != [] { ZerosAreZero(s[..|s| - 1]); }
  }

  lemma NonzeroStays(n: nat, w: nat)
    requires 0 < n < Pow10(w)
    ensures !AllZeros(Fixed(n, w)) && TrimZeros(Fixed(n, w)) != []
  {
    ValueOfFixed(n, w);
    if AllZeros(Fixed(n, w)) { ZerosAreZero(Fixed(n, w)); }
  }

  lemma FractionOrder(m: nat, n: nat)
    requires m < 1000000000 && n < 1000000000
    ensures Compare(Fraction(m), Fraction(n)) == Sign(m - n)
  {
    Widths();
    CompareEqual(Fraction(m), Fraction(n));
    if m > 0 && n > 0 {
      var x, y := Fixed(m, 9), Fixed(n, 9);
      CompareAfterPrefix(['.'], TrimZeros(x), TrimZeros(y));
      TrimmedOrder(x, y);
      FixedOrder(m, n, 9);
    }
  }

  lemma ClockOrder(a: Time, b: Time)
    requires a.Valid() && b.Valid()
    ensures Compare(Fixed(a.hour, 2) + (":" + (Fixed(a.minute, 2) + (":" + (Fixed(a.second, 2) + Fraction(a.nanos))))),
                    Fixed(b.hour, 2) + (":" + (Fixed(b.minute, 2) + (":" + (Fixed(b.second, 2) + Fraction(b.nanos))))))
            == if a.hour != b.hour then Sign(a.hour - b.hour)
               else if a.minute != b.minute then Sign(a.minute - b.minute)
               else if a.second != b.second then Sign(a.second - b.second)
               else Sign(a.nanos - b.nanos)
  {
    Widths();
    var fa, fb := Fraction(a.nanos), Fraction(b.nanos);
    var sa, sb := Fixed(a.second, 2) + fa, Fixed(b.second, 2) + fb;
    var ma, mb := Fixed(a.minute, 2) + (":" + sa), Fixed(b.minute, 2) + (":" + sb);
    FractionOrder(a.nanos, b.nanos);
    FieldOrder(a.second, b.second, 2, fa, fb);
    CompareAfterPrefix(":", sa, sb);
    FieldOrder(a.minute, b.minute, 2, ":" + sa, ":" + sb);
    CompareAfterPrefix(":", ma, mb);
    FieldOrder(a.hour, b.hour, 2, ":" + ma, ":" + mb);
  }

  /** Comparing timestamps as text is comparing them as times. */
  lemma TextOrderIsTimeOrder(a: Time, b: Time)
    requires a.Valid() && b.Valid()
    ensures Compare(Format(a), Format(b)) == TimeOrder(a, b)
  {
    Widths();
    var ha := Fixed(a.hour, 2) + (":" + (Fixed(a.minute, 2) + (":" + (Fixed(a.second, 2) + Fraction(a.nanos)))));
    var hb := Fixed(b.hour, 2) + (":" + (Fixed(b.minute, 2) + (":" + (Fixed(b.second, 2) + Fraction(b.nanos)))));
    var da, db := Fixed(a.day, 2) + (" " + ha), Fixed(b.day, 2) + (" " + hb);
    var ma, mb := Fixed(a.month, 2) + ("-" + da), Fixed(b.month, 2) + ("-" + db);
    ClockOrder(a, b);
    CompareAfterPrefix(" ", ha, hb);
    FieldOrder(a.day, b.day, 2, " " + ha, " " + hb);
    CompareAfterPrefix("-", da, db);
    FieldOrder(a.month, b.month, 2, "-" + da, "-" + db);
    CompareAfterPrefix("-", ma, mb);
    FieldOrder(a.year, b.year, 4, "-" + ma, "-" + mb);
  }

  /* ---------- parsing ---------- */

  function Zeros(n: nat): (s: string)
    ensures |s| == n && AllZeros(s)
  {
    if n == 0 then [] else ['0'] + Zeros(n - 1)
  }

  /** Nine digits of a fraction: zeros added, or further digits dropped. */
  function NineDigits(digits: string): (r: string)
    requires Digits(digits)
    ensures |r| == 9 && Digits(r)
  {
    if |digits| >= 9 then digits[..9] else digits + Zeros(9 - |digits|)
  }

  /** How many digits a text starts with. */
  function DigitRun(s: string): (n: nat)
    ensures n <= |s| && Digits(s[..n])
  {
    if s == [] || !IsDigit(s[0]) then 0 else 1 + DigitRun(s[1..])
  }

  /** The length of a fraction with its dot or comma; there may be none. */
  function FractionLength(s: string): (n: nat)
    ensures n <= |s| && (n > 0 ==> Digits(s[1..n]))
  {
    if |s| >= 2 && (s[0] == '.' || s[0] == ',') && IsDigit(s[1]) then
      var n := DigitRun(s[1..]);
      assert s[1..][..n] == s[1..1 + n];
      1 + n
    else 0
  }

  /** The layouts the scanner tries: what separates date and time, and whether a zone follows. */
  datatype Layout = Layout(separator: char, zoned: bool)

  const RFC3339_NANO := Layout('T', true)
  const WITH_ZONE := Layout(' ', true)
  const WRITTEN := Layout(' ', false)

  /** Minutes east of UTC. */
  function ParseZone(s: string): Option<int>
  {
    if s == "Z" then Some(0)
    else if |s| == 6 && (s[0] == '+' || s[0] == '-') && Digits(s[1..3]) && s[3] == ':' && Digits(s[4..6])
            && Value(s[1..3]) <= 24 && Value(s[4..6]) <= 60
    then Some((if s[0] == '-' then -1 else 1) * (Value(s[1..3]) * 60 + Value(s[4..6])))
    else None
  }

  predicate DateShaped(s: string, separator: char)
  {
    |s| >= 11 && s[4] == '-' && s[7] == '-' && s[10] == separator && Digits(s[0..4]) && Digits(s[5..7]) && Digits(s[8..10])
  }

  /** The hour may have one digit. */
  function HourLength(s: string): nat { if |s| >= 2 && IsDigit(s[1]) then 2 else 1 }

  predicate ClockShaped(s: string)
  {
    s != [] && IsDigit(s[0])
    && var rest := s[HourLength(s)..];
       |rest| >= 6 && rest[0] == ':' && rest[3] == ':' && Digits(rest[1..3]) && Digits(rest[4..6])
  }

  /** The fields of a date and time, and the zone they are in. */
  datatype Scanned = Scanned(fields: Time, offset: int)

  function Nanos(tail: string): nat
  {
    if FractionLength(tail) == 0 then 0 else Value(NineDigits(tail[1..FractionLength(tail)]))
  }

  predicate Shaped(s: string, separator: char) { DateShaped(s, separator) && ClockShaped(s[11..]) }

  /** What follows the seconds. */
  function AfterSeconds(s: string): string
    requires |s| >= 11 && ClockShaped(s[11..])
  {
    s[11..][HourLength(s[11..])..][6..]
  }

  function Fields(s: string, separator: char): Time
    requires Shaped(s, separator)
  {
    var clock, tail := s[11..], AfterSeconds(s);
    var rest := clock[HourLength(clock)..];
    Time(Value(s[0..4]), Value(s[5..7]), Value(s[8..10]), Value(clock[..HourLength(clock)]), Value(rest[1..3]), Value(rest[4..6]),
         Nanos(tail))
  }

  /** time.ParseInLocation in UTC. */
  function Parse(layout: Layout, s: string): (r: Option<Scanned>)
    ensures r.Some? ==> r.value.fields.Valid()
  {
    if !Shaped(s, layout.separator) || !Fields(s, layout.separator).Valid() then None
    else
      var t, zone := Fields(s, layout.separator), AfterSeconds(s)[FractionLength(AfterSeconds(s))..];
      if !layout.zoned then (if zone == "" then Some(Scanned(t, 0)) else None)
      else match ParseZone(zone) case None => None case Some(offset) => Some(Scanned(t, offset))
  }

  /** Scan tries one layout after the other. */
  function Scan(s: string): Option<Scanned>
  {
    match Parse(RFC3339_NANO, s)
    case Some(r) => Some(r)
    case None =>
      match Parse(WITH_ZONE, s)
      case Some(r) => Some(r)
      case None => Parse(WRITTEN, s)
  }

  /** No text fits two of the layouts, so the order in which they are tried does not matter. */
  lemma LayoutsAreDisjoint(s: string, a: Layout, b: Layout)
    requires a in {RFC3339_NANO, WITH_ZONE, WRITTEN} && b in {RFC3339_NANO, WITH_ZONE, WRITTEN} && a != b
    ensures Parse(a, s).None? || Parse(b, s).None?
    ensures Parse(a, s).Some? ==> Scan(s) == Parse(a, s)
  {
    WrittenHasNoZone(s);
    if Parse(RFC3339_NANO, s).Some? { assert s[10] == 'T'; }
  }

  lemma WrittenHasNoZone(s: string)
    ensures Parse(WITH_ZONE, s).None? || Parse(WRITTEN, s).None?
  {
  }

  lemma {:induction false} TrimmedAndPadded(s: string)
    ensures TrimZeros(s) + Zeros(|s| - |TrimZeros(s)|) == s
    ensures Digits(s) ==> Digits(TrimZeros(s))
  {
    if AllZeros(s) {
    } else {
      TrimmedAndPadded(s[1..]);
      assert s == [s[0]] + s[1..];
    }
  }

  lemma {:induction false} DigitsRun(s: string)
    requires Digits(s)
    ensures DigitRun(s) == |s|
  {
    if s != [] { DigitsRun(s[1..]); }
  }

  /** Nine digits survive the loss of their trailing zeros. */
  lemma NineDigitsAgain(digits: string)
    requires |digits| == 9 && Digits(digits)
    ensures Digits(TrimZeros(digits)) && NineDigits(TrimZeros(digits)) == digits
  {
    TrimmedAndPadded(digits);
    if |TrimZeros(digits)| >= 9 { assert TrimZeros(digits)[..9] == digits; }
  }

  lemma FractionParses(nanos: nat)
    requires nanos < 1000000000
    ensures FractionLength(Fraction(nanos)) == |Fraction(nanos)| && Nanos(Fraction(nanos)) == nanos
  {
    Widths();
    if nanos > 0 {
      NonzeroStays(nanos, 9);
      ValueOfFixed(nanos, 9);
      NineDigitsAgain(Fixed(nanos, 9));
      DotAndDigits(TrimZeros(Fixed(nanos, 9)));
    }
  }

  lemma DotAndDigits(digits: string)
    requires digits != [] && Digits(digits)
    ensures FractionLength(['.'] + digits) == 1 + |digits| && Nanos(['.'] + digits) == Value(NineDigits(digits))
  {
    assert (['.'] + digits)[1..] == digits == (['.'] + digits)[1..1 + |digits|];
    DigitsRun(digits);
  }

  /** Digits after the ninth are dropped. */
  lemma FractionsAreCutOff(digits: string, more: string)
    requires |digits| == 9 && Digits(digits) && Digits(more)
    ensures Nanos(['.'] + (digits + more)) == Value(digits)
  {
    DotAndDigits(digits + more);
    assert (digits + more)[..9] == digits;
  }

  /** A field and its separator, and what follows them. */
  lemma FieldSlices(s: string, k: nat, field: string, sep: string, rest: string)
    requires k <= |s| && s[k..] == field + (sep + rest) && |sep| == 1
    ensures k + |field| + 1 <= |s| && s[k..k + |field|] == field && s[k + |field|] == sep[0] && s[k + |field| + 1..] == rest
  {
    var tail := s[k..];
    assert tail[..|field|] == field && tail[|field|..] == sep + rest;
    assert s[k..k + |field|] == tail[..|field|] && s[k + |field|] == tail[|field|] && s[k + |field| + 1..] == tail[|field| + 1..];
    assert tail[|field| + 1..] == (sep + rest)[1..];
  }

  /** The text is the fields of the time at their places, and what follows the seconds. */
  predicate Placed(s: string, t: Time, separator: char, tail: string)
  {
    && |s| >= 19 && s[4] == '-' && s[7] == '-' && s[10] == separator && s[13] == ':' && s[16] == ':'
    && s[0..4] == Fixed(t.year, 4) && s[5..7] == Fixed(t.month, 2) && s[8..10] == Fixed(t.day, 2)
    && s[11..13] == Fixed(t.hour, 2) && s[14..16] == Fixed(t.minute, 2) && s[17..19] == Fixed(t.second, 2)
    && s[19..] == tail
  }

  predicate Slices(s: string, t: Time) { Placed(s, t, ' ', Fraction(t.nanos)) }

  lemma FormatSlices(t: Time)
    ensures Slices(Format(t), t)
  {
    var seconds := Fixed(t.second, 2) + Fraction(t.nanos);
    var minutes := Fixed(t.minute, 2) + (":" + seconds);
    var hours := Fixed(t.hour, 2) + (":" + minutes);
    var days := Fixed(t.day, 2) + (" " + hours);
    var months := Fixed(t.month, 2) + ("-" + days);
    TextSlices(Format(t), Fixed(t.year, 4), Fixed(t.month, 2), Fixed(t.day, 2), ' ', Fixed(t.hour, 2), Fixed(t.minute, 2), seconds);
    assert Format(t)[17..19] == seconds[..2] && Format(t)[19..] == seconds[2..];
  }

  lemma TextSlices(s: string, year: string, month: string, day: string, separator: char, hour: string, minute: string, seconds: string)
    requires |year| == 4 && |month| == |day| == |hour| == |minute| == 2 && |seconds| >= 2
    requires s == year + ("-" + (month + ("-" + (day + ([separator] + (hour + (":" + (minute + (":" + seconds)))))))))
    ensures |s| >= 19 && s[4] == '-' && s[7] == '-' && s[10] == separator && s[13] == ':' && s[16] == ':'
    ensures s[0..4] == year && s[5..7] == month && s[8..10] == day && s[11..13] == hour && s[14..16] == minute && s[17..] == seconds
  {
    var clock := hour + (":" + (minute + (":" + seconds)));
    DateSlices(s, year, month, day, separator, clock);
    ClockSlices(s, hour, minute, seconds);
  }

  lemma DateSlices(s: string, year: string, month: string, day: string, separator: char, clock: string)
    requires |year| == 4 && |month| == |day| == 2 && s == year + ("-" + (month + ("-" + (day + ([separator] + clock)))))
    ensures |s| >= 11 && s[4] == '-' && s[7] == '-' && s[10] == separator
    ensures s[0..4] == year && s[5..7] == month && s[8..10] == day && s[11..] == clock
  {
    var days := day + ([separator] + clock);
    var months := month + ("-" + days);
    assert s[0..] == s == year + ("-" + months);
    FieldSlices(s, 0, year, "-", months);
    FieldSlices(s, 5, month, "-", days);
    FieldSlices(s, 8, day, [separator], clock);
  }

  lemma ClockSlices(s: string, hour: string, minute: string, seconds: string)
    requires |s| >= 11 && |hour| == |minute| == 2 && |seconds| >= 2 && s[11..] == hour + (":" + (minute + (":" + seconds)))
    ensures |s| >= 19 && s[13] == ':' && s[16] == ':' && s[11..13] == hour && s[14..16] == minute && s[17..] == seconds
  {
    FieldSlices(s, 11, hour, ":", minute + (":" + seconds));
    FieldSlices(s, 14, minute, ":", seconds);
  }

  lemma PlacedIsShaped(s: string, t: Time, separator: char, tail: string)
    requires Placed(s, t, separator, tail)
    ensures Shaped(s, separator) && HourLength(s[11..]) == 2
    ensures s[11..][..2] == s[11..13] && s[11..][2..][1..3] == s[14..16] && s[11..][2..][4..6] == s[17..19]
    ensures AfterSeconds(s) == tail
  {
    var clock := s[11..];
    assert clock[..2] == s[11..13] && clock[2..] == s[13..];
    assert clock[2..][1..3] == s[14..16] && clock[2..][4..6] == s[17..19] && clock[2..][6..] == s[19..];
    assert clock[0] == clock[..2][0] && clock[1] == clock[..2][1];
  }

  lemma PlacedFields(s: string, t: Time, separator: char, tail: string)
    requires t.Valid() && Placed(s, t, separator, tail) && Nanos(tail) == t.nanos
    ensures Shaped(s, separator) && Fields(s, separator) == t && AfterSeconds(s) == tail
  {
    PlacedIsShaped(s, t, separator, tail);
    FieldsParse(t);
  }

  /** Scanning what was written gives the same time, in UTC. */
  lemma ScanUndoesFormat(t: Time)
    requires t.Valid()
    ensures Scan(Format(t)) == Some(Scanned(t, 0))
  {
    var tail := Fraction(t.nanos);
    FormatSlices(t);
    FractionParses(t.nanos);
    PlacedFields(Format(t), t, ' ', tail);
    assert tail[|tail|..] == "";
  }

  lemma {:induction false} DigitsThenZone(digits: string, zone: string)
    requires Digits(digits) && zone != "" && !IsDigit(zone[0])
    ensures DigitRun(digits + zone) == |digits|
  {
    if digits == "" {
      assert digits + zone == zone;
    } else {
      assert (digits + zone)[1..] == digits[1..] + zone;
      DigitsThenZone(digits[1..], zone);
    }
  }

  /** A fraction ends where a zone begins. */
  lemma FractionThenZone(nanos: nat, zone: string)
    requires nanos < 1000000000 && zone != "" && zone[0] in "Z+-"
    ensures var tail := Fraction(nanos) + zone;
            && FractionLength(tail) == |Fraction(nanos)| && tail[FractionLength(tail)..] == zone && Nanos(tail) == nanos
  {
    if nanos == 0 {
      assert Fraction(nanos) + zone == zone;
    } else {
      FractionParses(nanos);
      var digits := TrimZeros(Fixed(nanos, 9));
      Widths();
      NonzeroStays(nanos, 9);
      NineDigitsAgain(Fixed(nanos, 9));
      FractionDigits(digits, zone);
      FractionDigits(digits, "Z");
      DotAndDigits(digits);
    }
  }

  lemma FractionDigits(digits: string, zone: string)
    requires digits != "" && Digits(digits) && zone != "" && !IsDigit(zone[0])
    ensures var tail := ['.'] + digits + zone;
            FractionLength(tail) == 1 + |digits| && tail[1 + |digits|..] == zone && Nanos(tail) == Value(NineDigits(digits))
  {
    var tail := ['.'] + digits + zone;
    assert tail[1..] == digits + zone && tail[1..1 + |digits|] == digits;
    DigitsThenZone(digits, zone);
  }

  /** The text of a time with another separator and a zone. */
  function Zoned(t: Time, separator: char, zone: string): string
  {
    Fixed(t.year, 4) + ("-" + (Fixed(t.month, 2) + ("-" + (Fixed(t.day, 2) + ([separator] + (Fixed(t.hour, 2) + (":"
    + (Fixed(t.minute, 2) + (":" + (Fixed(t.second, 2) + (Fraction(t.nanos) + zone)))))))))))
  }

  lemma ZonedIsPlaced(t: Time, separator: char, zone: string)
    ensures Placed(Zoned(t, separator, zone), t, separator, Fraction(t.nanos) + zone)
  {
    var seconds := Fixed(t.second, 2) + (Fraction(t.nanos) + zone);
    TextSlices(Zoned(t, separator, zone), Fixed(t.year, 4), Fixed(t.month, 2), Fixed(t.day, 2), separator, Fixed(t.hour, 2),
               Fixed(t.minute, 2), seconds);
    assert Zoned(t, separator, zone)[17..19] == seconds[..2] && Zoned(t, separator, zone)[19..] == seconds[2..];
  }

  /** The offset of a zone, in minutes east of UTC. */
  function ZoneText(minutes: int): string
  {
    var m := if minutes < 0 then -minutes else minutes;
    [if minutes < 0 then '-' else '+'] + (Fixed(m / 60, 2) + (":" + Fixed(m % 60, 2)))
  }

  lemma ZoneParses(minutes: int)
    requires -1500 < minutes < 1500
    ensures ParseZone(ZoneText(minutes)) == Some(minutes)
  {
    var m := if minutes < 0 then -minutes else minutes;
    var zone := ZoneText(minutes);
    TwoDigits(m / 60);
    TwoDigits(m % 60);
    assert zone[1..3] == Fixed(m / 60, 2) && zone[3] == ':' && zone[4..6] == Fixed(m % 60, 2);
  }

  /** With a `T` or a blank between date and time, and a zone behind, scanning gives the time and the zone's offset. */
  lemma ScanReadsZones(t: Time, separator: char, minutes: int)
    requires t.Valid() && separator in {'T', ' '} && -1500 < minutes < 1500
    ensures Scan(Zoned(t, separator, ZoneText(minutes))) == Some(Scanned(t, minutes))
    ensures Scan(Zoned(t, separator, "Z")) == Some(Scanned(t, 0))
  {
    ZoneParses(minutes);
    ScanReadsZone(t, separator, ZoneText(minutes), minutes);
    ScanReadsZone(t, separator, "Z", 0);
  }

  lemma ScanReadsZone(t: Time, separator: char, zone: string, minutes: int)
    requires t.Valid() && separator in {'T', ' '} && zone != "" && zone[0] in "Z+-" && ParseZone(zone) == Some(minutes)
    ensures Scan(Zoned(t, separator, zone)) == Some(Scanned(t, minutes))
  {
    var s, tail := Zoned(t, separator, zone), Fraction(t.nanos) + zone;
    FractionThenZone(t.nanos, zone);
    ZonedIsPlaced(t, separator, zone);
    PlacedFields(s, t, separator, tail);
    assert Parse(Layout(separator, true), s) == Some(Scanned(t, minutes));
  }

  lemma FieldsParse(t: Time)
    requires t.Valid()
    ensures Value(Fixed(t.year, 4)) == t.year && Value(Fixed(t.month, 2)) == t.month && Value(Fixed(t.day, 2)) == t.day
    ensures Value(Fixed(t.hour, 2)) == t.hour && Value(Fixed(t.minute, 2)) == t.minute && Value(Fixed(t.second, 2)) == t.second
  {
    Widths();
    ValueOfFixed(t.year, 4);
    TwoDigits(t.month);
    TwoDigits(t.day);
    TwoDigits(t.hour);
    TwoDigits(t.minute);
    TwoDigits(t.second);
  }

  lemma TwoDigits(n: nat)
    requires n < 100
    ensures Value(Fixed(n, 2)) == n
  {
    Widths();
    ValueOfFixed(n, 2);
  }
}
