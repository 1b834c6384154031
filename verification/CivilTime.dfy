/** UTC instants as calendar dates, and their RFC 3339 text (section 5.6) with nanoseconds whose
    trailing zeros are trimmed. */
module CivilTime {
  import opened Events
  import opened Digits

  datatype Civil = Civil(year: nat, month: nat, day: nat, hour: nat, minute: nat, second: nat, nanos: nat)

  // ---- Calendar ----

  predicate Leap(y: nat) {
    y % 4 == 0 && (y % 100 != 0 || y % 400 == 0)
  }

  function YearDays(y: nat): nat { if Leap(y) then 366 else 365 }

  function MonthDays(y: nat, m: nat): nat {
    if m == 2 then if Leap(y) then 29 else 28
    else if m == 4 || m == 6 || m == 9 || m == 11 then 30
    else 31
  }

  function DaysBeforeYear(y: nat): nat {
    if y == 0 then 0 else DaysBeforeYear(y - 1) + YearDays(y - 1)
  }

  function DaysBeforeMonth(y: nat, m: nat): nat
    requires 1 <= m <= 12
  {
    [0, 31, 59, 90, 120, 151, 181, 212, 243, 273, 304, 334][m - 1] + if m > 2 && Leap(y) then 1 else 0
  }

  /** The year holding day d counted from the start of year y, and the day within it. */
  function SplitYear(d: nat, y: nat): (r: (nat, nat))
    ensures r.1 < YearDays(r.0)
    ensures DaysBeforeYear(r.0) + r.1 == DaysBeforeYear(y) + d
    decreases d
  {
    if d < YearDays(y) then (y, d) else SplitYear(d - YearDays(y), y + 1)
  }

  lemma NextMonth(y: nat, m: nat)
    requires 1 <= m <= 12
    ensures DaysBeforeMonth(y, m) + MonthDays(y, m) == if m == 12 then YearDays(y) else DaysBeforeMonth(y, m + 1)
  {
  }

  /** The month holding day d counted from the start of month m, and the day within it. */
  function SplitMonth(d: nat, y: nat, m: nat): (r: (nat, nat))
    requires 1 <= m <= 12 && DaysBeforeMonth(y, m) + d < YearDays(y)
    ensures 1 <= r.0 <= 12 && r.1 < MonthDays(y, r.0)
    ensures DaysBeforeMonth(y, r.0) + r.1 == DaysBeforeMonth(y, m) + d
    decreases 12 - m
  {
    NextMonth(y, m);
    if d < MonthDays(y, m) then (m, d) else SplitMonth(d - MonthDays(y, m), y, m + 1)
  }

  predicate InRange(c: Civil) {
    1 <= c.month <= 12 && 1 <= c.day <= MonthDays(c.year, c.month) &&
    c.hour < 24 && c.minute < 60 && c.second < 60 && c.nanos < SECOND
  }

  /** Seconds from year 0 to the start of the day of a date. */
  function DayStart(c: Civil): nat
    requires 1 <= c.month <= 12 && 1 <= c.day
  {
    86400 * (DaysBeforeYear(c.year) + DaysBeforeMonth(c.year, c.month) + c.day - 1)
  }

  function InstantOf(c: Civil): nat
    requires InRange(c)
  {
    1_000_000_000 * (DayStart(c) + 3600 * c.hour + 60 * c.minute + c.second) + c.nanos
  }

  function CivilOf(t: Instant): Civil {
    var seconds := t / 1_000_000_000;
    var (y, dayOfYear) := SplitYear(seconds / 86400, 0);
    var (m, d) := SplitMonth(dayOfYear, y, 1);
    var clock := seconds % 86400;
    Civil(y, m, d + 1, clock / 3600, clock % 3600 / 60, clock % 60, t % 1_000_000_000)
  }

  lemma ClockParts(clock: nat)
    requires clock < 86400
    ensures clock / 3600 < 24 && clock % 3600 / 60 < 60
    ensures 3600 * (clock / 3600) + 60 * (clock % 3600 / 60) + clock % 60 == clock
  {
    assert clock % 3600 % 60 == clock % 60;
  }

  /** The calendar date of an instant is a date, and names that instant. */
  lemma CivilRoundTrip(t: Instant)
    ensures InRange(CivilOf(t)) && InstantOf(CivilOf(t)) == t
  {
    ClockParts(t / 1_000_000_000 % 86400);
  }

  // ---- Text ----

  /** Decimal digits of y. */
  function Width(y: nat): (w: nat)
    ensures Fits(y, Decimal, w)
    ensures (y >= 1 ==> w >= 1) && (y >= 10 ==> w >= 2) && (y >= 100 ==> w >= 3)
    ensures (y >= 1000 ==> w >= 4) && (y >= 10000 ==> w >= 5)
  {
    if y == 0 then 0 else 1 + Width(y / 10)
  }

  /** At least four digits. */
  function YearText(y: nat): string {
    if y < 10000 then Numeral(y, Decimal, 4) else Numeral(y, Decimal, Width(y))
  }

  function TrimZeros(s: string): (r: string)
    ensures |r| <= |s| && r == s[..|r|]
    ensures forall i :: |r| <= i < |s| ==> s[i] == '0'
  {
    if s == "" || s[|s| - 1] != '0' then s else TrimZeros(s[..|s| - 1])
  }

  function FractionText(nanos: nat): string {
    if nanos == 0 then "" else "." + TrimZeros(Numeral(nanos, Decimal, 9))
  }

  function Two(n: nat): string { Numeral(n, Decimal, 2) }

  function DateText(c: Civil): string {
    YearText(c.year) + "-" + Two(c.month) + "-" + Two(c.day)
  }

  function ClockText(c: Civil): string {
    "T" + Two(c.hour) + ":" + Two(c.minute) + ":" + Two(c.second)
  }

  function TextOf(c: Civil): string {
    DateText(c) + ClockText(c) + (FractionText(c.nanos) + "Z")
  }

  function FormatTime(t: Instant): string {
    TextOf(CivilOf(t))
  }

  // ---- Reading ----

  function Field(s: string, i: nat, n: nat): Option<nat>
    requires i + n <= |s|
  {
    NumeralValue(s[i..i + n], Decimal)
  }

  function DigitRun(s: string): (n: nat)
    ensures n <= |s|
    ensures forall i :: 0 <= i < n ==> '0' <= s[i] <= '9'
    ensures n < |s| ==> !('0' <= s[n] <= '9')
  {
    if s == "" || !('0' <= s[0] <= '9') then 0 else 1 + DigitRun(s[1..])
  }

  const NINE_ZEROS := "000000000"

  /** Nanoseconds of the digits after the point; digits beyond the ninth are ignored. */
  function FractionNanos(digits: string): Option<nat> {
    NumeralValue((digits + NINE_ZEROS)[..9], Decimal)
  }

  /** The UTC offset in minutes, from "Z" or a sign with hours and minutes. */
  function ParseZone(s: string): Option<int> {
    if s == "Z" then Some(0)
    else if |s| == 6 && (s[0] == '+' || s[0] == '-') && s[3] == ':' then
      match (Field(s, 1, 2), Field(s, 4, 2))
      case (Some(h), Some(m)) =>
        var minutes: int := 60 * h + m;
        if h < 24 && m < 60 then Some(if s[0] == '+' then minutes else -minutes) else None
      case _ => None
    else None
  }

  /** The optional fraction and the zone. */
  function ParseTail(s: string): Option<(nat, int)> {
    var run := if s != "" && s[0] == '.' then DigitRun(s[1..]) else 0;
    var zone := if run > 0 then s[run + 1..] else s;
    match (if run > 0 then FractionNanos(s[1..run + 1]) else Some(0), ParseZone(zone))
    case (Some(nanos), Some(offset)) => Some((nanos, offset))
    case _ => None
  }

  predicate Separated(s: string) {
    |s| >= 19 && s[4] == '-' && s[7] == '-' && s[10] == 'T' && s[13] == ':' && s[16] == ':'
  }

  function ParseCivil(s: string, nanos: nat): Option<Civil>
    requires Separated(s)
    ensures ParseCivil(s, nanos).Some? ==> InRange(ParseCivil(s, nanos).value)
  {
    match (Field(s, 0, 4), Field(s, 5, 2), Field(s, 8, 2), Field(s, 11, 2), Field(s, 14, 2), Field(s, 17, 2))
    case (Some(y), Some(mo), Some(d), Some(h), Some(mi), Some(sec)) =>
      var c := Civil(y, mo, d, h, mi, sec, nanos);
      if InRange(c) then Some(c) else None
    case _ => None
  }

  /** The instant a timestamp names. */
  function ParseTime(s: string): Option<int> {
    if !Separated(s) then None
    else
      match ParseTail(s[19..])
      case None => None
      case Some((nanos, offset)) =>
        match ParseCivil(s, nanos)
        case None => None
        case Some(c) => Some(InstantOf(c) - offset * MINUTE)
  }

  // ---- Round trip ----

  lemma TwoRoundTrip(n: nat)
    requires n < 100
    ensures |Two(n)| == 2 && NumeralValue(Two(n), Decimal) == Some(n)
  {
    assert Fits(n, Decimal, 2) by { assert Fits(n / 10, Decimal, 1); }
    NumeralRoundTrip(n, Decimal, 2);
  }

  lemma FitsNine(n: nat)
    requires n < SECOND
    ensures Fits(n, Decimal, 9)
  {
    var q := n / 10 / 10 / 10;
    var r := q / 10 / 10 / 10;
    assert r < 1000;
    assert Fits(r, Decimal, 3) by { assert Fits(r / 10, Decimal, 2); assert Fits(r / 10 / 10, Decimal, 1); }
    assert Fits(q, Decimal, 6) by { assert Fits(q / 10 / 10, Decimal, 4); assert Fits(q / 10, Decimal, 5); }
    assert Fits(n / 10 / 10, Decimal, 7);
    assert Fits(n / 10, Decimal, 8);
  }

  lemma TrimmedDigits(nanos: nat)
    requires 0 < nanos < SECOND
    ensures var f := TrimZeros(Numeral(nanos, Decimal, 9));
            f != "" && (forall i :: 0 <= i < |f| ==> '0' <= f[i] <= '9') && FractionNanos(f) == Some(nanos)
  {
    var digits := Numeral(nanos, Decimal, 9);
    FitsNine(nanos);
    NumeralRoundTrip(nanos, Decimal, 9);
    NumeralIsPlain(nanos, Decimal, 9);
    Padded(digits, nanos);
  }

  /** Trimmed zeros are put back by the padding; a nonzero numeral is not all zeros. */
  lemma Padded(digits: string, n: nat)
    requires |digits| == 9 && (forall c :: c in digits ==> '0' <= c <= '9')
    requires NumeralValue(digits, Decimal) == Some(n) && n > 0
    ensures var f := TrimZeros(digits);
            f != "" && (forall i :: 0 <= i < |f| ==> '0' <= f[i] <= '9') && FractionNanos(f) == Some(n)
  {
    var f := TrimZeros(digits);
    ZerosAreZero(9);
    assert NINE_ZEROS[..9] == NINE_ZEROS;
    assert (forall i :: 0 <= i < 9 ==> digits[i] == '0') ==> digits == NINE_ZEROS;
    assert forall i :: 0 <= i < |f| ==> f[i] == digits[i] && digits[i] in digits;
    assert (f + NINE_ZEROS)[..9] == digits;
  }

  /** The text is a zone of that many minutes, and cannot be taken for a fraction. */
  predicate ZoneText(zone: string, offset: int) {
    ParseZone(zone) == Some(offset) && zone != "" && zone[0] != '.' && !('0' <= zone[0] <= '9')
  }

  lemma FractionRead(f: string, nanos: nat, zone: string, offset: int)
    requires f != "" && (forall i :: 0 <= i < |f| ==> '0' <= f[i] <= '9') && FractionNanos(f) == Some(nanos)
    requires ZoneText(zone, offset)
    ensures ParseTail("." + (f + zone)) == Some((nanos, offset))
  {
    var s := "." + (f + zone);
    assert s[1..] == f + zone && (f + zone)[|f|] == zone[0];
    assert DigitRun(s[1..]) == |f|;
    assert s[1..|f| + 1] == f && s[|f| + 1..] == zone;
  }

  lemma FractionLayout(nanos: nat, f: string, zone: string)
    requires nanos > 0 && f == TrimZeros(Numeral(nanos, Decimal, 9))
    ensures FractionText(nanos) + zone == "." + (f + zone)
  {
  }

  lemma ZoneOnly(s: string, offset: int)
    requires ZoneText(s, offset)
    ensures ParseTail(s) == Some((0, offset))
  {
  }

  lemma TailRead(nanos: nat, zone: string, offset: int)
    requires nanos < SECOND && ZoneText(zone, offset)
    ensures ParseTail(FractionText(nanos) + zone) == Some((nanos, offset))
  {
    if nanos == 0 {
      assert FractionText(nanos) + zone == zone;
      ZoneOnly(zone, offset);
    } else {
      var f := TrimZeros(Numeral(nanos, Decimal, 9));
      TrimmedDigits(nanos);
      FractionRead(f, nanos, zone, offset);
      FractionLayout(nanos, f, zone);
    }
  }

  lemma TailRoundTrip(nanos: nat)
    requires nanos < SECOND
    ensures ParseTail(FractionText(nanos) + "Z") == Some((nanos, 0))
  {
    assert ZoneText("Z", 0);
    TailRead(nanos, "Z", 0);
  }

  lemma {:induction false} ZerosAreZero(n: nat)
    requires n <= 9
    ensures NumeralValue(NINE_ZEROS[..n], Decimal) == Some(0)
  {
    if n > 0 {
      ZerosAreZero(n - 1);
      assert NINE_ZEROS[..n][..n - 1] == NINE_ZEROS[..n - 1];
    }
  }

  lemma ParseFields(s: string, c: Civil, offset: int)
    requires Separated(s) && InRange(c) && ParseTail(s[19..]) == Some((c.nanos, offset))
    requires Field(s, 0, 4) == Some(c.year) && Field(s, 5, 2) == Some(c.month) && Field(s, 8, 2) == Some(c.day)
    requires Field(s, 11, 2) == Some(c.hour) && Field(s, 14, 2) == Some(c.minute) && Field(s, 17, 2) == Some(c.second)
    ensures ParseTime(s) == Some(InstantOf(c) - 60_000_000_000 * offset)
  {
    assert ParseCivil(s, c.nanos) == Some(c);
  }

  /** Reading a text laid out from its fields. */
  lemma ParseLayout(
    c: Civil, y: string, mo: string, d: string, h: string, mi: string, sec: string, tail: string, offset: int)
    requires |y| == 4 && |mo| == |d| == |h| == |mi| == |sec| == 2 && InRange(c)
    requires NumeralValue(y, Decimal) == Some(c.year)
    requires NumeralValue(mo, Decimal) == Some(c.month) && NumeralValue(d, Decimal) == Some(c.day)
    requires NumeralValue(h, Decimal) == Some(c.hour) && NumeralValue(mi, Decimal) == Some(c.minute)
    requires NumeralValue(sec, Decimal) == Some(c.second) && ParseTail(tail) == Some((c.nanos, offset))
    ensures ParseTime(y + "-" + mo + "-" + d + ("T" + h + ":" + mi + ":" + sec) + tail) ==
            Some(InstantOf(c) - 60_000_000_000 * offset)
  {
    Layout(y, mo, d, h, mi, sec, tail);
    ParseFields(y + "-" + mo + "-" + d + ("T" + h + ":" + mi + ":" + sec) + tail, c, offset);
  }

  /** A text with an offset names the instant that many minutes before what its fields say in UTC. */
  lemma ZonedRead(c: Civil, zone: string, offset: int)
    requires InRange(c) && c.year <= 9999 && ZoneText(zone, offset)
    ensures ParseTime(DateText(c) + ClockText(c) + (FractionText(c.nanos) + zone)) ==
            Some(InstantOf(c) - 60_000_000_000 * offset)
  {
    assert Fits(c.year, Decimal, 4) by {
      assert Fits(c.year / 10 / 10, Decimal, 2);
      assert Fits(c.year / 10, Decimal, 3);
    }
    NumeralRoundTrip(c.year, Decimal, 4);
    TwoRoundTrip(c.month); TwoRoundTrip(c.day);
    TwoRoundTrip(c.hour); TwoRoundTrip(c.minute); TwoRoundTrip(c.second);
    TailRead(c.nanos, zone, offset);
    ParseLayout(c, YearText(c.year), Two(c.month), Two(c.day), Two(c.hour), Two(c.minute), Two(c.second),
                FractionText(c.nanos) + zone, offset);
  }

  /** A sign, hours and minutes are an offset: east of Greenwich is positive. */
  lemma SignedZone(zone: string, sign: char, h: nat, m: nat)
    requires (sign == '+' || sign == '-') && h < 24 && m < 60 && zone == [sign] + Two(h) + ":" + Two(m)
    ensures ZoneText(zone, if sign == '+' then 60 * h + m else -(60 * h + m))
  {
    TwoRoundTrip(h);
    TwoRoundTrip(m);
    assert zone[1..3] == Two(h) && zone[4..6] == Two(m);
  }

  lemma ShortYearRoundTrip(c: Civil)
    requires InRange(c) && c.year <= 9999
    ensures ParseTime(TextOf(c)) == Some(InstantOf(c))
  {
    assert ZoneText("Z", 0);
    ZonedRead(c, "Z", 0);
  }

  lemma LongYearRejected(t: Instant)
    requires CivilOf(t).year > 9999
    ensures ParseTime(FormatTime(t)) == None
  {
    var c := CivilOf(t);
    var y := YearText(c.year);
    NumeralIsPlain(c.year, Decimal, Width(c.year));
    assert y[4] in y;
    assert FormatTime(t)[4] == y[4];
  }

  /** A formatted instant reads back as itself exactly when its year has at most four digits. */
  lemma TimeRoundTrip(t: Instant)
    ensures ParseTime(FormatTime(t)) == if CivilOf(t).year <= 9999 then Some(t) else None
  {
    CivilRoundTrip(t);
    if CivilOf(t).year <= 9999 { ShortYearRoundTrip(CivilOf(t)); } else { LongYearRejected(t); }
  }

  lemma Layout(y: string, mo: string, d: string, h: string, mi: string, sec: string, tail: string)
    requires |y| == 4 && |mo| == |d| == |h| == |mi| == |sec| == 2
    ensures var s := y + "-" + mo + "-" + d + ("T" + h + ":" + mi + ":" + sec) + tail;
            Separated(s) && s[0..4] == y && s[5..7] == mo && s[8..10] == d &&
            s[11..13] == h && s[14..16] == mi && s[17..19] == sec && s[19..] == tail
  {
  }

  // ---- Different instants, different texts ----

  lemma YearTextBack(y: nat)
    ensures NumeralValue(YearText(y), Decimal) == Some(y)
    ensures forall i :: 0 <= i < |YearText(y)| ==> YearText(y)[i] != '-'
  {
    if y < 10000 {
      assert Fits(y, Decimal, 4) by { assert Fits(y / 10 / 10, Decimal, 2); assert Fits(y / 10, Decimal, 3); }
      NumeralRoundTrip(y, Decimal, 4);
      NumeralIsPlain(y, Decimal, 4);
    } else {
      NumeralRoundTrip(y, Decimal, Width(y));
      NumeralIsPlain(y, Decimal, Width(y));
    }
    assert forall i :: 0 <= i < |YearText(y)| ==> YearText(y)[i] in YearText(y);
  }

  /** The text after the year. */
  function Rest(c: Civil): string {
    "-" + Two(c.month) + "-" + Two(c.day) + ClockText(c) + (FractionText(c.nanos) + "Z")
  }

  lemma TextSplit(c: Civil)
    ensures TextOf(c) == YearText(c.year) + Rest(c)
  {
  }

  /** The first hyphen ends the year. */
  lemma FirstHyphen(a: string, b: string, a': string, b': string)
    requires a + b == a' + b' && b != "" && b' != "" && b[0] == b'[0] == '-'
    requires (forall i :: 0 <= i < |a| ==> a[i] != '-') && (forall i :: 0 <= i < |a'| ==> a'[i] != '-')
    ensures a == a' && b == b'
  {
    var s := a + b;
    assert s[|a|] == '-' && s == a' + b' && s[|a'|] == '-';
    assert a == s[..|a|] && a' == s[..|a'|] && b == s[|a|..] && b' == s[|a'|..];
  }

  lemma RestBack(c: Civil, c': Civil)
    requires InRange(c) && InRange(c') && Rest(c) == Rest(c')
    ensures c' == c.(year := c'.year)
  {
    var tail, tail' := FractionText(c.nanos) + "Z", FractionText(c'.nanos) + "Z";
    Layout("0000", Two(c.month), Two(c.day), Two(c.hour), Two(c.minute), Two(c.second), tail);
    Layout("0000", Two(c'.month), Two(c'.day), Two(c'.hour), Two(c'.minute), Two(c'.second), tail');
    LayoutOfRest(c);
    LayoutOfRest(c');
    TwoRoundTrip(c.month); TwoRoundTrip(c.day);
    TwoRoundTrip(c.hour); TwoRoundTrip(c.minute); TwoRoundTrip(c.second);
    TwoRoundTrip(c'.month); TwoRoundTrip(c'.day);
    TwoRoundTrip(c'.hour); TwoRoundTrip(c'.minute); TwoRoundTrip(c'.second);
    TailRoundTrip(c.nanos);
    TailRoundTrip(c'.nanos);
  }

  lemma LayoutOfRest(c: Civil)
    ensures "0000" + "-" + Two(c.month) + "-" + Two(c.day) +
            ("T" + Two(c.hour) + ":" + Two(c.minute) + ":" + Two(c.second)) + (FractionText(c.nanos) + "Z") ==
            "0000" + Rest(c)
  {
  }

  /** However far in the future, two instants never share a text. */
  lemma FormatInjective(t: Instant, t': Instant)
    requires FormatTime(t) == FormatTime(t')
    ensures t == t'
  {
    var c, c' := CivilOf(t), CivilOf(t');
    CivilRoundTrip(t);
    CivilRoundTrip(t');
    TextSplit(c);
    TextSplit(c');
    YearTextBack(c.year);
    YearTextBack(c'.year);
    FirstHyphen(YearText(c.year), Rest(c), YearText(c'.year), Rest(c'));
    RestBack(c, c');
  }

  /** The text is made of octets and has no bar. */
  lemma FormatIsPlain(t: Instant)
    ensures forall x :: x in FormatTime(t) ==> IsPlain(x) || x in {'-', ':', '.', 'T', 'Z'}
  {
    var c := CivilOf(t);
    NumeralIsPlain(c.year, Decimal, 4);
    NumeralIsPlain(c.year, Decimal, Width(c.year));
    NumeralIsPlain(c.month, Decimal, 2);
    NumeralIsPlain(c.day, Decimal, 2);
    NumeralIsPlain(c.hour, Decimal, 2);
    NumeralIsPlain(c.minute, Decimal, 2);
    NumeralIsPlain(c.second, Decimal, 2);
    NumeralIsPlain(c.nanos, Decimal, 9);
  }
}
