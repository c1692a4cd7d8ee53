/**
  Go's `time.Time` reduced to what the task DTOs use, and Go's
  `Time.Format` / `time.Parse` for the one layout the service uses,
  "2006-01-02 15:04:05".
 */
module TimeLayout {
  import opened Wrappers
  import opened Decimal

  /** The reference layout as written in the domain package. */
  const Layout: string := "2006-01-02 15:04:05"

  datatype Location = UTC | Zone(name: string, offsetSeconds: int)

  /** Wall-clock fields of a time in its own location. */
  datatype Clock = Clock(year: int, month: int, day: int,
                         hour: int, minute: int, second: int,
                         nanos: int, loc: Location)

  predicate IsLeap(year: int) {
    year % 4 == 0 && (year % 100 != 0 || year % 400 == 0)
  }

  function DaysIn(month: int, year: int): (n: int)
    requires 1 <= month <= 12
    ensures 28 <= n <= 31
  {
    if month == 2 then (if IsLeap(year) then 29 else 28)
    else if month == 4 || month == 6 || month == 9 || month == 11 then 30
    else 31
  }

  predicate ValidClock(c: Clock) {
    && 1 <= c.month <= 12
    && 1 <= c.day <= DaysIn(c.month, c.year)
    && 0 <= c.hour < 24
    && 0 <= c.minute < 60
    && 0 <= c.second < 60
    && 0 <= c.nanos < 1_000_000_000
  }

  /** A Go `time.Time`: its calendar fields are always normalised. */
  type Time = c: Clock | ValidClock(c) witness Clock(1, 1, 1, 0, 0, 0, 0, UTC)

  /** Go's zero `time.Time{}`: January 1, year 1, 00:00:00 UTC. */
  const ZeroTime: Time := Clock(1, 1, 1, 0, 0, 0, 0, UTC)

  // ---------------------------------------------------------------- Format

  /** The "2006" element: at least four digits, with a sign when negative. */
  function YearText(year: int): string {
    if year < 0 then "-" + Pad(-year, 4) else Pad(year, 4)
  }

  /**
    `t.Format("2006-01-02 15:04:05")`: wall-clock fields in t's own
    location; the fraction of a second and the location are not printed.
   */
  function Format(t: Time): string {
    Join(YearText(t.year), Pad(t.month, 2), Pad(t.day, 2), Pad(t.hour, 2), Pad(t.minute, 2), Pad(t.second, 2))
  }

  /** Six field texts joined by the layout's separators. */
  function Join(year: string, month: string, day: string, hour: string, minute: string, second: string): string {
    year + "-" + month + "-" + day + " " + hour + ":" + minute + ":" + second
  }

  /** Strings of exactly the layout's shape: "dddd-dd-dd dd:dd:dd". */
  predicate Canonical(s: string) {
    && |s| == 19
    && AllDigits(s[0..4]) && s[4] == '-'
    && AllDigits(s[5..7]) && s[7] == '-'
    && AllDigits(s[8..10]) && s[10] == ' '
    && AllDigits(s[11..13]) && s[13] == ':'
    && AllDigits(s[14..16]) && s[16] == ':'
    && AllDigits(s[17..19])
  }

  // ----------------------------------------------------------------- Parse

  /** Go's `getnum`: one or two leading digits; `fixed` demands exactly two. */
  function GetNum(v: string, fixed: bool): (r: Option<(nat, string)>)
    ensures r.Some? ==> r.value.0 < 100 && |r.value.1| < |v|
  {
    if |v| == 0 || !IsDigit(v[0]) then None
    else if |v| == 1 || !IsDigit(v[1]) then
      (if fixed then None else Some((DigitValue(v[0]), v[1..])))
    else Some((DigitValue(v[0]) * 10 + DigitValue(v[1]), v[2..]))
  }

  /** A literal layout character must be matched exactly. */
  function Literal(v: string, c: char): Option<string> {
    if |v| > 0 && v[0] == c then Some(v[1..]) else None
  }

  function DropSpaces(v: string): (r: string)
    ensures |r| <= |v|
    ensures |r| > 0 ==> r[0] != ' '
  {
    if |v| > 0 && v[0] == ' ' then DropSpaces(v[1..]) else v
  }

  /**
    A space in the layout: the input must be empty or start with a space,
    and any run of spaces is consumed.
   */
  function Spaces(v: string): Option<string> {
    if |v| > 0 && v[0] != ' ' then None else Some(DropSpaces(v))
  }

  /** Number of consecutive digits of `v` from index `i` on. */
  function DigitRun(v: string, i: nat): (n: nat)
    requires i <= |v|
    ensures i + n <= |v|
    ensures AllDigits(v[i..i + n])
    decreases |v| - i
  {
    if i < |v| && IsDigit(v[i]) then
      var n := 1 + DigitRun(v, i + 1);
      assert v[i..i + n] == [v[i]] + v[i + 1..i + n];
      n
    else 0
  }

  /**
    A fraction the layout does not mention (".123" or ",123" after the
    seconds) is still accepted: at most nine digits are kept as nanoseconds,
    any further digits are consumed and ignored.
   */
  function Fraction(v: string): (r: (int, string))
    ensures 0 <= r.0 < 1_000_000_000
    ensures |r.1| <= |v|
  {
    if |v| >= 2 && (v[0] == '.' || v[0] == ',') && IsDigit(v[1]) then
      var n := DigitRun(v, 1);
      var k := if n > 9 then 9 else n;
      assert v[1..1 + k] == v[1..1 + n][..k];
      var digits := v[1..1 + k];
      ScaledFraction(digits);
      (Value(digits) * Pow10(9 - k), v[1 + n..])
    else (0, v)
  }

  /** At most nine fraction digits scaled to nanoseconds stay below one second. */
  lemma ScaledFraction(digits: string)
    requires AllDigits(digits) && |digits| <= 9
    ensures 0 <= Value(digits) * Pow10(9 - |digits|) < 1_000_000_000
  {
    var k := |digits|;
    ValueBound(digits);
    Pow10Add(k, 9 - k);
    assert Pow10(9) == 1_000_000_000;
    ScaleBelow(Value(digits), Pow10(k), Pow10(9 - k));
  }

  lemma ScaleBelow(v: nat, p: nat, q: nat)
    requires v < p && q > 0
    ensures v * q < p * q
  {
  }

  /** The six numeric fields read off the text, and what follows the seconds. */
  datatype Fields = Fields(year: nat, month: nat, day: nat, hour: nat, minute: nat, second: nat, rest: string)

  /**
    Reads the layout's fields in order: the year takes exactly four
    digits, month, day, minute and second exactly two, the hour ("15") one
    or two; the space between date and time matches any run of spaces.
   */
  function ScanFields(s: string): (r: Option<Fields>)
    ensures r.Some? ==> r.value.year < 10000
  {
    if |s| < 4 || !AllDigits(s[..4]) then None
    else
      var year := Value(s[..4]);
      ValueBound(s[..4]);
      var v1 :- Literal(s[4..], '-');
      var month :- GetNum(v1, true);
      var v2 :- Literal(month.1, '-');
      var day :- GetNum(v2, true);
      var v3 :- Spaces(day.1);
      var hour :- GetNum(v3, false);
      var v4 :- Literal(hour.1, ':');
      var minute :- GetNum(v4, true);
      var v5 :- Literal(minute.1, ':');
      var second :- GetNum(v5, true);
      Some(Fields(year, month.0, day.0, hour.0, minute.0, second.0, second.1))
  }

  /**
    The checks after the fields: an optional fraction, nothing after it,
    and every field within its range, the day within its month.
   */
  function Finish(f: Fields): (r: Option<Time>)
    ensures r.Some? ==> r.value.loc == UTC && r.value.year == f.year
  {
    var frac := Fraction(f.rest);
    if |frac.1| > 0 then None
    else if !(1 <= f.month <= 12) || f.hour >= 24 || f.minute >= 60 || f.second >= 60 then None
    else if !(1 <= f.day <= DaysIn(f.month, f.year)) then None
    else Some(Clock(f.year, f.month, f.day, f.hour, f.minute, f.second, frac.0, UTC))
  }

  /**
    `time.Parse("2006-01-02 15:04:05", s)`: `None` stands for the parse
    error, trailing text included.
   */
  function Parse(s: string): (r: Option<Time>)
    ensures r.Some? ==> r.value.loc == UTC && 0 <= r.value.year <= 9999
  {
    var f :- ScanFields(s);
    Finish(f)
  }

  // ------------------------------------------------------------- Civil days

  /**
    Day number of a civil date, 1970-01-01 being day 0 (proleptic
    Gregorian calendar; `/` by a positive constant floors in Dafny).
   */
  function DaysFromCivil(year: int, month: int, day: int): int
    requires 1 <= month <= 12
  {
    var y := if month <= 2 then year - 1 else year;
    var era := y / 400;
    var yoe := y - era * 400;
    var mp := if month > 2 then month - 3 else month + 9;
    var doy := (153 * mp + 2) / 5 + day - 1;
    var doe := yoe * 365 + yoe / 4 - yoe / 100 + doy;
    era * 146097 + doe - 719468
  }

  /** The calendar day of a time's wall clock, as a day number. */
  function CivilDay(t: Time): int {
    DaysFromCivil(t.year, t.month, t.day)
  }

  /** Wall-clock nanoseconds since 1970-01-01 00:00:00, location ignored. */
  function WallInstant(t: Time): int {
    CivilDay(t) * 86_400_000_000_000
    + ((t.hour * 60 + t.minute) * 60 + t.second) * 1_000_000_000 + t.nanos
  }

  // ---------------------------------------------------------------- Lemmas

  lemma {:induction false} PadLengthAbove(n: nat, width: nat)
    requires n >= Pow10(width)
    ensures |Pad(n, width)| > width
    decreases width
  {
    if width > 0 {
      PadLengthAbove(n / 10, width - 1);
    }
  }

  /** The rendering is 19 characters exactly for the years 0 through 9999. */
  lemma FormatLength(t: Time)
    ensures |Format(t)| == 19 <==> 0 <= t.year <= 9999
  {
    PadLength(t.month, 2);
    PadLength(t.day, 2);
    PadLength(t.hour, 2);
    PadLength(t.minute, 2);
    PadLength(t.second, 2);
    if t.year < 0 {
      assert |YearText(t.year)| >= 5;
    } else if t.year > 9999 {
      PadLengthAbove(t.year, 4);
    } else {
      PadLength(t.year, 4);
    }
  }

  /** Within four-digit years the rendering has exactly the layout's shape. */
  lemma FormatCanonical(t: Time)
    requires 0 <= t.year <= 9999
    ensures Canonical(Format(t))
    ensures Format(t)[0..4] == Pad(t.year, 4)
    ensures Format(t)[5..7] == Pad(t.month, 2)
    ensures Format(t)[8..10] == Pad(t.day, 2)
    ensures Format(t)[11..13] == Pad(t.hour, 2)
    ensures Format(t)[14..16] == Pad(t.minute, 2)
    ensures Format(t)[17..19] == Pad(t.second, 2)
  {
    PadLength(t.year, 4);
    PadLength(t.month, 2);
    PadLength(t.day, 2);
    PadLength(t.hour, 2);
    PadLength(t.minute, 2);
    PadLength(t.second, 2);
    JoinCanonical(Pad(t.year, 4), Pad(t.month, 2), Pad(t.day, 2), Pad(t.hour, 2), Pad(t.minute, 2), Pad(t.second, 2));
  }

  /** Joining digit groups of widths 4, 2, 2, 2, 2, 2 gives the layout's shape, each group in its place. */
  lemma JoinCanonical(year: string, month: string, day: string, hour: string, minute: string, second: string)
    requires |year| == 4 && |month| == 2 && |day| == 2 && |hour| == 2 && |minute| == 2 && |second| == 2
    requires AllDigits(year) && AllDigits(month) && AllDigits(day)
    requires AllDigits(hour) && AllDigits(minute) && AllDigits(second)
    ensures var s := Join(year, month, day, hour, minute, second);
      && Canonical(s)
      && s[0..4] == year && s[5..7] == month && s[8..10] == day
      && s[11..13] == hour && s[14..16] == minute && s[17..19] == second
  {
    var s := Join(year, month, day, hour, minute, second);
    var p1 := year + "-";
    var p2 := p1 + month + "-";
    var p3 := p2 + day + " ";
    var p4 := p3 + hour + ":";
    var p5 := p4 + minute + ":";
    assert s == p5 + second;
    SliceOfConcat([], year, s[4..]);
    SliceOfConcat(p1, month, s[7..]);
    SliceOfConcat(p2, day, s[10..]);
    SliceOfConcat(p3, hour, s[13..]);
    SliceOfConcat(p4, minute, s[16..]);
    SliceOfConcat(p5, second, []);
  }

  lemma SliceOfConcat(a: string, b: string, c: string)
    ensures (a + b + c)[|a|..|a| + |b|] == b
  {
  }

  lemma TwoDigits(s: string)
    requires |s| == 2 && AllDigits(s)
    ensures Value(s) == DigitValue(s[0]) * 10 + DigitValue(s[1])
  {
    assert s[..1][..0] == [];
    assert s[..2 - 1] == s[..1] && s[..1][0] == s[0];
    assert Value(s[..1]) == DigitValue(s[0]);
  }

  /** The clock a canonical string denotes, when its fields are in range. */
  function CanonicalClock(s: string): Clock
    requires Canonical(s)
  {
    Clock(Value(s[0..4]), Value(s[5..7]), Value(s[8..10]),
          Value(s[11..13]), Value(s[14..16]), Value(s[17..19]), 0, UTC)
  }

  /** The fields of a canonical text, with `tail` after the seconds. */
  function CanonicalFields(s: string, tail: string): Fields
    requires Canonical(s)
  {
    Fields(Value(s[0..4]), Value(s[5..7]), Value(s[8..10]),
           Value(s[11..13]), Value(s[14..16]), Value(s[17..19]), tail)
  }

  /** Two digits at offset `k` of `v` are read as one field, whether or not the layout demands two. */
  lemma GetNumAt(v: string, k: nat, a: string, fixed: bool)
    requires k + 2 <= |v| && |a| == 2 && AllDigits(a)
    requires v[k] == a[0] && v[k + 1] == a[1]
    ensures GetNum(v[k..], fixed) == Some((Value(a), v[k + 2..]))
  {
    TwoDigits(a);
    assert v[k..][2..] == v[k + 2..];
  }

  /** Scanning a canonical text followed by anything reads its six fields and leaves the rest. */
  lemma ScanWithTail(s: string, tail: string)
    requires Canonical(s)
    ensures ScanFields(s + tail) == Some(CanonicalFields(s, tail))
  {
    var v := s + tail;
    assert v[..4] == s[0..4];
    assert v[4..][1..] == v[5..];
    GetNumAt(v, 5, s[5..7], true);
    assert v[7..][1..] == v[8..];
    GetNumAt(v, 8, s[8..10], true);
    assert v[11] == s[11] && v[12] == s[12] && s[11..13][0] == s[11];
    assert DropSpaces(v[10..]) == v[11..] by {
      assert v[10..][1..] == v[11..];
    }
    GetNumAt(v, 11, s[11..13], false);
    assert v[13..][1..] == v[14..];
    GetNumAt(v, 14, s[14..16], true);
    assert v[16..][1..] == v[17..];
    GetNumAt(v, 17, s[17..19], true);
    assert v[19..] == tail;
  }

  /** On the layout's exact shape, parsing succeeds iff the fields are in range. */
  lemma ParseCanonical(s: string)
    requires Canonical(s)
    ensures Parse(s) == (if ValidClock(CanonicalClock(s)) then Some(CanonicalClock(s)) else None)
  {
    ScanWithTail(s, []);
    assert s + [] == s;
  }

  /**
    Round trip from time to text and back: a UTC time with whole seconds
    in years 0 through 9999 survives formatting followed by parsing.
   */
  lemma ParseFormat(t: Time)
    requires t.loc == UTC && t.nanos == 0 && 0 <= t.year <= 9999
    ensures Parse(Format(t)) == Some(t)
  {
    var s := Format(t);
    FormatCanonical(t);
    ParseCanonical(s);
    ValueOfPad(t.year, 4);
    ValueOfPad(t.month, 2);
    ValueOfPad(t.day, 2);
    ValueOfPad(t.hour, 2);
    ValueOfPad(t.minute, 2);
    ValueOfPad(t.second, 2);
    assert CanonicalClock(s) == t;
  }

  /**
    Round trip from text to time and back: a string of the layout's exact
    shape that parses is given back by formatting the parsed time.
   */
  lemma FormatParse(s: string, t: Time)
    requires Canonical(s) && Parse(s) == Some(t)
    ensures Format(t) == s
  {
    ParseCanonical(s);
    assert t == CanonicalClock(s);
    PadOfValue(s[0..4]);
    PadOfValue(s[5..7]);
    PadOfValue(s[8..10]);
    PadOfValue(s[11..13]);
    PadOfValue(s[14..16]);
    PadOfValue(s[17..19]);
    CanonicalPieces(s);
  }

  /** A canonical text is its six digit groups joined by the layout's separators. */
  lemma CanonicalPieces(s: string)
    requires Canonical(s)
    ensures s == Join(s[0..4], s[5..7], s[8..10], s[11..13], s[14..16], s[17..19])
  {
    var date := s[0..4] + "-" + s[5..7] + "-" + s[8..10];
    assert date == s[..10];
    var clock := s[11..13] + ":" + s[14..16] + ":" + s[17..19];
    assert clock == s[11..];
    assert s == s[..10] + " " + s[11..];
  }

  /** Go's zero time renders as "0001-01-01 00:00:00". */
  lemma ZeroTimeText()
    ensures Format(ZeroTime) == "0001-01-01 00:00:00"
  {
    assert DigitChar(0) == '0' && DigitChar(1) == '1';
    assert Pad(0, 1) == "0";
    assert Pad(0, 2) == "00";
    assert Pad(0, 3) == "000";
    assert Pad(1, 2) == "01";
    assert Pad(1, 4) == "0001";
  }

  /**
    The hour ("15") is not zero-padded in the layout, so a canonical string
    with its hour's leading zero dropped parses to the same time, and
    formatting that time does not give the shorter input back.
   */
  lemma LenientHour(s: string)
    requires Canonical(s) && s[11] == '0'
    ensures Parse(s[..11] + s[12..]) == Parse(s)
    ensures Parse(s).Some? ==> Format(Parse(s).value) != s[..11] + s[12..]
  {
    ShortHourFields(s);
    ScanWithTail(s, []);
    assert s + [] == s;
    if Parse(s).Some? {
      FormatParse(s, Parse(s).value);
    }
  }

  lemma ShortHourFields(s: string)
    requires Canonical(s) && s[11] == '0'
    ensures ScanFields(s[..11] + s[12..]) == Some(CanonicalFields(s, []))
  {
    var v := s[..11] + s[12..];
    assert v[..4] == s[0..4];
    assert v[4..][1..] == v[5..];
    GetNumAt(v, 5, s[5..7], true);
    assert v[7..][1..] == v[8..];
    GetNumAt(v, 8, s[8..10], true);
    assert DropSpaces(v[10..]) == v[11..] by {
      assert v[10..][1..] == v[11..];
      assert v[11] == s[12];
    }
    assert GetNum(v[11..], false) == Some((Value(s[11..13]), v[12..])) by {
      TwoDigits(s[11..13]);
      assert v[11] == s[12] && v[12] == ':';
    }
    assert v[12..][1..] == v[13..];
    GetNumAt(v, 13, s[14..16], true);
    assert v[15..][1..] == v[16..];
    GetNumAt(v, 16, s[17..19], true);
    assert v[18..] == [];
  }

  /**
    A fraction after the seconds is accepted although the layout has none:
    one digit d becomes d tenths of a second, which formatting then drops.
   */
  lemma LenientFraction(s: string, d: char)
    requires Canonical(s) && IsDigit(d)
    ensures Parse(s + ['.', d]) == (if ValidClock(CanonicalClock(s))
      then Some(CanonicalClock(s).(nanos := DigitValue(d) * 100_000_000)) else None)
    ensures Parse(s).Some? ==> Parse(s + ['.', d]).Some? && Format(Parse(s + ['.', d]).value) == s
  {
    ScanWithTail(s, ['.', d]);
    ParseCanonical(s);
    OneDigitFraction(d);
    if Parse(s).Some? {
      FormatParse(s, Parse(s).value);
    }
  }

  /** ".d" is d tenths of a second, with nothing left over. */
  lemma OneDigitFraction(d: char)
    requires IsDigit(d)
    ensures Fraction(['.', d]) == (DigitValue(d) * 100_000_000, [])
  {
    assert DigitRun(['.', d], 1) == 1;
    assert ['.', d][1..2] == [d];
    assert Value([d]) == DigitValue(d) by {
      assert [d][..0] == [];
    }
    assert Pow10(8) == 100_000_000;
    assert ['.', d][2..] == [];
  }
}
