/** `LocalDate.parse(text, DateTimeFormatter.ofPattern("yyyy-MM-dd'T'HH:mm:ss.SSSSSS"))`
    with the formatter's default SMART resolver. The pattern is a sequence of
    fixed-width decimal fields and literal characters; the parsed fields are
    then checked against their ranges and combined into a date. */
module LocalDates {
  import opened Wrappers

  datatype Date = Date(year: int, month: int, day: int)

  /** One element of a compiled pattern. */
  datatype Token = Num(width: nat) | Lit(c: char)

  /** `yyyy-MM-dd'T'HH:mm:ss.SSSSSS`: year, month, day, hour, minute,
      second and the six-digit fraction of the second, in that order. */
  const Pattern: seq<Token> :=
    [Num(4), Lit('-'), Num(2), Lit('-'), Num(2), Lit('T'),
     Num(2), Lit(':'), Num(2), Lit(':'), Num(2), Lit('.'), Num(6)]

  predicate IsDigit(c: char) {
    '0' <= c <= '9'
  }

  /** The value of a run of decimal digits. */
  function DigitsValue(s: string): nat
    requires forall i :: 0 <= i < |s| ==> IsDigit(s[i])
  {
    if |s| == 0 then 0
    else DigitsValue(s[..|s| - 1]) * 10 + DigitValue(s[|s| - 1])
  }

  function DigitValue(c: char): (r: nat)
    requires IsDigit(c)
    ensures r < 10
  {
    c as int - '0' as int
  }

  /** The numeric fields of `s` when the whole of `s` fits `p`. */
  function Match(s: string, p: seq<Token>): (r: Option<seq<nat>>)
    ensures r.Some? ==> |r.value| == NumCount(p)
    decreases p
  {
    if |p| == 0 then (if |s| == 0 then Some([]) else None)
    else match p[0]
      case Lit(c) =>
        if |s| > 0 && s[0] == c then Match(s[1..], p[1..]) else None
      case Num(w) =>
        if w <= |s| && forall i :: 0 <= i < w ==> IsDigit(s[i]) then
          match Match(s[w..], p[1..])
          case None => None
          case Some(rest) => Some([DigitsValue(s[..w])] + rest)
        else None
  }

  function NumCount(p: seq<Token>): nat {
    if |p| == 0 then 0 else (if p[0].Num? then 1 else 0) + NumCount(p[1..])
  }

  function Pow10(n: nat): (r: nat)
    ensures r > 0
  {
    if n == 0 then 1 else 10 * Pow10(n - 1)
  }

  /** `n` written with exactly `w` digits, zero-padded. */
  function Pad(n: nat, w: nat): (r: string)
    ensures |r| == w
  {
    if w == 0 then "" else Pad(n / 10, w - 1) + [('0' as int + n % 10) as char]
  }

  /** The text `p` prints for the field values `vals`. */
  function Format(vals: seq<nat>, p: seq<Token>): string
    requires |vals| == NumCount(p)
    decreases p
  {
    if |p| == 0 then ""
    else match p[0]
      case Lit(c) => [c] + Format(vals, p[1..])
      case Num(w) => Pad(vals[0], w) + Format(vals[1..], p[1..])
  }

  /** Every value fits the width of its field. */
  predicate Fits(vals: seq<nat>, p: seq<Token>)
    requires |vals| == NumCount(p)
    decreases p
  {
    |p| == 0 ||
    match p[0]
    case Lit(_) => Fits(vals, p[1..])
    case Num(w) => vals[0] < Pow10(w) && Fits(vals[1..], p[1..])
  }

  /** A padded number reads back as itself. */
  lemma {:induction false} PadDigits(n: nat, w: nat)
    requires n < Pow10(w)
    ensures forall i :: 0 <= i < w ==> IsDigit(Pad(n, w)[i])
    ensures DigitsValue(Pad(n, w)) == n
  {
    if w > 0 {
      PadDigits(n / 10, w - 1);
      var s := Pad(n, w);
      assert s[..w - 1] == Pad(n / 10, w - 1);
    }
  }

  /** Reading a printed text back gives the values that were printed. */
  lemma {:induction false} MatchFormat(vals: seq<nat>, p: seq<Token>)
    requires |vals| == NumCount(p)
    requires Fits(vals, p)
    ensures Match(Format(vals, p), p) == Some(vals)
    decreases p
  {
    if |p| > 0 {
      var s := Format(vals, p);
      match p[0]
      case Lit(c) =>
        MatchFormat(vals, p[1..]);
        assert s[1..] == Format(vals, p[1..]);
      case Num(w) =>
        MatchFormat(vals[1..], p[1..]);
        PadDigits(vals[0], w);
        assert s[..w] == Pad(vals[0], w);
        assert s[w..] == Format(vals[1..], p[1..]);
        assert [vals[0]] + vals[1..] == vals;
    }
  }

  /** `Year.isLeap`. */
  predicate IsLeap(y: int) {
    y % 4 == 0 && (y % 100 != 0 || y % 400 == 0)
  }

  function MonthLength(y: int, m: int): (r: int)
    ensures 28 <= r <= 31
  {
    if m == 2 then (if IsLeap(y) then 29 else 28)
    else if m == 4 || m == 6 || m == 9 || m == 11 then 30
    else 31
  }

  /** A date `LocalDate.of` accepts. */
  predicate Valid(d: Date) {
    1 <= d.year && 1 <= d.month <= 12 && 1 <= d.day <= MonthLength(d.year, d.month)
  }

  /** `plusDays(1)`. */
  function NextDay(d: Date): (r: Date)
    requires Valid(d)
    ensures Valid(r)
  {
    if d.day < MonthLength(d.year, d.month) then Date(d.year, d.month, d.day + 1)
    else if d.month < 12 then Date(d.year, d.month + 1, 1)
    else Date(d.year + 1, 1, 1)
  }

  /** SMART resolution of the parsed fields: each field is checked against
      its range (year-of-era from 1, month 1-12, day 1-31, hour 0-23,
      minute and second 0-59); a day past the end of its month becomes the
      month's last day; 24:00:00.000000 is accepted and moves to the next day. */
  function Resolve(y: nat, mo: nat, d: nat, h: nat, mi: nat, s: nat, f: nat): (r: Result<Date>)
    ensures r.Ok? ==> Valid(r.value)
    ensures r.Err? ==> r.error == DateTimeParseException
  {
    if y < 1 || mo < 1 || mo > 12 || d < 1 || d > 31 || mi > 59 then Err(DateTimeParseException)
    else
      var date := Date(y, mo, if d <= MonthLength(y, mo) then d else MonthLength(y, mo));
      if h == 24 && mi == 0 && s == 0 && f == 0 then Ok(NextDay(date))
      else if h > 23 || s > 59 then Err(DateTimeParseException)
      else Ok(date)
  }

  /** The date that `LocalDate.parse` gives for `text`, or the
      DateTimeParseException it throws. */
  function ParseLocalDate(text: string): (r: Result<Date>)
    ensures r.Ok? ==> Match(text, Pattern).Some? && Valid(r.value)
    ensures r.Err? ==> r.error == DateTimeParseException
  {
    match Match(text, Pattern)
    case None => Err(DateTimeParseException)
    case Some(f) =>
      PatternFields();
      Resolve(f[0], f[1], f[2], f[3], f[4], f[5], f[6])
  }

  lemma PatternFields()
    ensures NumCount(Pattern) == 7
  {
  }

  /** The timestamp text for the given fields, as the dump writes it. */
  function Timestamp(y: nat, mo: nat, d: nat, h: nat, mi: nat, s: nat, f: nat): string {
    Format([y, mo, d, h, mi, s, f], Pattern)
  }

  /** A well-formed timestamp of an existing date and time of day parses to
      the date part of that timestamp. */
  lemma ParseTimestamp(y: nat, mo: nat, d: nat, h: nat, mi: nat, s: nat, f: nat)
    requires Valid(Date(y, mo, d)) && y <= 9999
    requires h <= 23 && mi <= 59 && s <= 59 && f <= 999999
    ensures ParseLocalDate(Timestamp(y, mo, d, h, mi, s, f)) == Ok(Date(y, mo, d))
  {
    ParseTimestampResolves(y, mo, d, h, mi, s, f);
    ResolveValid(y, mo, d, h, mi, s, f);
  }

  lemma ResolveValid(y: nat, mo: nat, d: nat, h: nat, mi: nat, s: nat, f: nat)
    requires Valid(Date(y, mo, d))
    requires h <= 23 && mi <= 59 && s <= 59
    ensures Resolve(y, mo, d, h, mi, s, f) == Ok(Date(y, mo, d))
  {
  }

  /** SMART resolution: a day-of-month up to 31 that is past the end of its
      month gives the month's last day instead of an exception. */
  lemma ParseTimestampClampsDay(y: nat, mo: nat, d: nat, h: nat, mi: nat, s: nat, f: nat)
    requires 1 <= y <= 9999 && 1 <= mo <= 12 && MonthLength(y, mo) < d <= 31
    requires h <= 23 && mi <= 59 && s <= 59 && f <= 999999
    ensures ParseLocalDate(Timestamp(y, mo, d, h, mi, s, f)) == Ok(Date(y, mo, MonthLength(y, mo)))
  {
    ParseTimestampResolves(y, mo, d, h, mi, s, f);
    ResolveClamps(y, mo, d, h, mi, s, f);
  }

  lemma ResolveClamps(y: nat, mo: nat, d: nat, h: nat, mi: nat, s: nat, f: nat)
    requires 1 <= y && 1 <= mo <= 12 && MonthLength(y, mo) < d <= 31
    requires h <= 23 && mi <= 59 && s <= 59
    ensures Resolve(y, mo, d, h, mi, s, f) == Ok(Date(y, mo, MonthLength(y, mo)))
  {
  }

  /** SMART resolution: the end-of-day time 24:00:00.000000 gives the next date. */
  lemma ParseTimestampEndOfDay(y: nat, mo: nat, d: nat)
    requires Valid(Date(y, mo, d)) && y <= 9999
    ensures ParseLocalDate(Timestamp(y, mo, d, 24, 0, 0, 0)) == Ok(NextDay(Date(y, mo, d)))
  {
    ParseTimestampResolves(y, mo, d, 24, 0, 0, 0);
    ResolveEndOfDay(y, mo, d);
  }

  lemma ResolveEndOfDay(y: nat, mo: nat, d: nat)
    requires Valid(Date(y, mo, d))
    ensures Resolve(y, mo, d, 24, 0, 0, 0) == Ok(NextDay(Date(y, mo, d)))
  {
  }

  /** A month outside 1-12 is an exception, not a date. */
  lemma ParseTimestampRejectsMonth(y: nat, mo: nat, d: nat, h: nat, mi: nat, s: nat, f: nat)
    requires y <= 9999 && (mo == 0 || 12 < mo <= 99) && d <= 99
    requires h <= 99 && mi <= 99 && s <= 99 && f <= 999999
    ensures ParseLocalDate(Timestamp(y, mo, d, h, mi, s, f)) == Err(DateTimeParseException)
  {
    ParseTimestampResolves(y, mo, d, h, mi, s, f);
  }

  /** Parsing a printed timestamp amounts to resolving its fields. */
  lemma ParseTimestampResolves(y: nat, mo: nat, d: nat, h: nat, mi: nat, s: nat, f: nat)
    requires y <= 9999 && mo <= 99 && d <= 99 && h <= 99 && mi <= 99 && s <= 99 && f <= 999999
    ensures ParseLocalDate(Timestamp(y, mo, d, h, mi, s, f)) == Resolve(y, mo, d, h, mi, s, f)
  {
    MatchTimestamp(y, mo, d, h, mi, s, f);
    PatternFields();
  }

  /** The pattern reads back every field of a timestamp it printed. */
  lemma MatchTimestamp(y: nat, mo: nat, d: nat, h: nat, mi: nat, s: nat, f: nat)
    requires y <= 9999 && mo <= 99 && d <= 99 && h <= 99 && mi <= 99 && s <= 99 && f <= 999999
    ensures Match(Timestamp(y, mo, d, h, mi, s, f), Pattern) == Some([y, mo, d, h, mi, s, f])
  {
    FitsPattern([y, mo, d, h, mi, s, f]);
    MatchFormat([y, mo, d, h, mi, s, f], Pattern);
  }

  lemma FitsPattern(v: seq<nat>)
    requires |v| == 7
    requires v[0] < 10000 && v[1] < 100 && v[2] < 100 && v[3] < 100 && v[4] < 100 && v[5] < 100 && v[6] < 1000000
    ensures NumCount(Pattern) == 7 && Fits(v, Pattern)
  {
    PatternFields();
    assert Fits(v[6..], Pattern[12..]);
    assert Fits(v[5..], Pattern[10..]);
    assert Fits(v[4..], Pattern[8..]);
    assert Fits(v[3..], Pattern[6..]);
    assert Fits(v[2..], Pattern[4..]);
    assert Fits(v[1..], Pattern[2..]);
  }
}
