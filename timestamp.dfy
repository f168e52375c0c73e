/**
 * Timestamp handling of the agent: Go's `time.Parse` for the two layouts the
 * agent accepts, the rendering `Format("2006-01-02 15:04:05")` sends to Matomo,
 * and the hour, minute and second strings `Format("15")`, `Format("04")` and
 * `Format("05")` produce.
 *
 * The layouts are read the way Go's `time.Parse` reads them: a day, minute or
 * second field is exactly two digits, an hour one or two, a year four; a
 * month name matches in any ASCII case; a space in the layout matches one or
 * more spaces; a fractional second the layout does not mention is accepted
 * and dropped; a numeric zone is a sign and four digits with hours at most 24
 * and minutes at most 60; nothing may follow the layout; and the day must
 * exist in that month of that year. The parsed clock keeps the wall-clock
 * fields of the input: no zone conversion is applied.
 *
 * The readers work on positions of the whole input, so each returns the
 * position where it stopped.
 */
module Timestamp {
  import opened Wrappers
  import opened Strings

  /** The wall-clock fields of a parsed `time.Time`. */
  datatype Clock = Clock(year: nat, month: nat, day: nat, hour: nat, minute: nat, second: nat)

  /** A number read from the input and the position just after it. */
  datatype Read = Read(value: nat, end: nat)

  /** The date part of a layout read from the input, and where it stopped. */
  datatype Date = Date(year: nat, month: nat, day: nat, end: nat)

  /** The "15:04:05" part of a layout read from the input, and where it stopped. */
  datatype TimeOfDay = TimeOfDay(hour: nat, minute: nat, second: nat, end: nat)

  /** The two layouts of `timeFormats`, in the order they are tried. */
  datatype Layout =
    | Bracketed  // "02/Jan/2006:15:04:05 -0700"
    | Utc        // "2006-01-02 15:04:05 UTC"

  const TimeFormats: seq<Layout> := [Bracketed, Utc]

  /** A three-letter month abbreviation. */
  type Abbrev = s: string | |s| == 3 witness "Jan"

  const ShortMonthNames: seq<Abbrev> :=
    ["Jan", "Feb", "Mar", "Apr", "May", "Jun", "Jul", "Aug", "Sep", "Oct", "Nov", "Dec"]

  predicate IsLeap(year: nat) {
    year % 4 == 0 && (year % 100 != 0 || year % 400 == 0)
  }

  /** Go's daysIn. */
  function DaysIn(month: nat, year: nat): (n: nat)
    requires 1 <= month <= 12
    ensures 28 <= n <= 31
  {
    if month == 2 then (if IsLeap(year) then 29 else 28)
    else if month == 4 || month == 6 || month == 9 || month == 11 then 30
    else 31
  }

  /** A clock `time.Parse` can return for these layouts. */
  predicate Valid(c: Clock) {
    c.year < 10000 && 1 <= c.month <= 12 && 1 <= c.day <= DaysIn(c.month, c.year)
    && c.hour < 24 && c.minute < 60 && c.second < 60
  }

  /** Every field fits its digits. */
  predicate Bounded(c: Clock) {
    c.year < 10000 && 1 <= c.month <= 12 && c.day < 100 && c.hour < 100 && c.minute < 100 && c.second < 100
  }

  predicate IsLetter(c: char) {
    'a' <= c <= 'z' || 'A' <= c <= 'Z'
  }

  /** No ASCII letter in `s[i..j]`. */
  predicate Plain(s: string, i: nat, j: nat) {
    i <= j <= |s| && forall k :: i <= k < j ==> !IsLetter(s[k])
  }

  /** Adjacent letter-free stretches make one. */
  lemma PlainJoin(s: string, i: nat, j: nat, k: nat)
    requires Plain(s, i, j) && Plain(s, j, k)
    ensures Plain(s, i, k)
  {
  }

  /** A letter-free stretch extends over a character that is no letter. */
  lemma PlainStep(s: string, i: nat, j: nat)
    requires Plain(s, i, j) && j < |s| && !IsLetter(s[j])
    ensures Plain(s, i, j + 1)
  {
  }

  function DigitValue(c: char): nat
    requires IsDigit(c)
  {
    c as int - '0' as int
  }

  function DigitChar(n: nat): (c: char)
    requires n < 10
    ensures IsDigit(c) && DigitValue(c) == n
  {
    ('0' as int + n) as char
  }

  // ---------------------------------------------------------------- readers

  /** Go's getnum: one or two leading digits, exactly two when `fixed`. */
  function GetNum(s: string, i: nat, fixed: bool): (r: Option<Read>)
    ensures r.Some? ==> i < r.value.end <= i + 2 && Plain(s, i, r.value.end) && r.value.value < 100
    ensures r.Some? && fixed ==> r.value.end == i + 2
  {
    if i >= |s| || !IsDigit(s[i]) then None
    else if i + 1 >= |s| || !IsDigit(s[i + 1]) then
      (if fixed then None else Some(Read(DigitValue(s[i]), i + 1)))
    else Some(Read(10 * DigitValue(s[i]) + DigitValue(s[i + 1]), i + 2))
  }

  /** The four-digit year of layout element "2006". */
  function GetYear(s: string, i: nat): (r: Option<Read>)
    ensures r.Some? ==> r.value.end == i + 4 && Plain(s, i, r.value.end) && r.value.value < 10000
  {
    if i + 4 <= |s| && IsDigit(s[i]) && IsDigit(s[i + 1]) && IsDigit(s[i + 2]) && IsDigit(s[i + 3]) then
      Some(Read(1000 * DigitValue(s[i]) + 100 * DigitValue(s[i + 1])
                + 10 * DigitValue(s[i + 2]) + DigitValue(s[i + 3]), i + 4))
    else None
  }

  /** One literal character of the layout. */
  function Lit(s: string, i: nat, c: char): (r: Option<nat>)
    ensures r.Some? <==> i < |s| && s[i] == c
    ensures r.Some? ==> r.value == i + 1
  {
    if i < |s| && s[i] == c then Some(i + 1) else None
  }

  /** Literal layout text. */
  function Text(s: string, i: nat, t: string): (r: Option<nat>)
    ensures r.Some? <==> At(s, i, t)
    ensures r.Some? ==> r.value == i + |t|
  {
    if At(s, i, t) then Some(i + |t|) else None
  }

  function SkipSpaces(s: string, i: nat): (j: nat)
    requires i <= |s|
    decreases |s| - i
    ensures i <= j <= |s| && (j == |s| || s[j] != ' ')
    ensures forall k :: i <= k < j ==> s[k] == ' '
  {
    if i < |s| && s[i] == ' ' then SkipSpaces(s, i + 1) else i
  }

  /** A space of the layout: the input must continue with a space (or have
    * ended), and all its leading spaces are skipped. */
  function Blank(s: string, i: nat): (r: Option<nat>)
    requires i <= |s|
    ensures r.Some? ==> i <= r.value && Plain(s, i, r.value) && (r.value == |s| || s[r.value] != ' ')
    ensures r.Some? ==> forall k :: i <= k < r.value ==> s[k] == ' '
    ensures r.Some? && i < |s| ==> i < r.value
    ensures r.None? <==> i < |s| && s[i] != ' '
  {
    if i < |s| && s[i] != ' ' then None else Some(SkipSpaces(s, i))
  }

  /** A single space followed by something else is skipped in one step. */
  lemma BlankOne(s: string, i: nat)
    requires i + 1 < |s| && s[i] == ' ' && s[i + 1] != ' '
    ensures Blank(s, i) == Some(i + 1)
  {
    assert SkipSpaces(s, i + 1) == i + 1;
  }

  function SkipDigits(s: string, i: nat): (j: nat)
    requires i <= |s|
    decreases |s| - i
    ensures i <= j <= |s| && (j == |s| || !IsDigit(s[j]))
    ensures forall k :: i <= k < j ==> IsDigit(s[k])
  {
    if i < |s| && IsDigit(s[i]) then SkipDigits(s, i + 1) else i
  }

  /** A fractional second after the seconds field: a '.' or ',' and digits,
    * consumed and dropped; anything else is left alone. */
  function Fraction(s: string, i: nat): (j: nat)
    requires i <= |s|
    ensures Plain(s, i, j)
    ensures j == i <==> !(i + 2 <= |s| && (s[i] == '.' || s[i] == ',') && IsDigit(s[i + 1]))
  {
    if i + 2 <= |s| && (s[i] == '.' || s[i] == ',') && IsDigit(s[i + 1]) then SkipDigits(s, i + 2)
    else i
  }

  /** The numeric zone "-0700": a sign, two hour digits (at most 24) and two
    * minute digits (at most 60). */
  function Zone(s: string, i: nat): (r: Option<nat>)
    ensures r.Some? ==> r.value == i + 5 && Plain(s, i, r.value)
  {
    if i + 5 > |s| then None
    else
      var hh :- GetNum(s, i + 1, true);
      var mm :- GetNum(s, i + 3, true);
      if hh.value > 24 || mm.value > 60 then None
      else if s[i] != '+' && s[i] != '-' then None
      else Some(i + 5)
  }

  /** A month name matched without regard to ASCII case (Go's `match`). */
  predicate NameAt(s: string, i: nat, name: Abbrev) {
    i + 3 <= |s|
    && LowerChar(s[i]) == LowerChar(name[0])
    && LowerChar(s[i + 1]) == LowerChar(name[1])
    && LowerChar(s[i + 2]) == LowerChar(name[2])
  }

  /** Go's lookup over the month-name table from entry `k` on: the first entry that matches. */
  function LookupMonth(s: string, i: nat, k: nat): (r: Option<Read>)
    requires k <= 12
    decreases 12 - k
    ensures r.Some? ==> k < r.value.value <= 12 && r.value.end == i + 3
                        && NameAt(s, i, ShortMonthNames[r.value.value - 1])
    ensures r.Some? ==> forall j :: k <= j < r.value.value - 1 ==> !NameAt(s, i, ShortMonthNames[j])
    ensures r.None? ==> forall j :: k <= j < 12 ==> !NameAt(s, i, ShortMonthNames[j])
  {
    if k == 12 then None
    else if NameAt(s, i, ShortMonthNames[k]) then Some(Read(k + 1, i + 3))
    else LookupMonth(s, i, k + 1)
  }

  /** The "15:04:05" part both layouts share: a one- or two-digit hour below
    * 24, two-digit minutes and seconds below 60, and a dropped fraction. */
  function ReadClock(s: string, i: nat): (r: Option<TimeOfDay>)
    ensures r.Some? ==> Plain(s, i, r.value.end)
    ensures r.Some? ==> r.value.hour < 24 && r.value.minute < 60 && r.value.second < 60
  {
    var h :- GetNum(s, i, false);
    if h.value >= 24 then None
    else
      var i1 :- Lit(s, h.end, ':');
      var mi :- GetNum(s, i1, true);
      if mi.value >= 60 then None
      else
        var i2 :- Lit(s, mi.end, ':');
        var se :- GetNum(s, i2, true);
        if se.value >= 60 then None
        else Some(TimeOfDay(h.value, mi.value, se.value, Fraction(s, se.end)))
  }

  // ---------------------------------------------------------------- layouts

  /** The "02/Jan/2006:" part of the bracketed layout. */
  function BracketedDate(s: string): (r: Option<Date>)
    ensures r.Some? ==> r.value.end == 12 && 1 <= r.value.month <= 12 && r.value.year < 10000
    ensures r.Some? ==> Plain(s, 0, 3) && Plain(s, 6, 12) && LookupMonth(s, 3, 0).Some?
  {
    var d :- GetNum(s, 0, true);
    var i1 :- Lit(s, d.end, '/');
    var m :- LookupMonth(s, i1, 0);
    var i2 :- Lit(s, m.end, '/');
    var y :- GetYear(s, i2);
    var i3 :- Lit(s, y.end, ':');
    PlainStep(s, 0, 2);
    PlainStep(s, 6, 6);
    PlainJoin(s, 6, 7, 11);
    PlainStep(s, 6, 11);
    Some(Date(y.value, m.value, d.value, i3))
  }

  /** The "2006-01-02 " part of the UTC layout. */
  function UtcDate(s: string): (r: Option<Date>)
    ensures r.Some? ==> 1 <= r.value.month <= 12 && r.value.year < 10000 && r.value.end <= |s|
  {
    var y :- GetYear(s, 0);
    var i1 :- Lit(s, y.end, '-');
    var mo :- GetNum(s, i1, true);
    if !(1 <= mo.value <= 12) then None
    else
      var i2 :- Lit(s, mo.end, '-');
      var d :- GetNum(s, i2, true);
      var i3 :- Blank(s, d.end);
      Some(Date(y.value, mo.value, d.value, i3))
  }

  /** time.Parse("02/Jan/2006:15:04:05 -0700", s). */
  function ParseBracketed(s: string): (r: Option<Clock>)
    ensures r.Some? ==> Valid(r.value)
    ensures r.Some? ==> 6 <= |s| && Plain(s, 0, 3) && Plain(s, 6, |s|) && LookupMonth(s, 3, 0).Some?
  {
    var d :- BracketedDate(s);
    var t :- ReadClock(s, d.end);
    var i1 :- Blank(s, t.end);
    var i2 :- Zone(s, i1);
    if i2 != |s| then None
    else if !(1 <= d.day <= DaysIn(d.month, d.year)) then None
    else
      PlainJoin(s, 6, 12, t.end);
      PlainJoin(s, 6, t.end, i1);
      PlainJoin(s, 6, i1, i2);
      Some(Clock(d.year, d.month, d.day, t.hour, t.minute, t.second))
  }

  /** time.Parse("2006-01-02 15:04:05 UTC", s). */
  function ParseUtc(s: string): (r: Option<Clock>)
    ensures r.Some? ==> Valid(r.value)
    ensures r.Some? ==> At(s, |s| - 3, "UTC")
  {
    var d :- UtcDate(s);
    var t :- ReadClock(s, d.end);
    var i1 :- Blank(s, t.end);
    var i2 :- Text(s, i1, "UTC");
    if i2 != |s| then None
    else if !(1 <= d.day <= DaysIn(d.month, d.year)) then None
    else Some(Clock(d.year, d.month, d.day, t.hour, t.minute, t.second))
  }

  function ParseWith(layout: Layout, s: string): (r: Option<Clock>)
    ensures r.Some? ==> Valid(r.value)
  {
    match layout
    case Bracketed => ParseBracketed(s)
    case Utc => ParseUtc(s)
  }

  /** What each layout, in order, reads from `s`. */
  function Attempts(layouts: seq<Layout>, s: string): (rs: seq<Option<Clock>>)
    ensures |rs| == |layouts|
    ensures forall r :: r in rs && r.Some? ==> Valid(r.value)
  {
    seq(|layouts|, j requires 0 <= j < |layouts| => ParseWith(layouts[j], s))
  }

  /** The first clock among the attempts from index `i` on. */
  function FirstParse(rs: seq<Option<Clock>>, i: nat): (r: Option<Clock>)
    requires i <= |rs|
    ensures r.Some? ==> r in rs
    decreases |rs| - i
  {
    if i == |rs| then None
    else
      match rs[i]
      case Some(c) => Some(c)
      case None => FirstParse(rs, i + 1)
  }

  /** When attempt `k` succeeds and none before it does, the result is its clock. */
  lemma {:induction false} FirstParseFound(rs: seq<Option<Clock>>, i: nat, k: nat)
    requires i <= k < |rs| && rs[k].Some?
    requires forall j :: i <= j < k ==> rs[j].None?
    ensures FirstParse(rs, i) == rs[k]
    decreases k - i
  {
    if i < k {
      FirstParseFound(rs, i + 1, k);
    }
  }

  /** When no attempt succeeds, the result is None. */
  lemma {:induction false} FirstParseNone(rs: seq<Option<Clock>>, i: nat)
    requires i <= |rs|
    requires forall j :: i <= j < |rs| ==> rs[j].None?
    ensures FirstParse(rs, i).None?
    decreases |rs| - i
  {
    if i < |rs| {
      FirstParseNone(rs, i + 1);
    }
  }

  /** Two attempts: the first if it succeeds, else the second. */
  lemma FirstOfTwo(a: Option<Clock>, b: Option<Clock>)
    ensures FirstParse([a, b], 0) == if a.Some? then a else b
  {
    var rs := [a, b];
    assert FirstParse(rs, 2).None?;
    assert FirstParse(rs, 1) == b;
  }

  // ---------------------------------------------------------------- rendering

  function Pad2(n: nat): (r: string)
    requires n < 100
    ensures |r| == 2
  {
    [DigitChar(n / 10), DigitChar(n % 10)]
  }

  function Pad4(n: nat): (r: string)
    requires n < 10000
    ensures |r| == 4
  {
    Pad2(n / 100) + Pad2(n % 100)
  }

  /** The date as layout "2006-01-02" writes it. */
  function DateText(c: Clock): (t: string)
    requires Bounded(c)
    ensures |t| == 10
  {
    Pad4(c.year) + "-" + Pad2(c.month) + "-" + Pad2(c.day)
  }

  /** The time of day as layout "15:04:05" writes it. */
  function ClockText(c: Clock): (t: string)
    requires Bounded(c)
    ensures |t| == 8
  {
    Pad2(c.hour) + ":" + Pad2(c.minute) + ":" + Pad2(c.second)
  }

  /** Format("2006-01-02 15:04:05"): the "YYYY-MM-DD HH:MM:SS" text sent as `cdt`. */
  function Wire(c: Clock): (w: string)
    requires Bounded(c)
    ensures |w| == 19
  {
    DateText(c) + " " + ClockText(c)
  }

  /** formatTimestamp: the UTC layout when the input mentions "UTC", the
    * bracketed one otherwise; "" and failure when that layout rejects it. */
  function FormatTimestamp(timestamp: string): (r: (string, bool))
    ensures !r.1 ==> r.0 == ""
    ensures r.1 ==> |r.0| == 19
  {
    var parsed := if Contains(timestamp, "UTC") then ParseUtc(timestamp) else ParseBracketed(timestamp);
    match parsed
    case None => ("", false)
    case Some(c) => (Wire(c), true)
  }

  /** parseTimestamp: try the layouts in order, stop at the first that
    * accepts, and return its hour, minute and second as two-digit strings;
    * three empty strings and failure when none accepts. */
  method ParseTimestamp(timestamp: string) returns (hour: string, minute: string, second: string, ok: bool)
    ensures ok <==> FirstParse(Attempts(TimeFormats, timestamp), 0).Some?
    ensures ok ==> var c := FirstParse(Attempts(TimeFormats, timestamp), 0).value;
                   hour == Pad2(c.hour) && minute == Pad2(c.minute) && second == Pad2(c.second)
    ensures !ok ==> hour == "" && minute == "" && second == ""
  {
    var formats := TimeFormats;
    var parsed: Option<Clock> := None;
    ghost var rs := Attempts(formats, timestamp);
    var i := 0;
    while i < |formats|
      invariant 0 <= i <= |formats|
      invariant parsed.None?
      invariant FirstParse(rs, 0) == FirstParse(rs, i)
    {
      parsed := ParseWith(formats[i], timestamp);
      if parsed.Some? {
        break;
      }
      i := i + 1;
    }
    if parsed.None? {
      return "", "", "", false;
    }
    var c := parsed.value;
    return Pad2(c.hour), Pad2(c.minute), Pad2(c.second), true;
  }

  // ---------------------------------------------------------------- properties

  /** No month name is "UTC" in any case: none starts with a 'U'. */
  lemma UtcIsNoMonth(s: string, i: nat)
    requires At(s, i, "UTC")
    ensures LookupMonth(s, i, 0).None?
  {
    AtChars(s, i, "UTC");
    forall j | 0 <= j < 12
      ensures !NameAt(s, i, ShortMonthNames[j])
    {
      assert LowerChar(s[i]) == 'u';
      assert ShortMonthNames[j][0] in "JFMASOND";
    }
  }

  /** An input the bracketed layout accepts never mentions "UTC": its only
    * letters are the month name, and no month is called "UTC". */
  lemma BracketedExcludesUtc(s: string)
    ensures ParseBracketed(s).Some? ==> !Contains(s, "UTC")
  {
    if ParseBracketed(s).Some? {
      forall i | At(s, i, "UTC")
        ensures false
      {
        AtChars(s, i, "UTC");
        assert IsLetter(s[i]) && IsLetter(s[i + 2]);
        assert i == 3;
        UtcIsNoMonth(s, 3);
      }
    }
  }

  /** An input the UTC layout accepts ends in "UTC". */
  lemma UtcMentionsUtc(s: string)
    ensures ParseUtc(s).Some? ==> Contains(s, "UTC")
  {
  }

  /** At most one of the two layouts accepts a given input, so trying them in
    * order and choosing by the text "UTC" agree. */
  lemma LayoutsExclusive(s: string)
    ensures ParseBracketed(s).None? || ParseUtc(s).None?
  {
    BracketedExcludesUtc(s);
    UtcMentionsUtc(s);
  }

  /** formatTimestamp and parseTimestamp accept the same inputs and read the
    * same clock from them. */
  lemma FormatAgreesWithParse(s: string)
    ensures FormatTimestamp(s).1 <==> FirstParse(Attempts(TimeFormats, s), 0).Some?
    ensures FormatTimestamp(s).1 ==> FormatTimestamp(s).0 == Wire(FirstParse(Attempts(TimeFormats, s), 0).value)
  {
    BracketedExcludesUtc(s);
    UtcMentionsUtc(s);
    var rs := Attempts(TimeFormats, s);
    assert rs == [ParseBracketed(s), ParseUtc(s)] by {
      assert rs[0] == ParseWith(Bracketed, s);
      assert rs[1] == ParseWith(Utc, s);
    }
    FirstOfTwo(ParseBracketed(s), ParseUtc(s));
  }

  /** The table entry spelled by three lower-case letters, or 12 when none is. */
  function MonthIndexOf(x: char, y: char, z: char): (k: nat)
    ensures k <= 12
  {
    if x == 'j' && y == 'a' && z == 'n' then 0
    else if x == 'f' && y == 'e' && z == 'b' then 1
    else if x == 'm' && y == 'a' && z == 'r' then 2
    else if x == 'a' && y == 'p' && z == 'r' then 3
    else if x == 'm' && y == 'a' && z == 'y' then 4
    else if x == 'j' && y == 'u' && z == 'n' then 5
    else if x == 'j' && y == 'u' && z == 'l' then 6
    else if x == 'a' && y == 'u' && z == 'g' then 7
    else if x == 's' && y == 'e' && z == 'p' then 8
    else if x == 'o' && y == 'c' && z == 't' then 9
    else if x == 'n' && y == 'o' && z == 'v' then 10
    else if x == 'd' && y == 'e' && z == 'c' then 11
    else 12
  }

  lemma MonthIndexOfName(k: nat)
    requires k < 12
    ensures var n := ShortMonthNames[k];
            MonthIndexOf(LowerChar(n[0]), LowerChar(n[1]), LowerChar(n[2])) == k
  {
    if k == 0 {} else if k == 1 {} else if k == 2 {} else if k == 3 {}
    else if k == 4 {} else if k == 5 {} else if k == 6 {} else if k == 7 {}
    else if k == 8 {} else if k == 9 {} else if k == 10 {} else {}
  }

  /** The month names differ even when case is ignored, so the lookup finds
    * the month whose name is written. */
  lemma LookupName(s: string, i: nat, m: nat)
    requires 1 <= m <= 12 && NameAt(s, i, ShortMonthNames[m - 1])
    ensures LookupMonth(s, i, 0) == Some(Read(m, i + 3))
  {
    var r := LookupMonth(s, i, 0);
    assert r.Some?;
    var v := r.value.value;
    MonthIndexOfName(v - 1);
    MonthIndexOfName(m - 1);
  }

  lemma GetNumOf(s: string, i: nat, n: nat, fixed: bool)
    requires n < 100 && i + 2 <= |s| && s[i] == Pad2(n)[0] && s[i + 1] == Pad2(n)[1]
    ensures GetNum(s, i, fixed) == Some(Read(n, i + 2))
  {
  }

  lemma GetYearOf(s: string, i: nat, n: nat)
    requires n < 10000 && i + 4 <= |s|
    requires s[i] == Pad4(n)[0] && s[i + 1] == Pad4(n)[1] && s[i + 2] == Pad4(n)[2] && s[i + 3] == Pad4(n)[3]
    ensures GetYear(s, i) == Some(Read(n, i + 4))
  {
    assert n / 100 == 10 * (n / 100 / 10) + n / 100 % 10;
    assert n % 100 == 10 * (n % 100 / 10) + n % 100 % 10;
    assert n == 100 * (n / 100) + n % 100;
  }

  /** Reading "HH:MM:SS" followed by a space. */
  lemma ReadClockOf(s: string, i: nat, c: Clock)
    requires Valid(c) && i + 9 <= |s| && s[i..i + 8] == ClockText(c) && s[i + 8] == ' '
    ensures ReadClock(s, i) == Some(TimeOfDay(c.hour, c.minute, c.second, i + 8))
  {
    var t := s[i..i + 8];
    var h, mi, se := Pad2(c.hour), Pad2(c.minute), Pad2(c.second);
    assert s[i] == t[0] == h[0] && s[i + 1] == t[1] == h[1];
    assert s[i + 2] == t[2] == ':';
    assert s[i + 3] == t[3] == mi[0] && s[i + 4] == t[4] == mi[1];
    assert s[i + 5] == t[5] == ':';
    assert s[i + 6] == t[6] == se[0] && s[i + 7] == t[7] == se[1];
    GetNumOf(s, i, c.hour, false);
    GetNumOf(s, i + 3, c.minute, true);
    GetNumOf(s, i + 6, c.second, true);
  }

  /** The date part "DD/Mon/YYYY:" of the bracketed layout. */
  function BracketedDateText(c: Clock): (t: string)
    requires Bounded(c)
    ensures |t| == 12
  {
    Pad2(c.day) + "/" + ShortMonthNames[c.month - 1] + "/" + Pad4(c.year) + ":"
  }

  /** A numeric zone "+hhmm" or "-hhmm". */
  function ZoneText(sign: char, zh: nat, zm: nat): (t: string)
    requires zh < 100 && zm < 100
    ensures |t| == 5
  {
    [sign] + Pad2(zh) + Pad2(zm)
  }

  /** A timestamp in the bracketed layout, as a web server writes it:
    * "DD/Mon/YYYY:HH:MM:SS +hhmm". */
  function RenderBracketed(c: Clock, sign: char, zh: nat, zm: nat): (s: string)
    requires Bounded(c) && (sign == '+' || sign == '-') && zh <= 24 && zm <= 60
    ensures |s| == 26
  {
    BracketedDateText(c) + ClockText(c) + " " + ZoneText(sign, zh, zm)
  }

  /** A timestamp in the UTC layout: the wire text and " UTC". */
  function RenderUtc(c: Clock): (s: string)
    requires Bounded(c)
    ensures |s| == 23
  {
    Wire(c) + " UTC"
  }

  /** The characters of "DD/Mon/YYYY:". */
  lemma BracketedDateChars(c: Clock)
    requires Bounded(c)
    ensures var t, d, name, y := BracketedDateText(c), Pad2(c.day), ShortMonthNames[c.month - 1], Pad4(c.year);
            t[0] == d[0] && t[1] == d[1] && t[2] == '/' && t[3] == name[0] && t[4] == name[1] && t[5] == name[2]
            && t[6] == '/' && t[7] == y[0] && t[8] == y[1] && t[9] == y[2] && t[10] == y[3] && t[11] == ':'
  {
  }

  lemma BracketedDateOf(s: string, c: Clock)
    requires Bounded(c) && |s| >= 12 && s[..12] == BracketedDateText(c)
    ensures BracketedDate(s) == Some(Date(c.year, c.month, c.day, 12))
  {
    var t := s[..12];
    BracketedDateChars(c);
    assert forall k :: 0 <= k < 12 ==> s[k] == t[k];
    GetNumOf(s, 0, c.day, true);
    LookupName(s, 3, c.month);
    GetYearOf(s, 7, c.year);
    BracketedDateParts(s, c.day, c.month, c.year);
  }

  /** The bracketed date once its day, month and year have been read. */
  lemma BracketedDateParts(s: string, day: nat, month: nat, year: nat)
    requires |s| >= 12 && s[2] == '/' && s[6] == '/' && s[11] == ':'
    requires GetNum(s, 0, true) == Some(Read(day, 2)) && LookupMonth(s, 3, 0) == Some(Read(month, 6))
    requires GetYear(s, 7) == Some(Read(year, 11))
    ensures BracketedDate(s) == Some(Date(year, month, day, 12))
  {
    assert Lit(s, 2, '/') == Some(3);
    assert Lit(s, 6, '/') == Some(7);
    assert Lit(s, 11, ':') == Some(12);
  }

  lemma ZoneOf(s: string, i: nat, sign: char, zh: nat, zm: nat)
    requires (sign == '+' || sign == '-') && zh <= 24 && zm <= 60
    requires i + 5 <= |s| && s[i..i + 5] == ZoneText(sign, zh, zm)
    ensures Zone(s, i) == Some(i + 5) && s[i] == sign
  {
    var t := s[i..i + 5];
    assert t == [sign] + Pad2(zh) + Pad2(zm);
    assert s[i] == t[0] == sign;
    assert s[i + 1] == t[1] == Pad2(zh)[0] && s[i + 2] == t[2] == Pad2(zh)[1];
    assert s[i + 3] == t[3] == Pad2(zm)[0] && s[i + 4] == t[4] == Pad2(zm)[1];
    GetNumOf(s, i + 1, zh, true);
    GetNumOf(s, i + 3, zm, true);
  }

  /** The bracketed layout once each of its parts has been read. */
  lemma ParseBracketedParts(s: string, d: Date, t: TimeOfDay)
    requires |s| == 26 && BracketedDate(s) == Some(d) && ReadClock(s, 12) == Some(t) && t.end == 20
    requires Blank(s, 20) == Some(21) && Zone(s, 21) == Some(26) && 1 <= d.day <= DaysIn(d.month, d.year)
    ensures ParseBracketed(s) == Some(Clock(d.year, d.month, d.day, t.hour, t.minute, t.second))
  {
  }

  /** The date and the clock of a bracketed timestamp. */
  lemma BracketedHeadOf(s: string, c: Clock)
    requires Valid(c) && |s| == 26 && s[..12] == BracketedDateText(c) && s[12..20] == ClockText(c) && s[20] == ' '
    ensures BracketedDate(s) == Some(Date(c.year, c.month, c.day, 12))
    ensures ReadClock(s, 12) == Some(TimeOfDay(c.hour, c.minute, c.second, 20))
  {
    BracketedDateOf(s, c);
    ReadClockOf(s, 12, c);
  }

  /** The space and the zone offset of a bracketed timestamp. */
  lemma BracketedZoneOf(s: string, sign: char, zh: nat, zm: nat)
    requires (sign == '+' || sign == '-') && zh <= 24 && zm <= 60
    requires |s| == 26 && s[20] == ' ' && s[21..26] == ZoneText(sign, zh, zm)
    ensures Blank(s, 20) == Some(21) && Zone(s, 21) == Some(26)
  {
    ZoneOf(s, 21, sign, zh, zm);
    BlankOne(s, 20);
  }

  lemma ParseBracketedOf(s: string, c: Clock, sign: char, zh: nat, zm: nat)
    requires Valid(c) && (sign == '+' || sign == '-') && zh <= 24 && zm <= 60
    requires |s| == 26 && s[..12] == BracketedDateText(c) && s[12..20] == ClockText(c) && s[20] == ' '
    requires s[21..26] == ZoneText(sign, zh, zm)
    ensures ParseBracketed(s) == Some(c)
  {
    BracketedHeadOf(s, c);
    BracketedZoneOf(s, sign, zh, zm);
    ParseBracketedParts(s, Date(c.year, c.month, c.day, 12), TimeOfDay(c.hour, c.minute, c.second, 20));
  }

  /** The bracketed layout reads back every clock, whatever its zone offset:
    * the offset is checked but not applied. */
  lemma BracketedRoundTrip(c: Clock, sign: char, zh: nat, zm: nat)
    requires Valid(c) && (sign == '+' || sign == '-') && zh <= 24 && zm <= 60
    ensures ParseBracketed(RenderBracketed(c, sign, zh, zm)) == Some(c)
  {
    var s := RenderBracketed(c, sign, zh, zm);
    assert s[..12] == BracketedDateText(c);
    assert s[12..20] == ClockText(c);
    assert s[20] == ' ';
    assert s[21..26] == ZoneText(sign, zh, zm);
    ParseBracketedOf(s, c, sign, zh, zm);
  }

  lemma UtcDateOf(s: string, c: Clock)
    requires Bounded(c) && |s| >= 12 && s[..10] == DateText(c) && s[10] == ' ' && s[11] != ' '
    ensures UtcDate(s) == Some(Date(c.year, c.month, c.day, 11))
  {
    var t := s[..10];
    var y, mo, d := Pad4(c.year), Pad2(c.month), Pad2(c.day);
    assert s[0] == t[0] == y[0] && s[1] == t[1] == y[1] && s[2] == t[2] == y[2] && s[3] == t[3] == y[3];
    assert s[4] == t[4] == '-';
    assert s[5] == t[5] == mo[0] && s[6] == t[6] == mo[1];
    assert s[7] == t[7] == '-';
    assert s[8] == t[8] == d[0] && s[9] == t[9] == d[1];
    GetYearOf(s, 0, c.year);
    GetNumOf(s, 5, c.month, true);
    GetNumOf(s, 8, c.day, true);
    assert SkipSpaces(s, 11) == 11;
  }

  lemma ParseUtcOf(s: string, c: Clock)
    requires Valid(c) && |s| == 23 && s[..10] == DateText(c) && s[10] == ' '
    requires s[11..19] == ClockText(c) && s[19..] == " UTC"
    ensures ParseUtc(s) == Some(c)
  {
    assert s[11] == s[11..19][0] == Pad2(c.hour)[0];
    UtcDateOf(s, c);
    ReadClockOf(s, 11, c);
    assert s[20] == s[19..][1] == 'U';
    assert s[19] == s[19..][0] == ' ';
    BlankOne(s, 19);
    assert s[20..23] == s[19..][1..] == "UTC";
    AtSlice(s, 20, "UTC");
    ParseUtcParts(s, Date(c.year, c.month, c.day, 11), TimeOfDay(c.hour, c.minute, c.second, 19));
  }

  /** The UTC layout once each of its parts has been read. */
  lemma ParseUtcParts(s: string, d: Date, t: TimeOfDay)
    requires |s| == 23 && UtcDate(s) == Some(d) && d.end == 11 && ReadClock(s, 11) == Some(t) && t.end == 19
    requires Blank(s, 19) == Some(20) && At(s, 20, "UTC") && 1 <= d.day <= DaysIn(d.month, d.year)
    ensures ParseUtc(s) == Some(Clock(d.year, d.month, d.day, t.hour, t.minute, t.second))
  {
  }

  /** The UTC layout reads back every clock. */
  lemma UtcRoundTrip(c: Clock)
    requires Valid(c)
    ensures ParseUtc(RenderUtc(c)) == Some(c)
  {
    var s := RenderUtc(c);
    assert s[..10] == DateText(c);
    assert s[10] == ' ';
    assert s[11..19] == ClockText(c);
    assert s[19..] == " UTC";
    ParseUtcOf(s, c);
  }

  // ---------------------------------------------------------------- examples

  lemma ClockTextExample()
    ensures ClockText(Clock(2024, 10, 10, 13, 55, 36)) == "13:55:36"
  {
    assert Pad2(13) == "13" && Pad2(55) == "55" && Pad2(36) == "36";
  }

  lemma WireExample()
    ensures Wire(Clock(2024, 10, 10, 13, 55, 36)) == "2024-10-10 13:55:36"
  {
    assert Pad4(2024) == "2024" && Pad2(10) == "10";
    assert DateText(Clock(2024, 10, 10, 13, 55, 36)) == "2024-10-10";
    ClockTextExample();
  }

  lemma BracketedDateTextExample()
    ensures BracketedDateText(Clock(2024, 10, 10, 13, 55, 36)) == "10/Oct/2024:"
  {
    assert Pad4(2024) == "2024" && Pad2(10) == "10" && ShortMonthNames[9] == "Oct";
  }

  lemma ZoneTextExample()
    ensures ZoneText('+', 2, 0) == "+0200"
  {
    assert Pad2(2) == "02" && Pad2(0) == "00";
  }

  lemma RenderBracketedExample()
    ensures RenderBracketed(Clock(2024, 10, 10, 13, 55, 36), '+', 2, 0) == "10/Oct/2024:13:55:36 +0200"
  {
    BracketedDateTextExample();
    ClockTextExample();
    ZoneTextExample();
    assert RenderBracketed(Clock(2024, 10, 10, 13, 55, 36), '+', 2, 0) == "10/Oct/2024:" + "13:55:36" + " " + "+0200";
  }

  /** A timestamp with "UTC" is read by the second layout. */
  lemma FormatUtcExample()
    ensures FormatTimestamp("2024-10-10 13:55:36 UTC") == ("2024-10-10 13:55:36", true)
  {
    var c := Clock(2024, 10, 10, 13, 55, 36);
    WireExample();
    assert RenderUtc(c) == "2024-10-10 13:55:36 UTC";
    UtcRoundTrip(c);
    UtcMentionsUtc(RenderUtc(c));
    WireExample();
  }

  /** A web-server timestamp keeps its wall-clock time: the +0200 offset is not applied. */
  lemma FormatBracketedExample()
    ensures FormatTimestamp("10/Oct/2024:13:55:36 +0200") == ("2024-10-10 13:55:36", true)
  {
    var c := Clock(2024, 10, 10, 13, 55, 36);
    RenderBracketedExample();
    BracketedRoundTrip(c, '+', 2, 0);
    BracketedExcludesUtc(RenderBracketed(c, '+', 2, 0));
    WireExample();
  }
}
