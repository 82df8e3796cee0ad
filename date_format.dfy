/** `formatDate` and `formatTime`: a timestamp field shown as `DD/MM/YYYY`
    and as `HH:MM:SS`. Parsing the field (`new Date(...)`, with its time
    zone) is not modelled: its outcome is an input, a `JsDate` that is either
    invalid or carries the local-time fields the getters return. */
module DateFormat {
  import opened Wrappers
  import opened JsRuntime

  /** The value of `new Date(input)`. `month` is 0-based, as `getMonth()`. */
  datatype JsDate =
    | InvalidDate
    | ValidDate(year: int, month: int, day: int, hours: int, minutes: int, seconds: int)

  /** The ranges the getters of a valid date keep to. */
  predicate InCalendar(d: JsDate) {
    d.ValidDate? ==>
      && 1 <= d.day <= 31 && 0 <= d.month <= 11
      && 0 <= d.hours <= 23 && 0 <= d.minutes <= 59 && 0 <= d.seconds <= 59
  }

  // The getters: each yields NaN on an invalid date.
  function GetDate(d: JsDate): JsNumber { if d.ValidDate? then Num(d.day) else NaN }
  function GetMonth(d: JsDate): JsNumber { if d.ValidDate? then Num(d.month) else NaN }
  function GetFullYear(d: JsDate): JsNumber { if d.ValidDate? then Num(d.year) else NaN }
  function GetHours(d: JsDate): JsNumber { if d.ValidDate? then Num(d.hours) else NaN }
  function GetMinutes(d: JsDate): JsNumber { if d.ValidDate? then Num(d.minutes) else NaN }
  function GetSeconds(d: JsDate): JsNumber { if d.ValidDate? then Num(d.seconds) else NaN }

  /** `String(x).padStart(2, '0')`. */
  function TwoDigits(x: JsNumber): (r: string)
    ensures |r| >= 2
    ensures x.Num? && 0 <= x.n < 100 ==> |r| == 2
  {
    PadStart(NumberToString(x), 2, '0')
  }

  /** A number in 0..99 is written as exactly two digits that read back as
      the number; any other number is written unpadded and untruncated, and
      NaN as "NaN". */
  lemma TwoDigitsExact(n: int)
    ensures 0 <= n < 100 ==>
      |TwoDigits(Num(n))| == 2 && AllDigits(TwoDigits(Num(n))) && ParseDecimal(TwoDigits(Num(n))) == n
    ensures n < 0 || 100 <= n ==> TwoDigits(Num(n)) == IntToString(n)
    ensures TwoDigits(NaN) == "NaN"
  {
    var t := TwoDigits(Num(n));
    if 0 <= n < 10 {
      assert t == "0" + NatToDecimal(n);
      assert t[..1] == "0" && t[..1][..0] == [];
      assert ParseDecimal(t[..1]) == 0;
    } else if 10 <= n < 100 {
      ParseNatToDecimal(n);
    } else if n < 0 {
      assert |IntToString(n)| >= 2;
    } else {
      assert NatToDecimal(n) == NatToDecimal(n / 10) + [DigitChar(n % 10)];
    }
  }

  /** `formatDate`: "-" for a falsy input, otherwise day and month padded
      to two digits and the year as it is, joined by '/'. An input that does
      not parse still gets through the falsy check, and `new Date` does not
      throw, so it is shown as "NaN/NaN/NaN" rather than "-". */
  function FormatDate(input: Option<string>, date: JsDate): (text: string)
    ensures text == "-" <==> !Truthy(input)
    ensures Truthy(input) && date.InvalidDate? ==> text == "NaN/NaN/NaN"
    ensures text != ""
  {
    if !Truthy(input) then "-"
    else
      TwoDigits(GetDate(date)) + "/" + TwoDigits(AddInt(GetMonth(date), 1)) + "/" + NumberToString(GetFullYear(date))
  }

  /** `formatTime`: "-" for a falsy input, otherwise hours, minutes and
      seconds, each padded to two digits, joined by ':'. */
  function FormatTime(input: Option<string>, date: JsDate): (text: string)
    ensures text == "-" <==> !Truthy(input)
    ensures Truthy(input) && date.InvalidDate? ==> text == "NaN:NaN:NaN"
    ensures Truthy(input) && InCalendar(date) && date.ValidDate? ==> |text| == 8
    ensures text != ""
  {
    if !Truthy(input) then "-"
    else
      TwoDigits(GetHours(date)) + ":" + TwoDigits(GetMinutes(date)) + ":" + TwoDigits(GetSeconds(date))
  }

  /** Reads `DD/MM/Y...` back into (day, month, year). */
  function ParseDayMonthYear(text: string): Option<(int, int, int)> {
    if |text| >= 7 && text[2] == '/' && text[5] == '/' && AllDigits(text[..2]) && AllDigits(text[3..5])
       && ParseInteger(text[6..]).Some?
    then Some((ParseDecimal(text[..2]) as int, ParseDecimal(text[3..5]) as int, ParseInteger(text[6..]).value))
    else None
  }

  /** Reads `HH:MM:SS` back into (hours, minutes, seconds). */
  function ParseClock(text: string): Option<(int, int, int)> {
    if |text| == 8 && text[2] == ':' && text[5] == ':'
       && AllDigits(text[..2]) && AllDigits(text[3..5]) && AllDigits(text[6..])
    then Some((ParseDecimal(text[..2]) as int, ParseDecimal(text[3..5]) as int, ParseDecimal(text[6..]) as int))
    else None
  }

  /** Reading three fields joined by a separator, each field on its own. */
  lemma ReadJoined(a: string, b: string, c: string, sep: char)
    requires |a| == 2 && |b| == 2
    ensures var text := a + [sep] + b + [sep] + c;
      text[..2] == a && text[2] == sep && text[3..5] == b && text[5] == sep && text[6..] == c
  {
  }

  /** The formatted date of a valid date holds its day, its 1-based month
      and its year, and nothing is lost. The year is written as `String`
      writes it, unpadded: a leading '0' only for the year 0 itself. */
  lemma FormatDateRoundTrip(input: Option<string>, date: JsDate)
    requires Truthy(input) && date.ValidDate? && InCalendar(date)
    ensures ParseDayMonthYear(FormatDate(input, date)) == Some((date.day, date.month + 1, date.year))
    ensures FormatDate(input, date)[6..] == IntToString(date.year)
    ensures FormatDate(input, date)[6] == '0' ==> FormatDate(input, date)[6..] == "0"
  {
    var d, m, y := TwoDigits(Num(date.day)), TwoDigits(Num(date.month + 1)), IntToString(date.year);
    TwoDigitsExact(date.day);
    TwoDigitsExact(date.month + 1);
    IntToStringRoundTrip(date.year);
    assert FormatDate(input, date) == d + "/" + m + "/" + y;
    ReadJoined(d, m, y, '/');
  }

  /** The formatted time of a valid date holds its hours, minutes and
      seconds. */
  lemma FormatTimeRoundTrip(input: Option<string>, date: JsDate)
    requires Truthy(input) && date.ValidDate? && InCalendar(date)
    ensures ParseClock(FormatTime(input, date)) == Some((date.hours, date.minutes, date.seconds))
  {
    var h, m, s := TwoDigits(Num(date.hours)), TwoDigits(Num(date.minutes)), TwoDigits(Num(date.seconds));
    TwoDigitsExact(date.hours);
    TwoDigitsExact(date.minutes);
    TwoDigitsExact(date.seconds);
    assert FormatTime(input, date) == h + ":" + m + ":" + s;
    ReadJoined(h, m, s, ':');
  }
}
