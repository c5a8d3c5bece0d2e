/**
  Date normalisation: turning a raw date cell into canonical text under the
  source's declared format(s), the per-source earliest year and the
  cross-source watermark, and the time entity a canonical date becomes.
*/
module Dates {
  import opened PyStr
  import opened Rdf
  import opened Registry

  // ---------------------------------------------------------------------------
  // The calendar parsers the normaliser calls into

  datatype CalendarDate = CalendarDate(year: int, month: int, day: int)

  /** A `datetime` value: the ranges `datetime` itself enforces. */
  type DateTime = d: CalendarDate | 1 <= d.year <= 9999 && 1 <= d.month <= 12 && 1 <= d.day <= 31
    witness CalendarDate(1, 1, 1)

  /** `datetime.strptime(text, format)` and dateutil's `parse(text)`; None where they raise. */
  datatype DateLibrary = DateLibrary(
    strptime: (string, string) -> Option<DateTime>,
    parseFree: string -> Option<DateTime>)

  /** `d.strftime('%Y-%m')`; `%Y` prints the year's digits without padding. */
  function YearMonthText(d: DateTime): string {
    IntText(d.year) + "-" + Pad2(d.month)
  }

  /** `d.strftime('%Y-%m-%d')`. */
  function FullDateText(d: DateTime): string {
    YearMonthText(d) + "-" + Pad2(d.day)
  }

  // ---------------------------------------------------------------------------
  // parse_date

  /** What `parse_date` does: returns canonical text, returns None, or raises. */
  datatype DateParse = Parsed(text: string) | Unparsed | Raised(error: string)

  const QuarterStartMonth: map<string, string> := map["Q1" := "01", "Q2" := "04", "Q3" := "07", "Q4" := "10"]

  /** The year format: `str(int(float(s)))`; a NaN is a ValueError, an infinity an OverflowError. */
  function YearPass(s: string): Option<DateParse> {
    match ParseFloat(s)
    case Some(Finite(n)) => Some(Parsed(IntText(n)))
    case Some(Infinite) => Some(Raised("cannot convert float infinity to integer"))
    case Some(NotANumber) => None
    case None => None
  }

  /** The academic-year format: `int` of the first four characters. */
  function AcademicPass(s: string): Option<DateParse> {
    match ParseInt(s[..if |s| < 4 then |s| else 4])
    case Some(year) => Some(Parsed(IntText(year)))
    case None => None
  }

  /** The strptime formats, reformatted with or without the day. */
  function StrptimePass(s: string, format: string, lib: DateLibrary): Option<DateParse> {
    match lib.strptime(s, format)
    case Some(d) => Some(Parsed(if 'd' in format then FullDateText(d) else YearMonthText(d)))
    case None => None
  }

  /** The free-form "year and month name" format, read by dateutil. */
  function FreePass(s: string, lib: DateLibrary): Option<DateParse> {
    match lib.parseFree(s)
    case Some(d) => Some(Parsed(YearMonthText(d)))
    case None => None
  }

  /** The quarter format: exactly two words, the second a quarter name in any
      case; any other second word is a KeyError, which is not caught. */
  function QuarterPass(s: string): Option<DateParse> {
    var words := Words(s);
    if |words| != 2 then None
    else
      var q := Upper(words[1]);
      if q in QuarterStartMonth then Some(Parsed(words[0] + "-" + QuarterStartMonth[q]))
      else Some(Raised("'" + q + "'"))
  }

  /** One pass of the format loop on stripped text `s`.  `Some` ends the loop
      (a return or an exception other than ValueError); `None` moves on to the
      next format (a ValueError, or a format none of the branches handles). */
  function TryFormat(s: string, format: string, lib: DateLibrary): Option<DateParse> {
    if format == YearFormat then YearPass(s)
    else if format == AcademicYearFormat then AcademicPass(s)
    else if format in [DayMonthYearFormat, FullDateFormat, YearMonthFormat] then StrptimePass(s, format, lib)
    else if format == YearMonthNameFormat then FreePass(s, lib)
    else if format == YearQuarterFormat then QuarterPass(s)
    else None
  }

  /** The declared format(s) as a list: a single format is wrapped. */
  function FormatsOf(spec: DateFormatSpec): seq<string> {
    match spec
    case OneFormat(f) => [f]
    case FormatList(fs) => fs
  }

  /** The format loop: formats are tried in order and the first decisive one wins. */
  function TryFormats(s: string, formats: seq<string>, lib: DateLibrary): DateParse {
    if formats == [] then Unparsed
    else
      match TryFormat(s, formats[0], lib)
      case Some(outcome) => outcome
      case None => TryFormats(s, formats[1..], lib)
  }

  /** `parse_date(value, spec)`; `None` stands for a missing (NaN) cell. */
  function ParseDate(value: Option<string>, spec: DateFormatSpec, lib: DateLibrary): DateParse {
    match value
    case None => Unparsed
    case Some(v) => TryFormats(Strip(v), FormatsOf(spec), lib)
  }

  // ---------------------------------------------------------------------------
  // Lemmas about parse_date

  lemma YearPassDecisive(s: string)
    ensures YearPass(s) != Some(Unparsed)
  {
  }

  lemma AcademicPassDecisive(s: string)
    ensures AcademicPass(s) != Some(Unparsed)
  {
  }

  lemma QuarterPassDecisive(s: string)
    ensures QuarterPass(s) != Some(Unparsed)
  {
  }

  /** A pass never ends the loop with "no result": it returns or raises. */
  lemma TryFormatDecisive(s: string, format: string, lib: DateLibrary)
    ensures TryFormat(s, format, lib) != Some(Unparsed)
  {
    var r := TryFormat(s, format, lib);
    if format == YearFormat {
      assert r == YearPass(s);
      YearPassDecisive(s);
    } else if format == AcademicYearFormat {
      assert r == AcademicPass(s);
      AcademicPassDecisive(s);
    } else if format == YearQuarterFormat {
      assert |YearQuarterFormat| == 6 && |YearFormat| == 2 && |AcademicYearFormat| == 13;
      assert r == QuarterPass(s);
      QuarterPassDecisive(s);
    } else {
      assert r.None? || r.value.Parsed?;
    }
  }

  /** A format whose pass moves on leaves the answer to the remaining formats. */
  lemma TryFormatsSkip(s: string, formats: seq<string>, lib: DateLibrary)
    requires formats != [] && TryFormat(s, formats[0], lib).None?
    ensures TryFormats(s, formats, lib) == TryFormats(s, formats[1..], lib)
  {
  }

  /** A decisive first pass is the answer. */
  lemma TryFormatsHead(s: string, formats: seq<string>, lib: DateLibrary)
    requires formats != [] && TryFormat(s, formats[0], lib).Some?
    ensures TryFormats(s, formats, lib) == TryFormat(s, formats[0], lib).value
  {
  }

  /** parse_date gives None exactly when every format fails with a ValueError. */
  lemma {:induction false} TryFormatsUnparsed(s: string, formats: seq<string>, lib: DateLibrary)
    ensures TryFormats(s, formats, lib) == Unparsed <==> forall i :: 0 <= i < |formats| ==> TryFormat(s, formats[i], lib).None?
  {
    if formats != [] {
      if TryFormat(s, formats[0], lib).None? {
        var rest := formats[1..];
        TryFormatsUnparsed(s, rest, lib);
        TryFormatsSkip(s, formats, lib);
        assert forall i :: 1 <= i < |formats| ==> formats[i] == rest[i - 1];
      } else {
        TryFormatDecisive(s, formats[0], lib);
        TryFormatsHead(s, formats, lib);
      }
    }
  }

  /** The first format whose pass is decisive gives parse_date's answer. */
  lemma {:induction false} TryFormatsFirstDecisive(s: string, formats: seq<string>, lib: DateLibrary, i: nat)
    requires i < |formats| && TryFormat(s, formats[i], lib).Some?
    requires forall j :: 0 <= j < i ==> TryFormat(s, formats[j], lib).None?
    ensures TryFormats(s, formats, lib) == TryFormat(s, formats[i], lib).value
  {
    if i > 0 {
      TryFormatsSkip(s, formats, lib);
      var rest := formats[1..];
      forall j | 0 <= j < i - 1
        ensures TryFormat(s, rest[j], lib).None?
      {
        assert rest[j] == formats[j + 1];
      }
      assert rest[i - 1] == formats[i];
      TryFormatsFirstDecisive(s, rest, lib, i - 1);
    } else {
      TryFormatsHead(s, formats, lib);
    }
  }

  /** Under one declared format, parse_date's answer is that format's pass. */
  lemma ParseDateOneFormat(v: string, format: string, lib: DateLibrary, r: DateParse)
    requires ParseDate(Some(v), OneFormat(format), lib) == r
    ensures TryFormat(Strip(v), format, lib) == if r.Unparsed? then None else Some(r)
  {
    var s := Strip(v);
    assert [format][1..] == [];
    assert r == TryFormats(s, [format], lib);
    TryFormatDecisive(s, format, lib);
  }

  /** Nothing `parse_date` returns is empty, so its callers' truthiness test is dead. */
  lemma {:induction false} ParsedTextNonEmpty(s: string, formats: seq<string>, lib: DateLibrary)
    ensures TryFormats(s, formats, lib) != Parsed("")
  {
    if formats != [] {
      match TryFormat(s, formats[0], lib)
      case Some(outcome) =>
      case None => ParsedTextNonEmpty(s, formats[1..], lib);
    }
  }

  /** The year format coerces through float: `int(float(s))`, truncated toward zero. */
  lemma YearFormatCoercesFloat(v: string, lib: DateLibrary)
    ensures ParseDate(Some(v), OneFormat(YearFormat), lib) ==
      match ParseFloat(Strip(v))
      case Some(Finite(n)) => Parsed(IntText(n))
      case Some(Infinite) => Raised("cannot convert float infinity to integer")
      case _ => Unparsed
  {
    ParseDateOneFormat(v, YearFormat, lib, ParseDate(Some(v), OneFormat(YearFormat), lib));
  }

  /** Normalising the text of a year under the year format gives it back. */
  lemma YearFormatIdempotent(n: int, lib: DateLibrary)
    requires -FloatOverflow < n < FloatOverflow
    ensures ParseDate(Some(IntText(n)), OneFormat(YearFormat), lib) == Parsed(IntText(n))
  {
    StripNoSpace(IntText(n));
    IntTextAsFloat(n);
    YearFormatCoercesFloat(IntText(n), lib);
  }

  lemma YearOutcomeShape(p: Option<FloatValue>, t: string)
    requires (match p
      case Some(Finite(n)) => Parsed(IntText(n))
      case Some(Infinite) => Raised("cannot convert float infinity to integer")
      case _ => Unparsed) == Parsed(t)
    ensures p.Some? && p.value.Finite? && t == IntText(p.value.truncated)
  {
  }

  /** A text the year format turns into a date came from a finite float. */
  lemma YearFormatParsedFloat(v: string, t: string, lib: DateLibrary)
    requires ParseDate(Some(v), OneFormat(YearFormat), lib) == Parsed(t)
    ensures ParseFloat(Strip(v)).Some? && ParseFloat(Strip(v)).value.Finite?
    ensures t == IntText(ParseFloat(Strip(v)).value.truncated)
  {
    YearFormatCoercesFloat(v, lib);
    YearOutcomeShape(ParseFloat(Strip(v)), t);
  }

  /** What the year format produces is the text of an integer below the overflow bound. */
  lemma YearFormatOutput(v: string, t: string, lib: DateLibrary)
    requires ParseDate(Some(v), OneFormat(YearFormat), lib) == Parsed(t)
    ensures exists n :: -FloatOverflow < n < FloatOverflow && t == IntText(n)
  {
    YearFormatParsedFloat(v, t, lib);
    FiniteFloatText(Strip(v), t);
  }

  lemma FiniteFloatText(s: string, t: string)
    requires ParseFloat(s).Some? && ParseFloat(s).value.Finite?
    requires t == IntText(ParseFloat(s).value.truncated)
    ensures exists n :: -FloatOverflow < n < FloatOverflow && t == IntText(n)
  {
    ParseFloatFinite(s);
    var n := ParseFloat(s).value.truncated;
    assert -FloatOverflow < n < FloatOverflow && t == IntText(n);
  }

  /** Whatever the year format produces, normalising it again reproduces it. */
  lemma YearFormatOutputStable(v: string, t: string, lib: DateLibrary)
    requires ParseDate(Some(v), OneFormat(YearFormat), lib) == Parsed(t)
    ensures ParseDate(Some(t), OneFormat(YearFormat), lib) == Parsed(t)
  {
    YearFormatParsedFloat(v, t, lib);
    ParseFloatFinite(Strip(v));
    YearFormatIdempotent(ParseFloat(Strip(v)).value.truncated, lib);
  }

  /** A year too large for a double is an infinity, and `int` of it raises
      OverflowError, which `parse_date` does not catch. */
  lemma YearFormatOverflow(v: string, digits: string, lib: DateLibrary)
    requires digits != [] && AllDigits(digits) && DigitsValue(digits) >= FloatOverflow
    requires Strip(v) == digits
    ensures ParseDate(Some(v), OneFormat(YearFormat), lib) == Raised("cannot convert float infinity to integer")
  {
    assert IsDigit(digits[0]) && IsDigit(digits[|digits| - 1]);
    StripKeeps(digits);
    assert SignAndBody(Strip(digits)) == (false, digits);
    FloatOfHugeDigits(digits, false, digits);
    YearFormatCoercesFloat(v, lib);
  }

  /** The academic-year format takes `int` of the first four characters, or
      of the whole text when it is shorter. */
  lemma AcademicYearTakesLeadingFour(v: string, lib: DateLibrary)
    ensures var t := Strip(v);
      ParseDate(Some(v), OneFormat(AcademicYearFormat), lib) ==
      match ParseInt(t[..if |t| < 4 then |t| else 4])
      case Some(year) => Parsed(IntText(year))
      case None => Unparsed
  {
    ParseDateOneFormat(v, AcademicYearFormat, lib, ParseDate(Some(v), OneFormat(AcademicYearFormat), lib));
  }

  lemma UnderscoreYearTexts()
    ensures Strip("1_234") == "1_234" && "1_234"[..4] == "1_23"
  {
    StripNoSpace("1_234");
  }

  lemma ShortYearTexts()
    ensures Strip("99") == "99" && "99"[..2] == "99"
    ensures ParseInt("99") == Some(99)
  {
    StripNoSpace("99");
    ParseIntOfDigits("99");
    assert "99"[..1] == "9";
  }

  lemma ShortYearNumbers()
    ensures IntText(123) == "123" && IntText(99) == "99"
  {
  }

  /** An underscore between digits is read by `int`: "1_234" gives "123". */
  lemma AcademicYearUnderscoreExample(v: string, lib: DateLibrary)
    requires v == "1_234"
    ensures ParseDate(Some(v), OneFormat(AcademicYearFormat), lib) == Parsed("123")
  {
    UnderscoreYearTexts();
    UnderscoreExample("1_23");
    ShortYearNumbers();
    AcademicYearTakesLeadingFour(v, lib);
  }

  /** Text shorter than four characters is read whole: "99" gives "99". */
  lemma AcademicYearShortExample(v: string, lib: DateLibrary)
    requires v == "99"
    ensures ParseDate(Some(v), OneFormat(AcademicYearFormat), lib) == Parsed("99")
  {
    ShortYearTexts();
    ShortYearNumbers();
    AcademicYearTakesLeadingFour(v, lib);
  }

  /** The strptime formats give `YYYY-MM-DD` when the format has a day, else
      `YYYY-MM`; for four-digit years that is 10 or 7 characters. */
  lemma StrptimeShape(v: string, format: string, lib: DateLibrary)
    requires format in [DayMonthYearFormat, FullDateFormat, YearMonthFormat]
    requires lib.strptime(Strip(v), format).Some?
    ensures var d := lib.strptime(Strip(v), format).value;
      ParseDate(Some(v), OneFormat(format), lib) == Parsed(if format == YearMonthFormat then YearMonthText(d) else FullDateText(d))
    ensures var d := lib.strptime(Strip(v), format).value;
      d.year >= 1000 ==> |ParseDate(Some(v), OneFormat(format), lib).text| == (if format == YearMonthFormat then 7 else 10)
  {
    var d := lib.strptime(Strip(v), format).value;
    TryFormatStrptime(Strip(v), format, lib);
    ParseDateOne(v, format, lib);
    if d.year >= 1000 {
      NatTextLength4(d.year);
    }
  }

  /** The three strptime formats run the strptime pass, with a day exactly
      when the format is not `%Y-%m`. */
  lemma TryFormatStrptime(s: string, format: string, lib: DateLibrary)
    requires format in [DayMonthYearFormat, FullDateFormat, YearMonthFormat]
    ensures TryFormat(s, format, lib) == StrptimePass(s, format, lib)
    ensures ('d' in format) <==> format != YearMonthFormat
  {
    assert |YearFormat| == 2 && |AcademicYearFormat| == 13;
    assert 'd' in DayMonthYearFormat && 'd' in FullDateFormat && 'd' !in YearMonthFormat;
  }

  /** A quarter token maps, case-insensitively, to the quarter's first month;
      the year token is copied unchecked. */
  lemma QuarterMapping(year: string, q: string, lib: DateLibrary)
    requires year != [] && NoSpace(year) && q != [] && NoSpace(q)
    ensures Upper(q) in QuarterStartMonth ==>
      ParseDate(Some(year + " " + q), OneFormat(YearQuarterFormat), lib) == Parsed(year + "-" + QuarterStartMonth[Upper(q)])
    ensures Upper(q) !in QuarterStartMonth ==>
      ParseDate(Some(year + " " + q), OneFormat(YearQuarterFormat), lib) == Raised("'" + Upper(q) + "'")
  {
    var s := year + " " + q;
    assert s[0] == year[0] && s[|s| - 1] == q[|q| - 1];
    StripKeeps(s);
    QuarterPassOfPair(year, q);
    TryFormatQuarter(s, lib);
    ParseDateOne(s, YearQuarterFormat, lib);
  }

  /** The quarter pass on two words. */
  lemma QuarterPassOfPair(year: string, q: string)
    requires year != [] && NoSpace(year) && q != [] && NoSpace(q)
    ensures QuarterPass(year + " " + q) == if Upper(q) in QuarterStartMonth
      then Some(Parsed(year + "-" + QuarterStartMonth[Upper(q)]))
      else Some(Raised("'" + Upper(q) + "'"))
  {
    WordsOfPair(year, q);
  }

  /** The quarter format runs the quarter pass. */
  lemma TryFormatQuarter(s: string, lib: DateLibrary)
    ensures TryFormat(s, YearQuarterFormat, lib) == QuarterPass(s)
  {
    assert |YearQuarterFormat| == 6;
  }

  /** Under one declared format, parse_date returns that format's outcome, or None. */
  lemma ParseDateOne(v: string, format: string, lib: DateLibrary)
    ensures ParseDate(Some(v), OneFormat(format), lib) ==
      match TryFormat(Strip(v), format, lib)
      case Some(outcome) => outcome
      case None => Unparsed
  {
    var s := Strip(v);
    assert FormatsOf(OneFormat(format)) == [format];
    if TryFormat(s, format, lib).None? {
      TryFormatsSkip(s, [format], lib);
      assert [format][1..] == [];
    } else {
      TryFormatsHead(s, [format], lib);
    }
  }

  lemma YearWithFractionText()
    ensures "2021.0" == NatText(2021) + "." + "0"
    ensures IntText(2021) == "2021"
  {
    assert NatText(2021) == "2021";
  }

  lemma YearWithFractionValue()
    ensures ParseFloat("2021.0") == Some(Finite(2021))
  {
    YearWithFractionText();
    DecimalTextAsFloat(2021, "0");
  }

  /** "2021.0", as a float column prints a year, is the year 2021. */
  lemma YearExample(v: string, lib: DateLibrary)
    requires v == "2021.0"
    ensures ParseDate(Some(v), OneFormat(YearFormat), lib) == Parsed("2021")
  {
    YearWithFractionText();
    YearWithFractionValue();
    StripKeeps(v);
    YearFormatCoercesFloat(v, lib);
  }

  lemma QuarterTokens()
    ensures Upper("Q3") == "Q3" && Upper("q1") == "Q1" && Upper("Q5") == "Q5"
    ensures NoSpace("2019") && NoSpace("Q3") && NoSpace("q1") && NoSpace("Q5")
  {
  }

  lemma QuarterTexts()
    ensures "2019 Q3" == "2019" + " " + "Q3" && "2019 q1" == "2019" + " " + "q1" && "2019 Q5" == "2019" + " " + "Q5"
    ensures "2019-07" == "2019" + "-" + "07" && "2019-01" == "2019" + "-" + "01"
    ensures "'Q5'" == "'" + "Q5" + "'"
  {
  }

  /** "2019 Q3" is July 2019. */
  lemma QuarterExample(s: string, lib: DateLibrary)
    requires s == "2019 Q3"
    ensures ParseDate(Some(s), OneFormat(YearQuarterFormat), lib) == Parsed("2019-07")
  {
    QuarterTexts();
    QuarterTokens();
    QuarterMapping("2019", "Q3", lib);
  }

  /** The quarter token is read case-insensitively: "2019 q1" is January 2019. */
  lemma LowerCaseQuarterExample(s: string, lib: DateLibrary)
    requires s == "2019 q1"
    ensures ParseDate(Some(s), OneFormat(YearQuarterFormat), lib) == Parsed("2019-01")
  {
    QuarterTexts();
    QuarterTokens();
    assert QuarterStartMonth["Q1"] == "01";
    QuarterMapping("2019", "q1", lib);
  }

  /** An unknown quarter token raises KeyError out of `parse_date`. */
  lemma UnknownQuarterExample(s: string, lib: DateLibrary)
    requires s == "2019 Q5"
    ensures ParseDate(Some(s), OneFormat(YearQuarterFormat), lib) == Raised("'Q5'")
  {
    QuarterTexts();
    QuarterTokens();
    assert "Q5" !in QuarterStartMonth;
    QuarterMapping("2019", "Q5", lib);
  }

  // ---------------------------------------------------------------------------
  // Earliest year per source and the common watermark

  /** The year `extract_earliest_year` reads off one date cell: none for an
      unparsed cell, or the exception that abandons the whole source. */
  function CellYear(cell: Option<string>, spec: DateFormatSpec, lib: DateLibrary): Result<Option<int>> {
    var text := match cell case Some(v) => v case None => "nan";
    match ParseDate(Some(text), spec, lib)
    case Raised(e) => Err(e)
    case Unparsed => Ok(None)
    case Parsed(t) =>
      if t == "" then Ok(None)
      else
        match IntOf(Split(t, '-')[0])
        case Err(e) => Err(e)
        case Ok(y) => Ok(Some(y))
  }

  function MinOption(a: Option<int>, b: Option<int>): Option<int> {
    match (a, b)
    case (None, _) => b
    case (_, None) => a
    case (Some(x), Some(y)) => Some(if x <= y then x else y)
  }

  /** The minimum of a year column, missing years skipped; the first
      exception, in column order, aborts. */
  function MinYear(years: seq<Result<Option<int>>>): Result<Option<int>> {
    if years == [] then Ok(None)
    else
      match years[0]
      case Err(e) => Err(e)
      case Ok(y) =>
        match MinYear(years[1..])
        case Err(e) => Err(e)
        case Ok(m) => Ok(MinOption(y, m))
  }

  /** The year column `extract_earliest_year` derives from the date column. */
  function CellYears(cells: seq<Option<string>>, spec: DateFormatSpec, lib: DateLibrary): (r: seq<Result<Option<int>>>)
    ensures |r| == |cells| && forall i :: 0 <= i < |cells| ==> r[i] == CellYear(cells[i], spec, lib)
  {
    seq(|cells|, i requires 0 <= i < |cells| => CellYear(cells[i], spec, lib))
  }

  /** The column minimum is an exception exactly when some cell raised. */
  lemma {:induction false} MinYearError(years: seq<Result<Option<int>>>)
    ensures MinYear(years).Err? <==> exists i :: 0 <= i < |years| && years[i].Err?
  {
    if years != [] {
      MinYearError(years[1..]);
      assert forall i :: 1 <= i < |years| ==> years[i] == years[1..][i - 1];
    }
  }

  /** Without an exception, the minimum is one of the years and no year is below it. */
  lemma {:induction false} MinYearIsLeast(years: seq<Result<Option<int>>>)
    requires MinYear(years).Ok? && MinYear(years).value.Some?
    ensures exists i :: 0 <= i < |years| && years[i] == MinYear(years)
    ensures forall i :: 0 <= i < |years| && years[i].Ok? && years[i].value.Some? ==>
      MinYear(years).value.value <= years[i].value.value
  {
    assert forall i :: 1 <= i < |years| ==> years[i] == years[1..][i - 1];
    var m := MinYear(years[1..]);
    if m.Ok? && m.value.Some? {
      MinYearIsLeast(years[1..]);
    } else {
      MinYearNone(years[1..]);
    }
  }

  /** The minimum is missing exactly when every year is. */
  lemma {:induction false} MinYearNone(years: seq<Result<Option<int>>>)
    ensures MinYear(years) == Ok(None) <==> forall i :: 0 <= i < |years| ==> years[i] == Ok(None)
  {
    if years != [] {
      MinYearNone(years[1..]);
      assert forall i :: 1 <= i < |years| ==> years[i] == years[1..][i - 1];
    }
  }

  /** A source's processed file as `extract_earliest_year` sees it: its date
      column, or None when the file cannot be read. */
  datatype SourceDates = SourceDates(name: string, dates: Option<seq<Option<string>>>)

  /** `extract_earliest_year`: any failure (unreadable file, unknown source,
      an exception on any cell) gives None. */
  function EarliestYear(source: SourceDates, lib: DateLibrary): Option<int> {
    if source.dates.None? || source.name !in Mappings then None
    else
      match MinYear(CellYears(source.dates.value, Mappings[source.name].dateFormat, lib))
      case Ok(y) => y
      case Err(_) => None
  }

  /** The maximum of the known per-source earliest years. */
  function MaxKnown(years: seq<Option<int>>): Option<int> {
    if years == [] then None
    else
      var rest := MaxKnown(years[1..]);
      match (years[0], rest)
      case (None, _) => rest
      case (_, None) => years[0]
      case (Some(x), Some(y)) => if x >= y then years[0] else rest
  }

  /** There is no maximum exactly when no year is known. */
  lemma {:induction false} MaxKnownNone(years: seq<Option<int>>)
    ensures MaxKnown(years).None? <==> forall i :: 0 <= i < |years| ==> years[i].None?
  {
    if years != [] {
      MaxKnownNone(years[1..]);
      assert forall i :: 1 <= i < |years| ==> years[i] == years[1..][i - 1];
    }
  }

  /** The maximum is one of the known years and no known year exceeds it. */
  lemma {:induction false} MaxKnownIsMax(years: seq<Option<int>>)
    requires MaxKnown(years).Some?
    ensures exists i :: 0 <= i < |years| && years[i] == MaxKnown(years)
    ensures forall i :: 0 <= i < |years| && years[i].Some? ==> years[i].value <= MaxKnown(years).value
  {
    assert forall i :: 1 <= i < |years| ==> years[i] == years[1..][i - 1];
    if MaxKnown(years[1..]).Some? {
      MaxKnownIsMax(years[1..]);
    } else {
      MaxKnownNone(years[1..]);
    }
  }

  /** `find_common_earliest_year`: the latest of the sources' earliest years. */
  function CommonEarliestYear(sources: seq<SourceDates>, lib: DateLibrary): Option<int> {
    MaxKnown(EarliestYears(sources, lib))
  }

  function EarliestYears(sources: seq<SourceDates>, lib: DateLibrary): (r: seq<Option<int>>)
    ensures |r| == |sources| && forall i :: 0 <= i < |sources| ==> r[i] == EarliestYear(sources[i], lib)
  {
    seq(|sources|, i requires 0 <= i < |sources| => EarliestYear(sources[i], lib))
  }

  /** The watermark is missing exactly when no source has an earliest year;
      otherwise it is some source's earliest year and no source's is later. */
  lemma CommonEarliestYearIsMax(sources: seq<SourceDates>, lib: DateLibrary)
    ensures CommonEarliestYear(sources, lib).None? <==> forall i :: 0 <= i < |sources| ==> EarliestYear(sources[i], lib).None?
    ensures CommonEarliestYear(sources, lib).Some? ==>
      (exists i :: 0 <= i < |sources| && EarliestYear(sources[i], lib) == CommonEarliestYear(sources, lib))
    ensures CommonEarliestYear(sources, lib).Some? ==>
      forall i :: 0 <= i < |sources| && EarliestYear(sources[i], lib).Some? ==>
        EarliestYear(sources[i], lib).value <= CommonEarliestYear(sources, lib).value
  {
    var years := EarliestYears(sources, lib);
    MaxKnownNone(years);
    if MaxKnown(years).Some? {
      MaxKnownIsMax(years);
    }
  }

  lemma MaxKnownExample()
    ensures MaxKnown([Some(2005), None, Some(2010), Some(1995)]) == Some(2010)
    ensures MaxKnown([None, None]) == None
  {
    assert [Some(2005), None, Some(2010), Some(1995)][1..] == [None, Some(2010), Some(1995)];
    assert [None, Some(2010), Some(1995)][1..] == [Some(2010), Some(1995)];
    assert [Some(2010), Some(1995)][1..] == [Some(1995)];
    assert [Some(1995)][1..] == [];
  }

  // ---------------------------------------------------------------------------
  // map_date_to_ontology

  /** A time node: its URI and the triples that describe it. */
  datatype TimeEntity = TimeEntity(uri: string, triples: set<Triple>)

  /** The year `map_date_to_ontology` reads from the text before the first dash. */
  function LeadingYear(s: string): Option<int> {
    ParseInt(Split(s, '-')[0])
  }

  /** The time class each length of canonical text selects. */
  function TimeClassName(length: nat): Option<string> {
    if length == 4 then Some("Year")
    else if length == 7 then Some("YearMonth")
    else if length == 10 then Some("FullDate")
    else if length == 9 then Some("AcademicYear")
    else None
  }

  function TimeUri(cls: string, s: string): string {
    TimeNs + cls + "/" + s
  }

  /** A node typed `cls` carrying the text `s` under one property. */
  function DescribedNode(s: string, cls: string, property: string, datatypeIri: string): TimeEntity {
    var uri := TimeUri(cls, s);
    TimeEntity(uri, {
      Triple(Iri(uri), RdfType, Iri(TimeNs + cls)),
      Triple(Iri(uri), Iri(TimeNs + property), TypedLiteral(s, datatypeIri))
    })
  }

  /** An academic-year node, with the text on each side of the dash as its
      start and end year; None unless there is exactly one dash. */
  function AcademicYearNode(s: string): Option<TimeEntity> {
    var parts := Split(s, '-');
    if |parts| != 2 then None
    else
      var uri := TimeUri("AcademicYear", s);
      Some(TimeEntity(uri, {
        Triple(Iri(uri), RdfType, Iri(TimeNs + "AcademicYear")),
        Triple(Iri(uri), Iri(TimeNs + "startYear"), TypedLiteral(parts[0], XsdGYear)),
        Triple(Iri(uri), Iri(TimeNs + "endYear"), TypedLiteral(parts[1], XsdGYear))
      }))
  }

  /** The node for text `s` by its length alone. */
  function ShapedNode(s: string): Option<TimeEntity> {
    if |s| == 4 then Some(DescribedNode(s, "Year", "year", XsdGYear))
    else if |s| == 7 then Some(DescribedNode(s, "YearMonth", "yearMonth", XsdGYearMonth))
    else if |s| == 10 then Some(DescribedNode(s, "FullDate", "date", XsdDate))
    else if |s| == 9 then AcademicYearNode(s)
    else None
  }

  /** The node `map_date_to_ontology` creates for canonical text `s`, or None
      when it returns None (empty text, unreadable year, year below the
      watermark, a length other than 4, 7, 10 and 9, or an academic year
      that does not split in two). */
  function DateEntity(s: string, watermark: int): Option<TimeEntity> {
    if s == [] then None
    else
      match LeadingYear(s)
      case None => None
      case Some(year) => if year < watermark then None else ShapedNode(s)
  }

  /** Dates without a readable year, or before the watermark, are dropped. */
  lemma DateEntityNeedsYear(s: string, watermark: int)
    requires DateEntity(s, watermark).Some?
    ensures s != [] && LeadingYear(s).Some? && LeadingYear(s).value >= watermark
  {
  }

  /** The node's class and URI follow the length of the text, and the type
      triple is among its triples; lengths without a class give nothing. */
  lemma {:induction false} DateEntityClass(s: string, watermark: int)
    ensures TimeClassName(|s|).None? ==> DateEntity(s, watermark).None?
    ensures DateEntity(s, watermark).Some? ==>
      var cls := TimeClassName(|s|).value;
      var e := DateEntity(s, watermark).value;
      e.uri == TimeUri(cls, s) && Triple(Iri(e.uri), RdfType, Iri(TimeNs + cls)) in e.triples
  {
    if s != [] && LeadingYear(s).Some? && LeadingYear(s).value >= watermark {
      DateEntityOfYear(s, watermark);
      ShapedNodeClass(s);
    }
  }

  lemma ShapedNodeClass(s: string)
    ensures TimeClassName(|s|).None? ==> ShapedNode(s).None?
    ensures ShapedNode(s).Some? ==>
      var cls := TimeClassName(|s|).value;
      var e := ShapedNode(s).value;
      e.uri == TimeUri(cls, s) && Triple(Iri(e.uri), RdfType, Iri(TimeNs + cls)) in e.triples
  {
  }

  lemma StartEndDiffer()
    ensures TimeNs + "startYear" != TimeNs + "endYear"
    ensures RdfType != Iri(TimeNs + "startYear") && RdfType != Iri(TimeNs + "endYear")
  {
    assert (TimeNs + "startYear")[24] != (TimeNs + "endYear")[24];
    assert RdfType.iri[7] != (TimeNs + "startYear")[7];
    assert RdfType.iri[7] != (TimeNs + "endYear")[7];
  }

  lemma TypeAndValueDiffer(property: string)
    ensures RdfType != Iri(TimeNs + property)
  {
    assert RdfType.iri[7] != (TimeNs + property)[7];
  }

  lemma DescribedNodeSize(s: string, cls: string, property: string, datatypeIri: string)
    ensures |DescribedNode(s, cls, property, datatypeIri).triples| == 2
  {
    TypeAndValueDiffer(property);
  }

  lemma AcademicYearNodeSize(s: string)
    requires AcademicYearNode(s).Some?
    ensures |AcademicYearNode(s).value.triples| == 3
  {
    StartEndDiffer();
  }

  /** A year, month or day node has two triples, an academic year three. */
  lemma DateEntitySize(s: string, watermark: int)
    requires DateEntity(s, watermark).Some?
    ensures |DateEntity(s, watermark).value.triples| == if |s| == 9 then 3 else 2
  {
    if |s| == 9 {
      AcademicYearNodeSize(s);
    } else if |s| == 4 {
      DescribedNodeSize(s, "Year", "year", XsdGYear);
    } else if |s| == 7 {
      DescribedNodeSize(s, "YearMonth", "yearMonth", XsdGYearMonth);
    } else {
      DescribedNodeSize(s, "FullDate", "date", XsdDate);
    }
  }

  lemma DateEntityOfYear(s: string, watermark: int)
    requires s != [] && LeadingYear(s).Some? && LeadingYear(s).value >= watermark
    ensures DateEntity(s, watermark) == ShapedNode(s)
  {
  }

  /** A run of digits, a dash and a dash-free tail split in two at the dash. */
  lemma SplitAfterDigits(y: string, tail: string)
    requires AllDigits(y) && '-' !in tail
    ensures Split(y + "-" + tail, '-') == [y, tail]
  {
    var t := y + "-" + tail;
    assert t == y + ("-" + tail);
    IndexOfAfter(y, "-" + tail, '-');
    assert t[..|y|] == y && t[|y| + 1..] == tail;
    NoDashSplit(tail);
  }

  lemma NoDashSplit(tail: string)
    requires '-' !in tail
    ensures Split(tail, '-') == [tail]
  {
    assert IndexOf(tail, '-') == |tail|;
  }

  /** A six-digit year, a dash and a month is nine characters long, reads as
      that year and splits in two at its dash. */
  lemma SixDigitYearMonthText(y: string, month: string)
    requires |y| == 6 && AllDigits(y) && |month| == 2 && AllDigits(month)
    ensures |y + "-" + month| == 9
    ensures LeadingYear(y + "-" + month) == Some(DigitsValue(y))
    ensures Split(y + "-" + month, '-') == [y, month]
  {
    SplitAfterDigits(y, month);
    ParseIntOfDigits(y);
  }

  lemma FirstQuarterToken()
    ensures Upper("Q1") == "Q1" && NoSpace("Q1") && "Q1" in QuarterStartMonth && QuarterStartMonth["Q1"] == "01"
  {
    assert Upper("Q1")[0] == 'Q' && Upper("Q1")[1] == '1';
  }

  /** The nine-character branch has a producer: a quarter whose year token has
      six digits, such as "123456 Q1", parses to the year, a dash and "01" ... */
  lemma SixDigitQuarterParse(y: string, lib: DateLibrary)
    requires |y| == 6 && AllDigits(y)
    ensures ParseDate(Some(y + " Q1"), OneFormat(YearQuarterFormat), lib) == Parsed(y + "-01")
  {
    FirstQuarterToken();
    assert NoSpace(y);
    QuarterMapping(y, "Q1", lib);
    assert y + " Q1" == y + " " + "Q1";
    assert y + "-" + "01" == y + "-01";
  }

  /** The free-form format runs dateutil. */
  lemma TryFormatFree(s: string, lib: DateLibrary)
    ensures TryFormat(s, YearMonthNameFormat, lib) == FreePass(s, lib)
  {
    assert |YearFormat| == 2 && |AcademicYearFormat| == 13 && |YearMonthNameFormat| == 8;
    assert YearMonthNameFormat != DayMonthYearFormat;
  }

  /** Digit-led text with a space in it and no dot is not a float, so the year format moves on. */
  lemma YearPassRejectsSpaced(s: string, k: nat)
    requires Strip(s) == s && s != [] && IsDigit(s[0])
    requires k < |s| && s[k] == ' ' && '.' !in s
    ensures YearPass(s) == None
  {
    assert SignAndBody(Strip(s)) == (false, s);
    ParseFloatNumeric(s, false, s);
    assert IndexOf(s, '.') == |s|;
    assert s[..|s|] == s;
    assert !IsDigit(s[k]);
  }

  /** Under `unemployment`'s list of formats, a six-digit quarter text such as
      "123456 Q1" is not a float; when dateutil also rejects it, the quarter
      format reads it as the six-digit year and "01". */
  lemma SixDigitUnemploymentParse(y: string, lib: DateLibrary)
    requires |y| == 6 && AllDigits(y)
    requires lib.parseFree(y + " Q1").None?
    ensures ParseDate(Some(y + " Q1"), Mappings["unemployment"].dateFormat, lib) == Parsed(y + "-01")
  {
    assert Mappings["unemployment"].dateFormat == FormatList([YearFormat, YearMonthNameFormat, YearQuarterFormat]);
    SixDigitFormatListParse(y, lib);
  }

  /** The same reading, for that list of formats wherever it is configured. */
  lemma SixDigitFormatListParse(y: string, lib: DateLibrary)
    requires |y| == 6 && AllDigits(y)
    requires lib.parseFree(y + " Q1").None?
    ensures ParseDate(Some(y + " Q1"), FormatList([YearFormat, YearMonthNameFormat, YearQuarterFormat]), lib) == Parsed(y + "-01")
  {
    var s := y + " Q1";
    var formats := [YearFormat, YearMonthNameFormat, YearQuarterFormat];
    SixDigitQuarterPasses(y, lib);
    TryFormatFree(s, lib);
    TryFormatQuarter(s, lib);
    assert TryFormat(s, formats[0], lib).None? && TryFormat(s, formats[1], lib).None?;
    TryFormatsFirstDecisive(s, formats, lib, 2);
  }

  /** How each of those three formats treats a six-digit year and " Q1". */
  lemma SixDigitQuarterPasses(y: string, lib: DateLibrary)
    requires |y| == 6 && AllDigits(y)
    requires lib.parseFree(y + " Q1").None?
    ensures Strip(y + " Q1") == y + " Q1"
    ensures YearPass(y + " Q1") == None && FreePass(y + " Q1", lib) == None
    ensures QuarterPass(y + " Q1") == Some(Parsed(y + "-01"))
  {
    var s := y + " Q1";
    assert s == y + " " + "Q1";
    assert s[0] == y[0] && s[|s| - 1] == '1';
    StripKeeps(s);
    assert s[6] == ' ' && '.' !in s;
    YearPassRejectsSpaced(s, 6);
    FirstQuarterToken();
    assert NoSpace(y);
    QuarterPassOfPair(y, "Q1");
    assert y + "-" + "01" == y + "-01";
  }

  /** A text that splits in two at its one dash is an academic-year node. */
  lemma AcademicYearNodeOfPair(t: string, a: string, b: string)
    requires Split(t, '-') == [a, b]
    ensures AcademicYearNode(t).Some? && AcademicYearNode(t).value.uri == TimeUri("AcademicYear", t)
  {
  }

  /** ... which becomes an academic-year node once the watermark is at most that year. */
  lemma SixDigitQuarterNode(y: string, watermark: int)
    requires |y| == 6 && AllDigits(y) && watermark <= DigitsValue(y)
    ensures DateEntity(y + "-01", watermark) == AcademicYearNode(y + "-01")
    ensures DateEntity(y + "-01", watermark).Some?
    ensures DateEntity(y + "-01", watermark).value.uri == TimeUri("AcademicYear", y + "-01")
  {
    var t := y + "-01";
    assert t == y + "-" + "01";
    SixDigitYearMonthText(y, "01");
    AcademicYearNodeOfPair(t, y, "01");
    NineCharacterNode(t, watermark);
  }

  /** Nine characters with a year at or past the watermark select the academic-year node. */
  lemma NineCharacterNode(t: string, watermark: int)
    requires |t| == 9 && LeadingYear(t).Some? && LeadingYear(t).value >= watermark
    ensures DateEntity(t, watermark) == AcademicYearNode(t)
  {
    DateEntityOfYear(t, watermark);
  }

  /** Adds a year, month or day node: its type and its value. */
  method AddDescribedNode(graph: Graph, s: string, cls: string, property: string, datatypeIri: string) returns (u: string)
    modifies graph
    ensures u == DescribedNode(s, cls, property, datatypeIri).uri
    ensures graph.triples == old(graph.triples) + DescribedNode(s, cls, property, datatypeIri).triples
  {
    u := TimeUri(cls, s);
    graph.Add(Triple(Iri(u), RdfType, Iri(TimeNs + cls)));
    graph.Add(Triple(Iri(u), Iri(TimeNs + property), TypedLiteral(s, datatypeIri)));
  }

  /** Adds an academic-year node, or nothing when the text does not split in two at a dash. */
  method AddAcademicYearNode(graph: Graph, s: string) returns (uri: Option<string>)
    modifies graph
    ensures uri == if AcademicYearNode(s).Some? then Some(AcademicYearNode(s).value.uri) else None
    ensures graph.triples == old(graph.triples) + if AcademicYearNode(s).Some? then AcademicYearNode(s).value.triples else {}
  {
    var parts := Split(s, '-');
    if |parts| != 2 {
      return None;
    }
    var u := TimeUri("AcademicYear", s);
    graph.Add(Triple(Iri(u), RdfType, Iri(TimeNs + "AcademicYear")));
    graph.Add(Triple(Iri(u), Iri(TimeNs + "startYear"), TypedLiteral(parts[0], XsdGYear)));
    graph.Add(Triple(Iri(u), Iri(TimeNs + "endYear"), TypedLiteral(parts[1], XsdGYear)));
    uri := Some(u);
  }

  /** The length dispatch of `map_date_to_ontology`, once the year has passed the watermark. */
  method AddShapedNode(graph: Graph, s: string) returns (uri: Option<string>)
    modifies graph
    ensures uri == if ShapedNode(s).Some? then Some(ShapedNode(s).value.uri) else None
    ensures graph.triples == old(graph.triples) + if ShapedNode(s).Some? then ShapedNode(s).value.triples else {}
  {
    if |s| == 4 {
      var u := AddDescribedNode(graph, s, "Year", "year", XsdGYear);
      uri := Some(u);
    } else if |s| == 7 {
      var u := AddDescribedNode(graph, s, "YearMonth", "yearMonth", XsdGYearMonth);
      uri := Some(u);
    } else if |s| == 10 {
      var u := AddDescribedNode(graph, s, "FullDate", "date", XsdDate);
      uri := Some(u);
    } else if |s| == 9 {
      uri := AddAcademicYearNode(graph, s);
    } else {
      uri := None;
    }
  }

  /** `map_date_to_ontology`: adds the time node's triples to the graph and
      returns its URI, or adds nothing and returns None. */
  method MapDateToOntology(s: string, graph: Graph, watermark: int) returns (uri: Option<string>)
    modifies graph
    ensures uri == if DateEntity(s, watermark).Some? then Some(DateEntity(s, watermark).value.uri) else None
    ensures graph.triples == old(graph.triples) + if DateEntity(s, watermark).Some? then DateEntity(s, watermark).value.triples else {}
  {
    if s == [] {
      return None;
    }
    var year := LeadingYear(s);
    if year.None? || year.value < watermark {
      return None;
    }
    DateEntityOfYear(s, watermark);
    uri := AddShapedNode(graph, s);
  }
}
