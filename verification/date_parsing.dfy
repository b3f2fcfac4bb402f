/**
  How the admin "All Appointments" view turns a date string into a
  (year, month, day) triple: `parseDate` for the numeric forms and a
  generic fallback, and `extractDateParts`, which first tries the
  `"<day> <Mon> <year>"` text form (with its May-to-April remap).
*/
module DateParsing {
  import opened Wrappers
  import opened Strings
  import opened Calendar

  // ---------------------------------------------------------------------
  // parseDate
  // ---------------------------------------------------------------------

  /** `/^\d{4}-\d{2}-\d{2}$/`: three dash-separated digit blocks of widths 4, 2, 2. */
  predicate IsoShape(s: string) {
    var p := Split(s, '-');
    && |p| == 3
    && |p[0]| == 4 && |p[1]| == 2 && |p[2]| == 2
    && AllDigits(p[0]) && AllDigits(p[1]) && AllDigits(p[2])
  }

  /** `/^\d{2}-\d{2}-\d{4}$/`: three dash-separated digit blocks of widths 2, 2, 4. */
  predicate DashDmyShape(s: string) {
    var p := Split(s, '-');
    && |p| == 3
    && |p[0]| == 2 && |p[1]| == 2 && |p[2]| == 4
    && AllDigits(p[0]) && AllDigits(p[1]) && AllDigits(p[2])
  }

  /** `/^\d{1,2}_\d{1,2}_\d{4}$/`: three underscore-separated digit blocks of widths 1-2, 1-2, 4. */
  predicate UnderscoreShape(s: string) {
    var p := Split(s, '_');
    && |p| == 3
    && 1 <= |p[0]| <= 2 && 1 <= |p[1]| <= 2 && |p[2]| == 4
    && AllDigits(p[0]) && AllDigits(p[1]) && AllDigits(p[2])
  }

  predicate NumericShape(s: string) {
    IsoShape(s) || DashDmyShape(s) || UnderscoreShape(s)
  }

  /** The year, the 1-based month field and the day read off a numeric form, tried in `parseDate`'s order. */
  function NumericFields(s: string): (r: Option<(int, int, int)>)
    ensures r.Some? <==> NumericShape(s)
  {
    if IsoShape(s) then
      var p := Split(s, '-');
      Some((DecValue(p[0]), DecValue(p[1]), DecValue(p[2])))
    else if DashDmyShape(s) then
      var p := Split(s, '-');
      Some((DecValue(p[2]), DecValue(p[1]), DecValue(p[0])))
    else if UnderscoreShape(s) then
      var p := Split(s, '_');
      Some((DecValue(p[2]), DecValue(p[1]), DecValue(p[0])))
    else
      None
  }

  /**
    `parseDate`: the three numeric forms go through
    `new Date(year, month - 1, day)`; any other string goes to the
    engine's own date parser, `fallback`, whose `None` is the NaN date
    that `parseDate` turns into `null`.
  */
  function ParseDate(s: string, fallback: string -> Option<CalDate>): (r: Option<CalDate>)
    ensures NumericShape(s) ==> r.Some? && Valid(r.value)
    ensures !NumericShape(s) ==> r == fallback(s)
  {
    match NumericFields(s)
    case Some((y, m, d)) => Some(MakeDate(y, m - 1, d))
    case None => fallback(s)
  }

  // ---------------------------------------------------------------------
  // extractDateParts
  // ---------------------------------------------------------------------

  const MonthNames: seq<string> :=
    ["Jan", "Feb", "Mar", "Apr", "May", "Jun", "Jul", "Aug", "Sep", "Oct", "Nov", "Dec"]

  /** The first month index at or after `from` whose abbreviation occurs anywhere in `s`. */
  function FirstMonthFrom(s: string, from: nat): (r: Option<nat>)
    requires from <= 12
    ensures r.Some? ==> from <= r.value < 12 && Contains(s, MonthNames[r.value])
    ensures r.Some? ==> forall j :: from <= j < r.value ==> !Contains(s, MonthNames[j])
    ensures r.None? ==> forall j :: from <= j < 12 ==> !Contains(s, MonthNames[j])
    decreases 12 - from
  {
    if from == 12 then None
    else if Contains(s, MonthNames[from]) then Some(from)
    else FirstMonthFrom(s, from + 1)
  }

  /** The month search of the text path: first abbreviation in calendar order that `s` contains. */
  function FindMonth(s: string): (r: Option<nat>)
    ensures r.Some? ==> r.value < 12 && Contains(s, MonthNames[r.value])
    ensures r.Some? ==> forall j :: 0 <= j < r.value ==> !Contains(s, MonthNames[j])
    ensures r.None? ==> forall j :: 0 <= j < 12 ==> !Contains(s, MonthNames[j])
  {
    FirstMonthFrom(s, 0)
  }

  /** The hard-coded correction applied to a month index: May (4) is read as April (3). */
  function RemapMay(m: int): (r: int)
    ensures m != 4 ==> r == m
    ensures r == 3 <==> m == 3 || m == 4
  {
    if m == 4 then 3 else m
  }

  /**
    The text path of `extractDateParts`: for a string with a space and at
    least three space-separated tokens, the day is the integer prefix of
    the first token, the year the integer prefix of the last token with
    its first comma removed, the month the first abbreviation found, May
    remapped to April.  `None` means the path does not apply and the
    caller falls back to `ParseDate`.
  */
  function TextParts(s: string): (r: Option<CalDate>)
    ensures var p := Split(s, ' ');
            r.None? <==> || ' ' !in s || |p| < 3 || ParseInt(p[0]).None? || FindMonth(s).None?
                         || ParseInt(RemoveFirst(p[|p| - 1], ',')).None?
    ensures var p := Split(s, ' ');
            r.Some? ==> && |p| >= 3
                        && ParseInt(p[0]) == Some(r.value.day)
                        && ParseInt(RemoveFirst(p[|p| - 1], ',')) == Some(r.value.year)
    ensures r.Some? ==> FindMonth(s).Some? && r.value.month == RemapMay(FindMonth(s).value)
    ensures r.Some? ==> 0 <= r.value.month < 12 && r.value.month != 4
    ensures r.Some? ==> ' ' in s && |Split(s, ' ')| >= 3
    ensures r.Some? && r.value.month != 3 ==> Contains(s, MonthNames[r.value.month])
    ensures r.Some? && r.value.month == 3 ==> Contains(s, "Apr") || Contains(s, "May")
  {
    if ' ' !in s then None else TokenFields(Split(s, ' '), FindMonth(s))
  }

  /** The field reading of the text path over the space-separated tokens and the month found. */
  function TokenFields(parts: seq<string>, month: Option<nat>): Option<CalDate> {
    if |parts| < 3 then None
    else
      var day := ParseInt(parts[0]);
      var year := ParseInt(RemoveFirst(parts[|parts| - 1], ','));
      if day.Some? && month.Some? && year.Some? then
        Some(CalDate(year.value, RemapMay(month.value), day.value))
      else
        None
  }

  /** `extractDateParts`: the text path first, then `parseDate`. */
  function ExtractDateParts(s: string, fallback: string -> Option<CalDate>): (r: Option<CalDate>)
    ensures TextParts(s).Some? ==> r == TextParts(s)
    ensures TextParts(s).None? ==> r == ParseDate(s, fallback)
  {
    match TextParts(s)
    case Some(d) => Some(d)
    case None => ParseDate(s, fallback)
  }

  // ---------------------------------------------------------------------
  // The textual forms of a calendar day
  // ---------------------------------------------------------------------

  /** Fields printable by the forms below: a four-digit year, a month index, a one- or two-digit day. */
  predicate Printable(date: CalDate) {
    0 <= date.year <= 9999 && 0 <= date.month < 12 && 1 <= date.day <= 99
  }

  /** `"YYYY-MM-DD"`, as a date-picker control produces it. */
  function IsoText(date: CalDate): string
    requires Printable(date)
  {
    Digits(date.year, 4) + ['-'] + Digits(date.month + 1, 2) + ['-'] + Digits(date.day, 2)
  }

  /** `"DD-MM-YYYY"`. */
  function DashText(date: CalDate): string
    requires Printable(date)
  {
    Digits(date.day, 2) + ['-'] + Digits(date.month + 1, 2) + ['-'] + Digits(date.year, 4)
  }

  /** `"D_M_YYYY"`, the unpadded underscore form. */
  function UnderscoreText(date: CalDate): string
    requires Printable(date)
  {
    Dec(date.day) + ['_'] + Dec(date.month + 1) + ['_'] + Digits(date.year, 4)
  }

  /** `"D Mon YYYY"`, as in `"23 Jun 2025"`. */
  function LongText(date: CalDate): string
    requires Printable(date)
  {
    Dec(date.day) + [' '] + MonthNames[date.month] + [' '] + Digits(date.year, 4)
  }

  // ---------------------------------------------------------------------
  // Lemmas: numeric forms
  // ---------------------------------------------------------------------

  lemma DigitsExclude(s: string, c: char)
    requires AllDigits(s) && !IsDigit(c)
    ensures c !in s
  {
  }

  lemma PrintableFields(date: CalDate)
    requires Printable(date)
    ensures date.year < Pow10(4) && date.month + 1 < Pow10(2) && date.day < Pow10(2)
    ensures DecValue(Digits(date.year, 4)) == date.year
    ensures DecValue(Digits(date.month + 1, 2)) == date.month + 1
    ensures DecValue(Digits(date.day, 2)) == date.day
  {
    assert Pow10(2) == 100 && Pow10(4) == 10000;
    DigitsValue(date.year, 4);
    DigitsValue(date.month + 1, 2);
    DigitsValue(date.day, 2);
  }

  /** A string without a given separator splits into one block. */
  lemma OneBlockWithout(s: string, c: char)
    requires c !in s
    ensures |Split(s, c)| == 1
  {
    SplitNoSeparator(s, c);
  }

  /** The numeric fields of `"YYYY-MM-DD"`: the first branch. */
  lemma IsoFields(y: string, m: string, d: string)
    requires |y| == 4 && |m| == 2 && |d| == 2
    requires AllDigits(y) && AllDigits(m) && AllDigits(d)
    ensures NumericFields(y + ['-'] + m + ['-'] + d) == Some((DecValue(y), DecValue(m), DecValue(d)))
  {
    JoinedDigitsExclude(y, m, d, '-', '_');
  }

  /** The numeric fields of `"DD-MM-YYYY"`: not taken for the first form, read by the second branch. */
  lemma DashFields(d: string, m: string, y: string)
    requires |d| == 2 && |m| == 2 && |y| == 4
    requires AllDigits(d) && AllDigits(m) && AllDigits(y)
    ensures NumericFields(d + ['-'] + m + ['-'] + y) == Some((DecValue(y), DecValue(m), DecValue(d)))
  {
    JoinedDigitsExclude(d, m, y, '-', '_');
  }

  /** `"YYYY-MM-DD"` resolves to `new Date(YYYY, MM - 1, DD)`. */
  lemma IsoParsesToMakeDate(date: CalDate, fallback: string -> Option<CalDate>)
    requires Printable(date)
    ensures ParseDate(IsoText(date), fallback) == Some(MakeDate(date.year, date.month, date.day))
  {
    var s := IsoText(date);
    assert NumericFields(s) == Some((date.year, date.month + 1, date.day)) by {
      PrintableFields(date);
      IsoFields(Digits(date.year, 4), Digits(date.month + 1, 2), Digits(date.day, 2));
    }
    ParseDateOfFields(s, date.year, date.month + 1, date.day, fallback);
  }

  /** `"DD-MM-YYYY"` resolves to `new Date(YYYY, MM - 1, DD)`. */
  lemma DashParsesToMakeDate(date: CalDate, fallback: string -> Option<CalDate>)
    requires Printable(date)
    ensures ParseDate(DashText(date), fallback) == Some(MakeDate(date.year, date.month, date.day))
  {
    PrintableFields(date);
    DashFields(Digits(date.day, 2), Digits(date.month + 1, 2), Digits(date.year, 4));
    ParseDateOfFields(DashText(date), date.year, date.month + 1, date.day, fallback);
  }

  /** The regular expression `^\d{4}-\d{2}-\d{2}$` written position by position. */
  predicate IsoPattern(s: string) {
    && |s| == 10 && s[4] == '-' && s[7] == '-'
    && AllDigits(s[..4]) && AllDigits(s[5..7]) && AllDigits(s[8..])
  }

  /** The split-based reading of the first form accepts exactly the strings the regular expression does. */
  lemma IsoShapeIsPattern(s: string)
    ensures IsoShape(s) <==> IsoPattern(s)
  {
    if IsoPattern(s) {
      assert s == s[..4] + ['-'] + s[5..7] + ['-'] + s[8..];
      JoinedDigitsExclude(s[..4], s[5..7], s[8..], '-', '_');
    }
    if IsoShape(s) {
      var p := Split(s, '-');
      assert p[1..][1..] == [p[2]];
      assert Join(p[1..], '-') == p[1] + ['-'] + p[2];
      assert s == p[0] + ['-'] + (p[1] + ['-'] + p[2]);
      assert s[..4] == p[0] && s[5..7] == p[1] && s[8..] == p[2];
    }
  }

  /** The regular expression `^\d{2}-\d{2}-\d{4}$` written position by position. */
  predicate DashPattern(s: string) {
    && |s| == 10 && s[2] == '-' && s[5] == '-'
    && AllDigits(s[..2]) && AllDigits(s[3..5]) && AllDigits(s[6..])
  }

  /** The split-based reading of the second form accepts exactly the strings the regular expression does. */
  lemma DashShapeIsPattern(s: string)
    ensures DashDmyShape(s) <==> DashPattern(s)
  {
    if DashPattern(s) {
      assert s == s[..2] + ['-'] + s[3..5] + ['-'] + s[6..];
      JoinedDigitsExclude(s[..2], s[3..5], s[6..], '-', '_');
    }
    if DashDmyShape(s) {
      var p := Split(s, '-');
      ThreeBlocks(s, '-');
      assert s[..2] == p[0] && s[3..5] == p[1] && s[6..] == p[2];
    }
  }

  /**
    The regular expression `^\d{1,2}_\d{1,2}_\d{4}$` written position by
    position: underscores at `i` and `j`, digits everywhere else.
  */
  predicate UnderscorePattern(s: string) {
    exists i, j :: && 1 <= i <= 2 && i + 2 <= j <= i + 3 && |s| == j + 5
                   && s[i] == '_' && s[j] == '_'
                   && AllDigits(s[..i]) && AllDigits(s[i + 1..j]) && AllDigits(s[j + 1..])
  }

  /** The split-based reading of the third form accepts exactly the strings the regular expression does. */
  lemma UnderscoreShapeIsPattern(s: string)
    ensures UnderscoreShape(s) <==> UnderscorePattern(s)
  {
    if UnderscorePattern(s) {
      var i, j :| && 1 <= i <= 2 && i + 2 <= j <= i + 3 && |s| == j + 5
                  && s[i] == '_' && s[j] == '_'
                  && AllDigits(s[..i]) && AllDigits(s[i + 1..j]) && AllDigits(s[j + 1..]);
      UnderscorePatternShape(s, i, j);
    }
    if UnderscoreShape(s) {
      UnderscoreShapePattern(s);
    }
  }

  /** From positions to blocks: a string the pattern accepts has the third form. */
  lemma UnderscorePatternShape(s: string, i: int, j: int)
    requires && 1 <= i <= 2 && i + 2 <= j <= i + 3 && |s| == j + 5
             && s[i] == '_' && s[j] == '_'
             && AllDigits(s[..i]) && AllDigits(s[i + 1..j]) && AllDigits(s[j + 1..])
    ensures UnderscoreShape(s)
  {
    assert s == s[..i] + ['_'] + s[i + 1..j] + ['_'] + s[j + 1..];
    JoinedDigitsExclude(s[..i], s[i + 1..j], s[j + 1..], '_', '-');
  }

  /** From blocks to positions: the underscores sit after the first and second blocks. */
  lemma UnderscoreShapePattern(s: string)
    requires UnderscoreShape(s)
    ensures UnderscorePattern(s)
  {
    var p := Split(s, '_');
    ThreeBlocks(s, '_');
    var i, j := |p[0]|, |p[0]| + 1 + |p[1]|;
    assert s[..i] == p[0] && s[i + 1..j] == p[1] && s[j + 1..] == p[2];
    assert s[i] == '_' && s[j] == '_';
  }

  /** A string that splits into three blocks is the blocks joined by the separator. */
  lemma ThreeBlocks(s: string, c: char)
    requires |Split(s, c)| == 3
    ensures var p := Split(s, c); s == p[0] + [c] + p[1] + [c] + p[2]
  {
    var p := Split(s, c);
    assert p[1..][1..] == [p[2]];
    assert Join(p[1..], c) == p[1] + [c] + p[2];
    assert s == p[0] + [c] + (p[1] + [c] + p[2]);
  }

  /** A string without a dash matches neither dash form. */
  lemma NoDashNoDashShape(s: string)
    requires '-' !in s
    ensures !IsoShape(s) && !DashDmyShape(s)
  {
    OneBlockWithout(s, '-');
  }

  /** `ParseDate` on a string whose numeric fields are known. */
  lemma ParseDateOfFields(s: string, y: int, m: int, d: int, fallback: string -> Option<CalDate>)
    requires NumericFields(s) == Some((y, m, d))
    ensures ParseDate(s, fallback) == Some(MakeDate(y, m - 1, d))
  {
  }

  /** Three digit blocks joined by `c` contain neither `c`-free separator but `c`. */
  lemma JoinedDigitsExclude(d: string, m: string, y: string, c: char, e: char)
    requires AllDigits(d) && AllDigits(m) && AllDigits(y)
    requires !IsDigit(c) && !IsDigit(e) && c != e
    ensures e !in d + [c] + m + [c] + y
    ensures Split(d + [c] + m + [c] + y, c) == [d, m, y]
  {
    DigitsExclude(y, c); DigitsExclude(m, c); DigitsExclude(d, c);
    DigitsExclude(y, e); DigitsExclude(m, e); DigitsExclude(d, e);
    SplitThree(d, m, y, c);
  }

  /** The numeric fields of `"D_M_YYYY"`: the two dash forms are ruled out first. */
  lemma UnderscoreFields(d: string, m: string, y: string)
    requires 1 <= |d| <= 2 && 1 <= |m| <= 2 && |y| == 4
    requires AllDigits(d) && AllDigits(m) && AllDigits(y)
    ensures NumericFields(d + ['_'] + m + ['_'] + y) == Some((DecValue(y), DecValue(m), DecValue(d)))
  {
    var s := d + ['_'] + m + ['_'] + y;
    JoinedDigitsExclude(d, m, y, '_', '-');
    NoDashNoDashShape(s);
    assert UnderscoreShape(s);
  }

  /** `"D_M_YYYY"` matches neither dash form and resolves through the third branch. */
  lemma UnderscoreParsesToMakeDate(date: CalDate, fallback: string -> Option<CalDate>)
    requires Printable(date)
    ensures ParseDate(UnderscoreText(date), fallback) == Some(MakeDate(date.year, date.month, date.day))
  {
    PrintableFields(date);
    UnderscoreFields(Dec(date.day), Dec(date.month + 1), Digits(date.year, 4));
    ParseDateOfFields(UnderscoreText(date), date.year, date.month + 1, date.day, fallback);
  }

  /**
    For a real calendar day with a year of 100 or more, `"2025-06-23"`,
    `"23-06-2025"` and `"23_6_2025"` all resolve to the same triple, with
    the month 0-based.
  */
  lemma NumericFormsAgree(date: CalDate, fallback: string -> Option<CalDate>)
    requires Printable(date) && Valid(date) && date.year >= 100
    ensures ParseDate(IsoText(date), fallback) == Some(date)
    ensures ParseDate(DashText(date), fallback) == Some(date)
    ensures ParseDate(UnderscoreText(date), fallback) == Some(date)
  {
    IsoParsesToMakeDate(date, fallback);
    DashParsesToMakeDate(date, fallback);
    UnderscoreParsesToMakeDate(date, fallback);
    MakeDateOfValid(date);
  }

  /** A day that does not exist is not rejected: `"2025-02-30"` is the 2nd of March. */
  lemma IsoRollsOver(fallback: string -> Option<CalDate>)
    ensures ParseDate(IsoText(CalDate(2025, 1, 30)), fallback) == Some(CalDate(2025, 2, 2))
  {
    IsoParsesToMakeDate(CalDate(2025, 1, 30), fallback);
    FebruaryThirtieth();
  }

  /** `new Date(2025, 1, 30)` is the 2nd of March 2025. */
  lemma FebruaryThirtieth()
    ensures MakeDate(2025, 1, 30) == CalDate(2025, 2, 2)
  {
    assert !IsLeap(2025) && DaysIn(2025, 1) == 28;
    assert MakeDate(2025, 1, 30) == RollForward(2025, 1, 30);
    assert RollForward(2025, 1, 30) == RollForward(2025, 2, 2) == CalDate(2025, 2, 2);
  }

  // ---------------------------------------------------------------------
  // Lemmas: the text path
  // ---------------------------------------------------------------------

  lemma MonthNameFacts(j: nat)
    requires j < 12
    ensures |MonthNames[j]| == 3 && AllLetters(MonthNames[j])
  {
  }

  lemma MonthNamesDistinct(j: nat, k: nat)
    requires j < 12 && k < 12 && j != k
    ensures MonthNames[j] != MonthNames[k]
  {
  }

  /** In `a + name + b` with no letter in `a` or `b`, the only month abbreviation found is `name`. */
  lemma OnlyMonthBetween(a: string, m: nat, b: string, j: nat)
    requires m < 12 && j < 12 && j != m
    requires forall i :: 0 <= i < |a| ==> !IsLetter(a[i])
    requires |b| > 0 && forall i :: 0 <= i < |b| ==> !IsLetter(b[i])
    ensures !Contains(a + MonthNames[m] + b, MonthNames[j])
  {
    var s := a + MonthNames[m] + b;
    var w := MonthNames[j];
    MonthNameFacts(j);
    MonthNameFacts(m);
    MonthNamesDistinct(j, m);
    forall i | 0 <= i <= |s| - |w| ensures !OccursAt(s, w, i) {
      var window := s[i..i + 3];
      assert IsLetter(w[0]) && IsLetter(w[1]) && IsLetter(w[2]);
      if i < |a| {
        assert window[0] == a[i];
      } else if i == |a| {
        assert window == MonthNames[m];
      } else if i == |a| + 1 {
        assert window[2] == b[0];
      } else if i == |a| + 2 {
        assert window[1] == b[0];
      } else {
        assert window[0] == b[i - |a| - 3];
      }
    }
  }

  lemma NoLetterInDigits(s: string)
    requires AllDigits(s)
    ensures forall i :: 0 <= i < |s| ==> !IsLetter(s[i])
  {
  }

  /** The text path, once its ingredients are known: the first token, the month search and the last token. */
  lemma TextPartsOf(s: string, p: seq<string>, day: int, month: nat, year: int)
    requires ' ' in s && Split(s, ' ') == p && |p| >= 3
    requires ParseInt(p[0]) == Some(day)
    requires FindMonth(s) == Some(month)
    requires ParseInt(RemoveFirst(p[|p| - 1], ',')) == Some(year)
    ensures TextParts(s) == Some(CalDate(year, RemapMay(month), day))
  {
    assert TextParts(s) == TokenFields(p, Some(month));
  }

  lemma MonthNameNoSpace(m: nat)
    requires m < 12
    ensures ' ' !in MonthNames[m] && ',' !in MonthNames[m]
  {
  }

  /** `"D Mon YYYY"` splits on spaces into day, abbreviation and year. */
  lemma LongTextSplit(date: CalDate)
    requires Printable(date)
    ensures ' ' in LongText(date)
    ensures Split(LongText(date), ' ') == [Dec(date.day), MonthNames[date.month], Digits(date.year, 4)]
  {
    var d, n, y := Dec(date.day), MonthNames[date.month], Digits(date.year, 4);
    MonthNameNoSpace(date.month);
    DigitsExclude(d, ' '); DigitsExclude(y, ' ');
    SplitThree(d, n, y, ' ');
    assert LongText(date)[|d|] == ' ';
  }

  /** The month search finds the one abbreviation a string contains. */
  lemma FindOnlyMonth(s: string, m: nat)
    requires m < 12 && Contains(s, MonthNames[m])
    requires forall j :: 0 <= j < 12 && j != m ==> !Contains(s, MonthNames[j])
    ensures FindMonth(s) == Some(m)
  {
    var r := FindMonth(s);
    assert r.Some?;
  }

  /** Between letter-free text the month search finds exactly the abbreviation placed there. */
  lemma MonthBetween(a: string, m: nat, b: string)
    requires m < 12
    requires forall i :: 0 <= i < |a| ==> !IsLetter(a[i])
    requires |b| > 0 && forall i :: 0 <= i < |b| ==> !IsLetter(b[i])
    ensures FindMonth(a + MonthNames[m] + b) == Some(m)
  {
    ContainsMiddle(a, MonthNames[m], b);
    forall j | 0 <= j < 12 && j != m ensures !Contains(a + MonthNames[m] + b, MonthNames[j]) {
      OnlyMonthBetween(a, m, b, j);
    }
    FindOnlyMonth(a + MonthNames[m] + b, m);
  }

  /** The month search on `"D Mon YYYY"` finds exactly `Mon`. */
  lemma LongTextMonth(date: CalDate)
    requires Printable(date)
    ensures FindMonth(LongText(date)) == Some(date.month)
  {
    var d, n, y := Dec(date.day), MonthNames[date.month], Digits(date.year, 4);
    var a := d + [' '];
    var b := [' '] + y;
    assert LongText(date) == a + n + b;
    NoLetterInDigits(d);
    NoLetterInDigits(y);
    NoLetterConcat(d, [' ']);
    NoLetterConcat([' '], y);
    MonthBetween(a, date.month, b);
  }

  /** The text path on `"D Mon YYYY"`: day, (remapped) month and year, read back as printed. */
  lemma LongTextParts(date: CalDate)
    requires Printable(date)
    ensures TextParts(LongText(date)) == Some(CalDate(date.year, RemapMay(date.month), date.day))
  {
    var d, y := Dec(date.day), Digits(date.year, 4);
    LongTextSplit(date);
    LongTextMonth(date);
    ParseIntDigits(d);
    DigitsExclude(y, ',');
    PrintableFields(date);
    ParseIntDigits(y);
    TextPartsOf(LongText(date), [d, MonthNames[date.month], y], date.day, date.month, date.year);
  }

  /** `"D Mon YYYY t"` with a trailing letter-free token splits into four tokens. */
  lemma LongTextTokenSplit(date: CalDate, t: string)
    requires Printable(date) && ' ' !in t
    ensures ' ' in LongText(date) + [' '] + t
    ensures Split(LongText(date) + [' '] + t, ' ') == [Dec(date.day), MonthNames[date.month], Digits(date.year, 4), t]
  {
    assert (LongText(date) + [' '] + t)[|LongText(date)|] == ' ';
    var d, n, y := Dec(date.day), MonthNames[date.month], Digits(date.year, 4);
    MonthNameNoSpace(date.month);
    DigitsExclude(d, ' '); DigitsExclude(y, ' ');
    SplitFour(d, n, y, t, ' ');
  }

  /**
    The year is read from the LAST token, whatever it is: `"D Mon YYYY t"`
    with a trailing letter-free token `t` takes its year from `t`, and
    the text path fails when `t` does not start with a number.
  */
  lemma TrailingTokenIsYear(date: CalDate, t: string)
    requires Printable(date) && ' ' !in t && |t| > 0
    requires forall i :: 0 <= i < |t| ==> !IsLetter(t[i])
    ensures ParseInt(RemoveFirst(t, ',')).None? ==> TextParts(LongText(date) + [' '] + t) == None
    ensures ParseInt(RemoveFirst(t, ',')).Some? ==>
              TextParts(LongText(date) + [' '] + t)
              == Some(CalDate(ParseInt(RemoveFirst(t, ',')).value, RemapMay(date.month), date.day))
  {
    var d, n, y := Dec(date.day), MonthNames[date.month], Digits(date.year, 4);
    var s := LongText(date) + [' '] + t;
    LongTextTokenSplit(date, t);
    LongTextTokenMonth(date, t);
    ParseIntDigits(d);
    FourTokenText(s, d, n, y, t, date.day, date.month);
  }

  /** The text path over four tokens whose first is the day and whose month is known. */
  lemma FourTokenText(s: string, d: string, n: string, y: string, t: string, day: int, month: nat)
    requires ' ' in s && Split(s, ' ') == [d, n, y, t]
    requires FindMonth(s) == Some(month)
    requires ParseInt(d) == Some(day)
    ensures ParseInt(RemoveFirst(t, ',')).None? ==> TextParts(s) == None
    ensures ParseInt(RemoveFirst(t, ',')).Some? ==>
              TextParts(s) == Some(CalDate(ParseInt(RemoveFirst(t, ',')).value, RemapMay(month), day))
  {
    TextPartsByTokens(s, [d, n, y, t], month);
    FourTokenFields(d, n, y, t, day, month);
  }

  /** The field reading of four tokens: the day from the first, the year from the fourth. */
  lemma FourTokenFields(d: string, n: string, y: string, t: string, day: int, month: nat)
    requires ParseInt(d) == Some(day)
    ensures ParseInt(RemoveFirst(t, ',')).None? ==> TokenFields([d, n, y, t], Some(month)) == None
    ensures ParseInt(RemoveFirst(t, ',')).Some? ==>
              TokenFields([d, n, y, t], Some(month)) == Some(CalDate(ParseInt(RemoveFirst(t, ',')).value, RemapMay(month), day))
  {
    var p := [d, n, y, t];
    assert p[0] == d && p[|p| - 1] == t;
  }

  /** Once the tokens and the month are known, the text path is the field reading alone. */
  lemma TextPartsByTokens(s: string, p: seq<string>, month: nat)
    requires ' ' in s && Split(s, ' ') == p
    requires FindMonth(s) == Some(month)
    ensures TextParts(s) == TokenFields(p, Some(month))
  {
  }

  /** The month search on `"D Mon YYYY t"` with a letter-free `t` still finds `Mon`. */
  lemma LongTextTokenMonth(date: CalDate, t: string)
    requires Printable(date)
    requires forall i :: 0 <= i < |t| ==> !IsLetter(t[i])
    ensures FindMonth(LongText(date) + [' '] + t) == Some(date.month)
  {
    var d, n, y := Dec(date.day), MonthNames[date.month], Digits(date.year, 4);
    NoLetterInDigits(d);
    NoLetterInDigits(y);
    var a := d + [' '];
    var b := [' '] + y + [' '] + t;
    NoLetterConcat(d, [' ']);
    NoLetterConcat([' '], y);
    NoLetterConcat([' '] + y, [' ']);
    NoLetterConcat([' '] + y + [' '], t);
    var x := d + [' '] + n;
    SeqAssoc(x, [' '], y);
    SeqAssoc(x, [' '] + y, [' ']);
    SeqAssoc(x, [' '] + y + [' '], t);
    assert LongText(date) + [' '] + t == x + b;
    MonthBetween(a, date.month, b);
  }

  /** Two letter-free strings make a letter-free string. */
  lemma NoLetterConcat(x: string, z: string)
    requires forall i :: 0 <= i < |x| ==> !IsLetter(x[i])
    requires forall i :: 0 <= i < |z| ==> !IsLetter(z[i])
    ensures forall i :: 0 <= i < |x + z| ==> !IsLetter((x + z)[i])
  {
  }

  /** A booking time after the year is read as the year: `"23 Jun 2025 10:30"` gives the year 10. */
  lemma TimeSuffixReadAsYear(date: CalDate)
    requires Printable(date)
    ensures TextParts(LongText(date) + [' '] + "10:30") == Some(CalDate(10, RemapMay(date.month), date.day))
  {
    TimeToken();
    TrailingTokenIsYear(date, "10:30");
  }

  /** `"10:30"` is a letter- and space-free token that `parseInt` reads as 10. */
  lemma TimeToken()
    ensures ' ' !in "10:30" && forall i :: 0 <= i < |"10:30"| ==> !IsLetter("10:30"[i])
    ensures ParseInt(RemoveFirst("10:30", ',')) == Some(10)
  {
    assert RemoveFirst("10:30", ',') == "10:30";
    assert "10:30" == "10" + ":30";
    assert DecValue("10") == 10;
    ParseIntPrefix("10", ":30");
  }

  /**
    Outside May, a text-form date and the numeric forms of the same real
    calendar day resolve to the same triple: `"23 Jun 2025"` and
    `"23_6_2025"` both give (2025, 5, 23).
  */
  lemma TextAgreesWithNumeric(date: CalDate, fallback: string -> Option<CalDate>)
    requires Printable(date) && Valid(date) && date.year >= 100
    requires date.month != 4
    ensures ExtractDateParts(LongText(date), fallback) == Some(date)
    ensures ExtractDateParts(UnderscoreText(date), fallback) == Some(date)
    ensures ExtractDateParts(IsoText(date), fallback) == Some(date)
    ensures ExtractDateParts(DashText(date), fallback) == Some(date)
  {
    LongTextParts(date);
    NumericFormsAgree(date, fallback);
    NumericFormsHaveNoSpace(date);
  }

  /** In May the two disagree: the text path reports April, the numeric forms report May. */
  lemma TextDisagreesInMay(date: CalDate, fallback: string -> Option<CalDate>)
    requires Printable(date) && Valid(date) && date.year >= 100
    requires date.month == 4
    ensures ExtractDateParts(LongText(date), fallback) == Some(date.(month := 3))
    ensures ExtractDateParts(UnderscoreText(date), fallback) == Some(date)
  {
    LongTextParts(date);
    NumericFormsAgree(date, fallback);
    NumericFormsHaveNoSpace(date);
  }

  /** A string without a space never takes the text path. */
  lemma NoTextPathWithoutSpace(s: string)
    requires ' ' !in s
    ensures TextParts(s) == None
  {
  }

  /** None of the numeric forms takes the text path. */
  lemma NumericFormsHaveNoSpace(date: CalDate)
    requires Printable(date)
    ensures TextParts(IsoText(date)) == None
    ensures TextParts(DashText(date)) == None
    ensures TextParts(UnderscoreText(date)) == None
  {
    var y4, m2, d2 := Digits(date.year, 4), Digits(date.month + 1, 2), Digits(date.day, 2);
    JoinedDigitsExclude(y4, m2, d2, '-', ' ');
    JoinedDigitsExclude(d2, m2, y4, '-', ' ');
    JoinedDigitsExclude(Dec(date.day), Dec(date.month + 1), y4, '_', ' ');
    NoTextPathWithoutSpace(IsoText(date));
    NoTextPathWithoutSpace(DashText(date));
    NoTextPathWithoutSpace(UnderscoreText(date));
  }
}
