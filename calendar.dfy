/**
 * The part of `datetime` the release-date normalisation uses: parsing with the
 * format "%B %d, %Y" (`datetime.strptime`), the calendar check that the parsed
 * date is real, and formatting with "%Y-%m-%d" (`date.strftime`).
 *
 * The grammar is the regular expression CPython builds for that format:
 * a full English month name matched without regard to case, a run of
 * whitespace, the day as `3[01]|[12]\d|0[1-9]|[1-9]`, a literal comma, a run of
 * whitespace, the year as exactly four digits, and nothing after it.
 */
module Calendar {
  import opened Py

  datatype Date = Date(year: int, month: int, day: int)

  /** The Gregorian leap-year rule. */
  predicate IsLeapYear(y: int)
  {
    y % 4 == 0 && (y % 100 != 0 || y % 400 == 0)
  }

  function DaysInMonth(month: int, year: int): int
    requires 1 <= month <= 12
  {
    if month == 2 then (if IsLeapYear(year) then 29 else 28)
    else if month == 4 || month == 6 || month == 9 || month == 11 then 30
    else 31
  }

  /** A date `datetime.date` accepts: a year from 1 to 9999, a month from 1 to 12, a day within that month. */
  predicate IsValid(d: Date)
  {
    1 <= d.year <= 9999 && 1 <= d.month <= 12 && 1 <= d.day <= DaysInMonth(d.month, d.year)
  }

  /** The month names as `%B` compares them: lower-cased. */
  const MonthKeys: seq<string> :=
    ["january", "february", "march", "april", "may", "june",
     "july", "august", "september", "october", "november", "december"]

  // ---------------------------------------------------------------------------
  // Digits
  // ---------------------------------------------------------------------------

  predicate IsDigit(c: char)
  {
    '0' <= c <= '9'
  }

  predicate AllDigits(s: string)
  {
    forall i :: 0 <= i < |s| ==> IsDigit(s[i])
  }

  /** `int(s)` for a string of ASCII digits. */
  function Decimal(s: string): nat
    requires AllDigits(s)
  {
    if s == [] then 0 else Decimal(s[..|s| - 1]) * 10 + (s[|s| - 1] as int - '0' as int)
  }

  function Pow10(k: nat): nat
  {
    if k == 0 then 1 else 10 * Pow10(k - 1)
  }

  /** The last `width` decimal digits of `n`, zero-padded: what `%04d` or `%02d` prints for a number that fits. */
  function Digits(n: nat, width: nat): (r: string)
    ensures |r| == width && AllDigits(r)
  {
    if width == 0 then [] else Digits(n / 10, width - 1) + [('0' as int + n % 10) as char]
  }

  /** Reading back the digits of a number that fits in `width` digits gives the number. */
  lemma {:induction false} DigitsDecimal(n: nat, width: nat)
    requires n < Pow10(width)
    ensures Decimal(Digits(n, width)) == n
  {
    if width > 0 {
      assert n / 10 < Pow10(width - 1);
      DigitsDecimal(n / 10, width - 1);
      var r := Digits(n, width);
      assert r[..|r| - 1] == Digits(n / 10, width - 1);
    }
  }

  // ---------------------------------------------------------------------------
  // Scanning
  // ---------------------------------------------------------------------------

  /** The end of the run of non-whitespace characters that starts at `i`. */
  function WordEnd(s: string, i: nat): (j: nat)
    requires i <= |s|
    ensures i <= j <= |s|
    decreases |s| - i
  {
    if i == |s| || IsSpace(s[i]) then i else WordEnd(s, i + 1)
  }

  /** The end of the run of whitespace characters that starts at `i`. */
  function SpaceEnd(s: string, i: nat): (j: nat)
    requires i <= |s|
    ensures i <= j <= |s|
    decreases |s| - i
  {
    if i == |s| || !IsSpace(s[i]) then i else SpaceEnd(s, i + 1)
  }

  lemma {:induction false} WordEndAt(s: string, i: nat, e: nat)
    requires i <= e <= |s|
    requires forall k :: i <= k < e ==> !IsSpace(s[k])
    requires e == |s| || IsSpace(s[e])
    ensures WordEnd(s, i) == e
    decreases e - i
  {
    if i < e {
      WordEndAt(s, i + 1, e);
    }
  }

  lemma {:induction false} SpaceEndAt(s: string, i: nat, e: nat)
    requires i <= e <= |s|
    requires forall k :: i <= k < e ==> IsSpace(s[k])
    requires e == |s| || !IsSpace(s[e])
    ensures SpaceEnd(s, i) == e
    decreases e - i
  {
    if i < e {
      SpaceEndAt(s, i + 1, e);
    }
  }

  // ---------------------------------------------------------------------------
  // %B, %d, %Y
  // ---------------------------------------------------------------------------

  function MonthFrom(key: string, k: nat): (m: nat)
    requires k <= 12
    ensures m == 0 || k < m <= 12
    ensures m > 0 ==> key == MonthKeys[m - 1]
    ensures m > 0 ==> forall j :: k <= j < m - 1 ==> key != MonthKeys[j]
    ensures m == 0 ==> forall j :: k <= j < 12 ==> key != MonthKeys[j]
    decreases 12 - k
  {
    if k == 12 then 0 else if key == MonthKeys[k] then k + 1 else MonthFrom(key, k + 1)
  }

  /** `%B`: the number (1 to 12) of the English month whose name equals `word` ignoring ASCII case, or 0 when none does. */
  function MonthNumber(word: string): (m: nat)
    ensures m <= 12
    ensures m > 0 ==> Lower(word) == MonthKeys[m - 1]
    ensures m == 0 ==> forall j :: 0 <= j < 12 ==> Lower(word) != MonthKeys[j]
  {
    MonthFrom(Lower(word), 0)
  }

  /** `%d`: one or two ASCII digits whose value is between 1 and 31. */
  predicate IsDayText(t: string)
  {
    1 <= |t| <= 2 && AllDigits(t) && 1 <= Decimal(t) <= 31
  }

  /**
   * `datetime.strptime(s, "%B %d, %Y")`: `None` where the call raises `ValueError`
   * (the text does not match, or it names a day the calendar does not have).
   * The scan goes in three stages: the month word and the whitespace after it,
   * then the day and its comma (`ParseDay`), then the whitespace and the year
   * (`ParseYear`).
   */
  function ParseDate(s: string): (r: Option<Date>)
    ensures r.Some? ==> IsValid(r.value)
  {
    var m := WordEnd(s, 0);
    var month := MonthNumber(s[..m]);
    var rest := s[m..];
    var k := SpaceEnd(rest, 0);
    if month == 0 || k == 0 then None else ParseDay(rest[k..], month)
  }

  /** `%d,`: one or two digits, then the comma. */
  function ParseDay(t: string, month: int): (r: Option<Date>)
    ensures r.Some? ==> IsValid(r.value)
  {
    var c := if 1 < |t| && t[1] == ',' then 1 else 2;
    if c >= |t| || t[c] != ',' || !IsDayText(t[..c]) then None
    else ParseYear(t[c + 1..], month, Decimal(t[..c]))
  }

  /** ` %Y` and the end of the text, then the calendar check. */
  function ParseYear(u: string, month: int, day: int): (r: Option<Date>)
    ensures r.Some? ==> IsValid(r.value)
  {
    var k := SpaceEnd(u, 0);
    if k == 0 || |u| - k != 4 || !AllDigits(u[k..]) then None
    else
      var date := Date(Decimal(u[k..]), month, day);
      if IsValid(date) then Some(date) else None
  }

  /** `date.strftime("%Y-%m-%d")`. */
  function IsoDate(d: Date): (r: string)
    requires IsValid(d)
    ensures |r| == 10 && r[4] == '-' && r[7] == '-'
  {
    Digits(d.year, 4) + "-" + Digits(d.month, 2) + "-" + Digits(d.day, 2)
  }

  /** The ISO text encodes the date: its three digit groups read back as year, month and day. */
  lemma {:induction false} IsoDateDecodes(d: Date)
    requires IsValid(d)
    ensures AllDigits(IsoDate(d)[..4]) && Decimal(IsoDate(d)[..4]) == d.year
    ensures AllDigits(IsoDate(d)[5..7]) && Decimal(IsoDate(d)[5..7]) == d.month
    ensures AllDigits(IsoDate(d)[8..]) && Decimal(IsoDate(d)[8..]) == d.day
  {
    var r := IsoDate(d);
    assert r[..4] == Digits(d.year, 4);
    assert r[5..7] == Digits(d.month, 2);
    assert r[8..] == Digits(d.day, 2);
    assert Pow10(2) == 100 && Pow10(4) == 10000 by {
      assert Pow10(1) == 10;
      assert Pow10(3) == 1000;
    }
    DigitsDecimal(d.year, 4);
    DigitsDecimal(d.month, 2);
    DigitsDecimal(d.day, 2);
  }

  /** Distinct dates have distinct ISO texts. */
  lemma {:induction false} IsoDateInjective(a: Date, b: Date)
    requires IsValid(a) && IsValid(b)
    requires IsoDate(a) == IsoDate(b)
    ensures a == b
  {
    IsoDateDecodes(a);
    IsoDateDecodes(b);
  }

  // ---------------------------------------------------------------------------
  // The English form and the round trip
  // ---------------------------------------------------------------------------

  /** The day as a page prints it: without a leading zero. */
  function DayText(day: nat): string
  {
    if day < 10 then Digits(day, 1) else Digits(day, 2)
  }

  /** "<Month> <day>, <yyyy>", the form a release page prints after the word "released"; `word` is the month's name in any letter case. */
  function EnglishDate(word: string, year: nat, day: nat): string
  {
    word + " " + DayText(day) + ", " + Digits(year, 4)
  }

  predicate IsLowerLetter(c: char)
  {
    'a' <= c <= 'z'
  }

  lemma MonthKeysLower()
    ensures forall j, i :: 0 <= j < 12 && 0 <= i < |MonthKeys[j]| ==> IsLowerLetter(MonthKeys[j][i])
  {
  }

  lemma MonthKeysDistinct()
    ensures forall j, k :: 0 <= j < k < 12 ==> |MonthKeys[j]| > 0 && MonthKeys[j] != MonthKeys[k]
  {
  }

  lemma {:induction false} MonthKeyLetters(j: int)
    requires 0 <= j < 12
    ensures |MonthKeys[j]| > 0 && forall i :: 0 <= i < |MonthKeys[j]| ==> IsLowerLetter(MonthKeys[j][i])
  {
    MonthKeysLower();
    MonthKeysDistinct();
  }

  lemma {:induction false} MonthWordNumber(word: string, month: int)
    requires 1 <= month <= 12 && Lower(word) == MonthKeys[month - 1]
    ensures MonthNumber(word) == month
  {
    MonthKeysDistinct();
  }

  lemma {:induction false} MonthWordNoSpace(word: string, key: string)
    requires Lower(word) == key
    requires |key| > 0 && forall i :: 0 <= i < |key| ==> IsLowerLetter(key[i])
    ensures |word| > 0 && forall i :: 0 <= i < |word| ==> !IsSpace(word[i])
  {
    forall i | 0 <= i < |word| ensures !IsSpace(word[i]) {
      assert Lower(word)[i] == LowerChar(word[i]);
      assert IsLowerLetter(key[i]);
    }
  }

  /** A month name in any letter case is recognised as its month, and contains no whitespace. */
  lemma {:induction false} MonthWord(word: string, month: int)
    requires 1 <= month <= 12 && Lower(word) == MonthKeys[month - 1]
    ensures MonthNumber(word) == month
    ensures |word| > 0 && forall i :: 0 <= i < |word| ==> !IsSpace(word[i])
  {
    MonthWordNumber(word, month);
    MonthKeyLetters(month - 1);
    MonthWordNoSpace(word, MonthKeys[month - 1]);
  }

  /** ` %Y` over any run of whitespace and four digits: the year they spell, if the date is real. */
  lemma {:induction false} ParseYearForm(w2: string, yt: string, month: int, day: int)
    requires IsSpaceRun(w2) && |yt| == 4 && AllDigits(yt)
    ensures ParseYear(w2 + yt, month, day)
            == (if IsValid(Date(Decimal(yt), month, day)) then Some(Date(Decimal(yt), month, day)) else None)
  {
    var u := w2 + yt;
    var n := |w2|;
    forall k | 0 <= k < n ensures IsSpace(u[k]) {
      assert u[k] == w2[k];
    }
    assert u[n] == yt[0] && IsDigit(u[n]);
    SpaceEndAt(u, 0, n);
    assert u[n..] == yt;
  }

  /** `%d,` over the day's digits and a comma: the rest goes to the year. */
  lemma {:induction false} ParseDayForm(dt: string, u: string, month: int)
    requires IsDayText(dt)
    ensures ParseDay(dt + "," + u, month) == ParseYear(u, month, Decimal(dt))
  {
    var t := dt + "," + u;
    assert t[|dt|] == ',';
    if |dt| == 2 {
      assert t[1] == dt[1] && IsDigit(t[1]);
    }
    assert t[..|dt|] == dt;
    assert t[|dt| + 1..] == u;
  }

  /** `%B ` over a month word and any run of whitespace: the rest goes to the day. */
  lemma {:induction false} ParseDateForm(word: string, w1: string, t: string, month: int)
    requires 1 <= month <= 12 && MonthNumber(word) == month
    requires |word| > 0 && forall i :: 0 <= i < |word| ==> !IsSpace(word[i])
    requires IsSpaceRun(w1)
    requires |t| > 0 && !IsSpace(t[0])
    ensures ParseDate(word + w1 + t) == ParseDay(t, month)
  {
    var s := word + w1 + t;
    var n := |word|;
    forall k | 0 <= k < n ensures !IsSpace(s[k]) {
      assert s[k] == word[k];
    }
    assert s[n] == w1[0];
    WordEndAt(s, 0, n);
    assert s[..n] == word;
    var rest := s[n..];
    assert rest == w1 + t;
    forall k | 0 <= k < |w1| ensures IsSpace(rest[k]) {
      assert rest[k] == w1[k];
    }
    assert rest[|w1|] == t[0];
    SpaceEndAt(rest, 0, |w1|);
    assert rest[|w1|..] == t;
  }

  /** The scan of `ParseDate` over text of the English form: every separator is found where it was put. */
  lemma {:induction false} ParseEnglishForm(word: string, dt: string, yt: string, month: int)
    requires 1 <= month <= 12 && MonthNumber(word) == month
    requires |word| > 0 && forall i :: 0 <= i < |word| ==> !IsSpace(word[i])
    requires IsDayText(dt)
    requires |yt| == 4 && AllDigits(yt)
    ensures ParseDate(word + " " + dt + ", " + yt)
            == (if IsValid(Date(Decimal(yt), month, Decimal(dt))) then Some(Date(Decimal(yt), month, Decimal(dt))) else None)
  {
    assert IsSpaceRun(" ");
    ParseStages(word, " ", dt, " ", yt, month);
    assert word + " " + dt + ", " + yt == word + " " + (dt + "," + (" " + yt));
  }

  /**
   * The round trip for every date written in the English form, whatever the
   * letter case of the month: it parses back to that date exactly when the date
   * is real (so "February 29, 2021", "June 31, 2021" and year 0000 are refused,
   * "February 29, 2020" is accepted), and is refused otherwise.
   */
  lemma {:induction false} EnglishDateParses(word: string, year: nat, month: int, day: nat)
    requires 1 <= month <= 12 && Lower(word) == MonthKeys[month - 1]
    requires 1 <= day <= 31 && year <= 9999
    ensures ParseDate(EnglishDate(word, year, day))
            == (if IsValid(Date(year, month, day)) then Some(Date(year, month, day)) else None)
  {
    MonthWord(word, month);
    assert Pow10(1) == 10 && Pow10(2) == 100 && Pow10(4) == 10000 by {
      assert Pow10(3) == 1000;
    }
    DigitsDecimal(year, 4);
    if day < 10 { DigitsDecimal(day, 1); } else { DigitsDecimal(day, 2); }
    ParseEnglishForm(word, DayText(day), Digits(year, 4), month);
  }

  // ---------------------------------------------------------------------------
  // What a successful parse has read
  // ---------------------------------------------------------------------------

  /** A non-empty run of whitespace, as `\s+` matches it. */
  predicate IsSpaceRun(w: string)
  {
    |w| > 0 && forall i :: 0 <= i < |w| ==> IsSpace(w[i])
  }

  /**
   * `s` is "<month><spaces><day>,<spaces><year>" and names `d`: the month word
   * is `d`'s month name in some letter case, the day has one or two digits and
   * the year four, and they read as `d`'s day and year.
   */
  predicate HasDateForm(s: string, d: Date, word: string, w1: string, dt: string, w2: string, yt: string)
  {
    && s == word + w1 + dt + "," + w2 + yt
    && 1 <= d.month <= 12 && Lower(word) == MonthKeys[d.month - 1]
    && IsSpaceRun(w1) && IsSpaceRun(w2)
    && IsDayText(dt) && Decimal(dt) == d.day
    && |yt| == 4 && AllDigits(yt) && Decimal(yt) == d.year
  }

  lemma {:induction false} SpaceEndRun(s: string, i: nat)
    requires i <= |s|
    ensures forall j :: i <= j < SpaceEnd(s, i) ==> IsSpace(s[j])
    decreases |s| - i
  {
    if i < |s| && IsSpace(s[i]) {
      SpaceEndRun(s, i + 1);
    }
  }

  /** What `ParseYear` accepts: a run of whitespace, then four digits that name the year. */
  lemma {:induction false} ParseYearShape(u: string, month: int, day: int) returns (w2: string, yt: string)
    requires ParseYear(u, month, day).Some?
    ensures u == w2 + yt && IsSpaceRun(w2) && |yt| == 4 && AllDigits(yt)
    ensures ParseYear(u, month, day) == Some(Date(Decimal(yt), month, day))
  {
    var k := SpaceEnd(u, 0);
    SpaceEndRun(u, 0);
    w2, yt := u[..k], u[k..];
  }

  /** What `ParseDay` accepts: the day's digits, a comma, and the text `ParseYear` accepts. */
  lemma {:induction false} ParseDayShape(t: string, month: int) returns (dt: string, u: string)
    requires ParseDay(t, month).Some?
    ensures t == dt + "," + u && IsDayText(dt)
    ensures ParseDay(t, month) == ParseYear(u, month, Decimal(dt))
  {
    var c := if 1 < |t| && t[1] == ',' then 1 else 2;
    dt, u := t[..c], t[c + 1..];
    assert t == dt + "," + u;
  }

  /** `ParseDate`'s first stage: a month word and whitespace, then `ParseDay` on the rest. */
  lemma ParseMonthStep(s: string)
    requires ParseDate(s).Some?
    ensures var m := WordEnd(s, 0); var rest := s[m..];
      && 1 <= MonthNumber(s[..m]) <= 12 && SpaceEnd(rest, 0) > 0
      && ParseDate(s) == ParseDay(rest[SpaceEnd(rest, 0)..], MonthNumber(s[..m]))
  {
  }

  /** Cutting a text at `m`, then its rest where its leading whitespace ends, loses nothing. */
  lemma {:induction false} CutAtSpaces(s: string, m: nat) returns (word: string, w1: string, t: string)
    requires m <= |s|
    ensures var rest := s[m..];
      && word == s[..m] && w1 == rest[..SpaceEnd(rest, 0)] && t == rest[SpaceEnd(rest, 0)..]
      && s == word + w1 + t && forall i :: 0 <= i < |w1| ==> IsSpace(w1[i])
  {
    var rest := s[m..];
    var k := SpaceEnd(rest, 0);
    SpaceEndRun(rest, 0);
    word, w1, t := s[..m], rest[..k], rest[k..];
    assert rest == w1 + t;
  }

  /** What `ParseDate` reads before the day: a month word, then a run of whitespace. */
  lemma {:induction false} ParseMonthShape(s: string) returns (word: string, w1: string, t: string)
    requires ParseDate(s).Some?
    ensures s == word + w1 + t && IsSpaceRun(w1) && 1 <= MonthNumber(word) <= 12
    ensures ParseDate(s) == ParseDay(t, MonthNumber(word))
  {
    ParseMonthStep(s);
    word, w1, t := CutAtSpaces(s, WordEnd(s, 0));
  }

  /** The converse of `EnglishDateParses`: a text parses only when it has the "%B %d, %Y" form, and the date is the one it spells. */
  lemma {:induction false} ParseDateShape(s: string)
    requires ParseDate(s).Some?
    ensures exists word, w1, dt, w2, yt :: HasDateForm(s, ParseDate(s).value, word, w1, dt, w2, yt)
  {
    var word, w1, t := ParseMonthShape(s);
    var month := MonthNumber(word);
    var dt, u := ParseDayShape(t, month);
    var w2, yt := ParseYearShape(u, month, Decimal(dt));
    var d := Date(Decimal(yt), month, Decimal(dt));
    assert ParseDate(s) == Some(d);
    FormFromStages(s, d, word, w1, t, dt, u, w2, yt);
  }

  lemma FormFromStages(s: string, d: Date, word: string, w1: string, t: string, dt: string, u: string, w2: string, yt: string)
    requires s == word + w1 + t && t == dt + "," + u && u == w2 + yt
    requires 1 <= d.month <= 12 && Lower(word) == MonthKeys[d.month - 1]
    requires IsSpaceRun(w1) && IsSpaceRun(w2) && IsDayText(dt) && |yt| == 4 && AllDigits(yt)
    requires d == Date(Decimal(yt), d.month, Decimal(dt))
    ensures HasDateForm(s, d, word, w1, dt, w2, yt)
  {
    assert s == word + w1 + dt + "," + w2 + yt;
  }

  /**
   * The converse of `ParseDateShape`: every text of the "%B %d, %Y" form, with
   * any runs of whitespace, any letter case of the month and a day of one or
   * two digits, parses to the date it spells when that date is real, and is
   * refused otherwise.
   */
  lemma {:induction false} ParseDateComplete(s: string, d: Date, word: string, w1: string, dt: string, w2: string, yt: string)
    requires HasDateForm(s, d, word, w1, dt, w2, yt)
    ensures ParseDate(s) == (if IsValid(d) then Some(d) else None)
  {
    MonthWord(word, d.month);
    var t := RegroupDateForm(s, word, w1, dt, w2, yt);
    ParseStages(word, w1, dt, w2, yt, d.month);
  }

  /** The three stages of `ParseDate` over the parts of a text of the "%B %d, %Y" form. */
  lemma {:induction false} ParseStages(word: string, w1: string, dt: string, w2: string, yt: string, month: int)
    requires 1 <= month <= 12 && MonthNumber(word) == month
    requires |word| > 0 && forall i :: 0 <= i < |word| ==> !IsSpace(word[i])
    requires IsSpaceRun(w1) && IsSpaceRun(w2) && IsDayText(dt) && |yt| == 4 && AllDigits(yt)
    ensures var d := Date(Decimal(yt), month, Decimal(dt));
      ParseDate(word + w1 + (dt + "," + (w2 + yt))) == (if IsValid(d) then Some(d) else None)
  {
    var u := w2 + yt;
    var t := dt + "," + u;
    assert t[0] == dt[0] && IsDigit(t[0]);
    ParseDateForm(word, w1, t, month);
    ParseDayForm(dt, u, month);
    ParseYearForm(w2, yt, month, Decimal(dt));
  }

  /** The parts of a text of the "%B %d, %Y" form, grouped stage by stage. */
  lemma RegroupDateForm(s: string, word: string, w1: string, dt: string, w2: string, yt: string) returns (t: string)
    requires s == word + w1 + dt + "," + w2 + yt
    ensures t == dt + "," + (w2 + yt) && s == word + w1 + t
  {
    t := dt + "," + (w2 + yt);
  }

  /** An abbreviated month without the comma, as in "Jun 5 2021", is refused. */
  lemma AbbreviatedDateRefused()
    ensures ParseDate("Jun 5 2021") == None
  {
    var s := "Jun 5 2021";
    WordEndAt(s, 0, 3);
    assert s[..3] == "Jun";
    assert Lower("Jun") == "jun";
  }

  /** The example the release pages use: "June 5, 2021" is June 5 of 2021, and so is "JUNE 5, 2021". */
  lemma June5th2021()
    ensures ParseDate(EnglishDate("June", 2021, 5)) == Some(Date(2021, 6, 5))
  {
    assert Lower("June") == "june";
    EnglishDateParses("June", 2021, 6, 5);
  }

  lemma June5th2021Upper()
    ensures ParseDate(EnglishDate("JUNE", 2021, 5)) == Some(Date(2021, 6, 5))
  {
    assert Lower("JUNE") == "june";
    EnglishDateParses("JUNE", 2021, 6, 5);
  }

  /** June 5 of 2021 is written 2021-06-05. */
  lemma June5th2021Iso()
    ensures IsoDate(Date(2021, 6, 5)) == "2021-06-05"
  {
  }

  /** February 29 exists only in leap years: it is refused for 2021 ... */
  lemma LeapDay2021()
    ensures ParseDate(EnglishDate("February", 2021, 29)) == None
  {
    assert Lower("February") == "february";
    EnglishDateParses("February", 2021, 2, 29);
  }

  /** ... and accepted for 2020. */
  lemma LeapDay2020()
    ensures ParseDate(EnglishDate("February", 2020, 29)) == Some(Date(2020, 2, 29))
  {
    assert IsLeapYear(2020) && IsValid(Date(2020, 2, 29));
    assert Lower("February") == "february";
    EnglishDateParses("February", 2020, 2, 29);
  }
}
