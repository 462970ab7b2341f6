/** The release date of a Bandcamp release, as read off the credits block of its page. */
module ReleaseDates {
  import opened Py
  import opened Calendar

  /** A credits line that announces the release date. */
  predicate IsReleasedLine(line: string)
  {
    StartsWith(line, "released")
  }

  /** The index of the first release-date line at or after `from`, or `|lines|` when there is none. */
  function FirstReleasedLine(lines: seq<string>, from: nat): (k: nat)
    requires from <= |lines|
    ensures from <= k <= |lines|
    ensures forall j :: from <= j < k ==> !IsReleasedLine(lines[j])
    ensures k < |lines| ==> IsReleasedLine(lines[k])
    decreases |lines| - from
  {
    if from == |lines| || IsReleasedLine(lines[from]) then from else FirstReleasedLine(lines, from + 1)
  }

  /** The date text of a release-date line: every "released" removed, then stripped. */
  function ReleasedText(line: string): string
  {
    Strip(Replace(line, "released", ""))
  }

  /** The stored form of a date text: "YYYY-MM-DD" when it is a real date written "<Month> <day>, <yyyy>", else the text itself. */
  function NormalizedDate(text: string): string
  {
    match ParseDate(text)
    case Some(d) => IsoDate(d)
    case None => text
  }

  /** `release_date` as the credits scan leaves it. */
  function ReleaseDate(lines: seq<string>): Option<string>
  {
    var k := FirstReleasedLine(lines, 0);
    if k < |lines| then Some(NormalizedDate(ReleasedText(lines[k]))) else None
  }

  /** The scan of the credits for the release date, stopping at the first release-date line. */
  method FindReleaseDate(lines: seq<string>) returns (releaseDate: Option<string>)
    ensures releaseDate == ReleaseDate(lines)
  {
    releaseDate := None;
    var i := 0;
    while i < |lines|
      invariant 0 <= i <= |lines|
      invariant forall j :: 0 <= j < i ==> !IsReleasedLine(lines[j])
      invariant releaseDate == None
    {
      if IsReleasedLine(lines[i]) {
        releaseDate := Some(ReleasedText(lines[i]));
        var parsed := ParseDate(releaseDate.value);
        if parsed.Some? {
          releaseDate := Some(IsoDate(parsed.value));
        }
        FirstReleasedLineIs(lines, i);
        return;
      }
      i := i + 1;
    }
    FirstReleasedLineIs(lines, |lines|);
  }

  /** The first release-date line is the one before which there is none. */
  lemma FirstReleasedLineIs(lines: seq<string>, k: nat)
    requires k <= |lines| && (k < |lines| ==> IsReleasedLine(lines[k]))
    requires forall j :: 0 <= j < k ==> !IsReleasedLine(lines[j])
    ensures FirstReleasedLine(lines, 0) == k
  {
  }

  /** `event_date`: the release date at midnight, or `None` when there is no date or it is empty. */
  function EventDate(releaseDate: Option<string>): Option<string>
  {
    if releaseDate.Some? && releaseDate.value != "" then Some(releaseDate.value + " 00:00:00") else None
  }

  /** When the first release-date line reads "<Month> <day>, <yyyy>" after the word, a real date is stored as "YYYY-MM-DD" and the event starts at its midnight; an impossible one is kept as written. */
  lemma {:induction false} ReleaseDateFromEnglish(lines: seq<string>, k: nat, word: string, year: nat, month: int, day: nat)
    requires k < |lines| && IsReleasedLine(lines[k])
    requires forall j :: 0 <= j < k ==> !IsReleasedLine(lines[j])
    requires ReleasedText(lines[k]) == EnglishDate(word, year, day)
    requires 1 <= month <= 12 && Lower(word) == MonthKeys[month - 1]
    requires 1 <= day <= 31 && year <= 9999
    ensures IsValid(Date(year, month, day)) ==>
      && ReleaseDate(lines) == Some(IsoDate(Date(year, month, day)))
      && EventDate(ReleaseDate(lines)) == Some(IsoDate(Date(year, month, day)) + " 00:00:00")
    ensures !IsValid(Date(year, month, day)) ==>
      && ReleaseDate(lines) == Some(EnglishDate(word, year, day))
      && EventDate(ReleaseDate(lines)) == Some(EnglishDate(word, year, day) + " 00:00:00")
  {
    EnglishDateParses(word, year, month, day);
    FirstReleasedLineIs(lines, k);
  }

  /** A date text that does not parse is kept verbatim, and still gets the midnight suffix unless it is empty. */
  lemma {:induction false} ReleaseDateKept(lines: seq<string>, k: nat)
    requires k < |lines| && IsReleasedLine(lines[k])
    requires forall j :: 0 <= j < k ==> !IsReleasedLine(lines[j])
    requires ParseDate(ReleasedText(lines[k])).None?
    ensures ReleaseDate(lines) == Some(ReleasedText(lines[k]))
    ensures EventDate(ReleaseDate(lines)) == if ReleasedText(lines[k]) == "" then None else Some(ReleasedText(lines[k]) + " 00:00:00")
  {
    FirstReleasedLineIs(lines, k);
  }

  /** "released Jun 5 2021" does not match the date format, so its text "Jun 5 2021" is kept as the release date. */
  lemma AbbreviatedDateKept()
    ensures ReleaseDate(["released " + "Jun 5 2021"]) == Some("Jun 5 2021")
  {
    var text := "Jun 5 2021";
    assert forall i :: !OccursAt(text, "released", i) by {
      forall i ensures !OccursAt(text, "released", i) {
        if 0 <= i && i + 8 <= |text| {
          assert text[i..i + 8][0] != 'r';
        }
      }
    }
    ReleasedLineText(text);
    AbbreviatedDateRefused();
    ReleaseDateKept(["released " + text], 0);
  }

  /** Credits without a release-date line leave the event without a date. */
  lemma {:induction false} NoReleasedLine(lines: seq<string>)
    requires forall j :: 0 <= j < |lines| ==> !IsReleasedLine(lines[j])
    ensures ReleaseDate(lines) == None && EventDate(ReleaseDate(lines)) == None
  {
    FirstReleasedLineIs(lines, |lines|);
  }

  /** A credits line "released <text>" announces the release date, and its date text is `<text>` when that text has no margin and no "released" of its own. */
  lemma {:induction false} ReleasedLineText(text: string)
    requires |text| > 0 && !IsSpace(text[0]) && !IsSpace(text[|text| - 1])
    requires forall i :: !OccursAt(text, "released", i)
    ensures IsReleasedLine("released " + text)
    ensures ReleasedText("released " + text) == text
  {
    var rest := [' '] + text;
    var line := "released" + rest;
    assert "released " + text == line;
    ReplaceLeading("released", rest, "");
    NoOccurrenceAfter(' ', text, "released");
    assert Replace(rest, "released", "") == rest;
    assert Replace(line, "released", "") == rest;
    StripFramed([' '], text, []);
    assert [' '] + text + [] == rest;
    assert ReleasedText(line) == Strip(rest) == text;
  }
}
