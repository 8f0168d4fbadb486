/** The text-level parts of reading the course list: the day and time
    extraction from a course's detail text, the course-code filter, the lab
    id, and the check of a lab's required fields. */
module Parser {
  import opened Types
  import opened Numerals
  import opened Dates
  import opened Prng
  import opened Regex

  /** The part of a day's full name that may follow its short name. */
  function DaySuffix(d: Day): string
  {
    match d
    case Sun => "day"
    case Mon => "day"
    case Tue => "sday"
    case Wed => "nesday"
    case Thu => "rsday"
    case Fri => "day"
    case Sat => "urday"
  }

  /** `/\bSun(?:day)?\b/i` and its six siblings. */
  function DayRegex(d: Day): seq<Pattern>
  {
    [[Boundary, Word(DayName(d)), Optional(DaySuffix(d)), Boundary]]
  }

  /** The three time expressions, one per slot. */
  function TimeRegex(t: SlotTime): seq<Pattern>
  {
    if t == 8 then
      [[Boundary, Word("8"), Optional(":"), Word("00"), Boundary],
       [Boundary, Word("8"), Blanks, Word("AM"), Boundary]]
    else if t == 11 then
      [[Boundary, Word("11"), Optional(":"), Word("00"), Boundary],
       [Boundary, Word("11"), Blanks, Word("AM"), Boundary]]
    else
      [[Boundary, Word("14"), Optional(":"), Word("00"), Boundary],
       [Boundary, Word("2"), Optional(":"), Word("00"), Blanks, Word("PM"), Boundary]]
  }

  /** The table of day expressions, Sunday first. */
  function DayPatterns(): (r: seq<(seq<Pattern>, Day)>)
    ensures |r| == 7
    ensures forall k :: 0 <= k < 7 ==> r[k] == (DayRegex(AllDays()[k]), AllDays()[k])
  {
    [(DayRegex(Sun), Sun), (DayRegex(Mon), Mon), (DayRegex(Tue), Tue), (DayRegex(Wed), Wed),
     (DayRegex(Thu), Thu), (DayRegex(Fri), Fri), (DayRegex(Sat), Sat)]
  }

  /** The days of `ds`, in their order, whose expression the text matches. */
  function MatchedDays(text: string, ds: seq<Day>): seq<Day>
  {
    if ds == [] then []
    else
      var rest := MatchedDays(text, ds[..|ds| - 1]);
      if Test(DayRegex(ds[|ds| - 1]), text) then rest + [ds[|ds| - 1]] else rest
  }

  /** The times of `ts`, in their order, whose expression the text matches. */
  function MatchedTimes(text: string, ts: seq<SlotTime>): seq<SlotTime>
  {
    if ts == [] then []
    else
      var rest := MatchedTimes(text, ts[..|ts| - 1]);
      if Test(TimeRegex(ts[|ts| - 1]), text) then rest + [ts[|ts| - 1]] else rest
  }

  /** The days `parseDaysAndTimes` returns: those named, else Sunday to Thursday. */
  function ParsedDays(text: string): seq<Day>
  {
    var named := MatchedDays(text, AllDays());
    if named == [] then Weekdays() else named
  }

  /** The times `parseDaysAndTimes` returns: those named, else all three. */
  function ParsedTimes(text: string): seq<SlotTime>
  {
    var named := MatchedTimes(text, AllTimes());
    if named == [] then AllTimes() else named
  }

  /** Strictly increasing by week position: week order, no day twice. */
  predicate InWeekOrder(ds: seq<Day>)
  {
    forall i, j :: 0 <= i < j < |ds| ==> DayIndex(ds[i]) < DayIndex(ds[j])
  }

  /** Strictly increasing: earliest first, no time twice. */
  predicate Increasing(ts: seq<SlotTime>)
  {
    forall i, j :: 0 <= i < j < |ts| ==> ts[i] < ts[j]
  }

  lemma {:induction false} MatchedDaysHas(text: string, ds: seq<Day>, d: Day)
    ensures d in MatchedDays(text, ds) <==> d in ds && Test(DayRegex(d), text)
    decreases |ds|
  {
    if ds != [] {
      MatchedDaysHas(text, ds[..|ds| - 1], d);
      assert ds == ds[..|ds| - 1] + [ds[|ds| - 1]];
    }
  }

  /** Keeping some days of a list in week order keeps them in week order. */
  lemma {:induction false} MatchedDaysOrdered(text: string, ds: seq<Day>)
    requires InWeekOrder(ds)
    ensures InWeekOrder(MatchedDays(text, ds))
    decreases |ds|
  {
    if ds != [] {
      var front := ds[..|ds| - 1];
      var last := ds[|ds| - 1];
      MatchedDaysOrdered(text, front);
      var rest := MatchedDays(text, front);
      forall d | d in rest
        ensures DayIndex(d) < DayIndex(last)
      {
        MatchedDaysHas(text, front, d);
        var i :| 0 <= i < |front| && front[i] == d;
        assert ds[i] == d;
      }
      if Test(DayRegex(last), text) {
        var r := rest + [last];
        forall i, j | 0 <= i < j < |r|
          ensures DayIndex(r[i]) < DayIndex(r[j])
        {
          assert r[i] == rest[i] && rest[i] in rest;
          if j < |rest| {
            assert r[j] == rest[j];
          } else {
            assert r[j] == last;
          }
        }
        assert MatchedDays(text, ds) == r;
      }
    }
  }

  lemma {:induction false} MatchedTimesHas(text: string, ts: seq<SlotTime>, t: SlotTime)
    ensures t in MatchedTimes(text, ts) <==> t in ts && Test(TimeRegex(t), text)
    decreases |ts|
  {
    if ts != [] {
      MatchedTimesHas(text, ts[..|ts| - 1], t);
      assert ts == ts[..|ts| - 1] + [ts[|ts| - 1]];
    }
  }

  lemma {:induction false} MatchedTimesOrdered(text: string, ts: seq<SlotTime>)
    requires Increasing(ts)
    ensures Increasing(MatchedTimes(text, ts))
    decreases |ts|
  {
    if ts != [] {
      var front := ts[..|ts| - 1];
      var last := ts[|ts| - 1];
      MatchedTimesOrdered(text, front);
      var rest := MatchedTimes(text, front);
      forall t | t in rest
        ensures t < last
      {
        MatchedTimesHas(text, front, t);
        var i :| 0 <= i < |front| && front[i] == t;
        assert ts[i] == t;
      }
      if Test(TimeRegex(last), text) {
        var r := rest + [last];
        forall i, j | 0 <= i < j < |r|
          ensures r[i] < r[j]
        {
          assert r[i] == rest[i] && rest[i] in rest;
          if j < |rest| {
            assert r[j] == rest[j];
          } else {
            assert r[j] == last;
          }
        }
        assert MatchedTimes(text, ts) == r;
      }
    }
  }

  /** No day expression matches the text. */
  ghost predicate NoDayNamed(text: string)
  {
    forall d: Day :: !Test(DayRegex(d), text)
  }

  /** No time expression matches the text. */
  ghost predicate NoTimeNamed(text: string)
  {
    forall t: SlotTime :: !Test(TimeRegex(t), text)
  }

  /** The day list is never empty, is in week order without repeats, and
      holds a day exactly when the text names it, or, when the text names
      no day, exactly the days Sunday to Thursday. */
  lemma ParsedDaysFacts(text: string)
    ensures var r := ParsedDays(text);
      && |r| > 0
      && InWeekOrder(r)
      && (forall d: Day :: d in r <==> Test(DayRegex(d), text) || (NoDayNamed(text) && DayIndex(d) < 5))
  {
    var named := MatchedDays(text, AllDays());
    MatchedDaysOrdered(text, AllDays());
    forall d: Day
      ensures d in named <==> Test(DayRegex(d), text)
    {
      MatchedDaysHas(text, AllDays(), d);
    }
    if named == [] {
      assert NoDayNamed(text);
    } else {
      assert !NoDayNamed(text) by {
        assert Test(DayRegex(named[0]), text);
      }
    }
  }

  /** The time list is never empty, is in increasing order without repeats,
      and holds a time exactly when the text names it, or every time when
      the text names none. */
  lemma ParsedTimesFacts(text: string)
    ensures var r := ParsedTimes(text);
      && |r| > 0
      && Increasing(r)
      && (forall t: SlotTime :: t in r <==> Test(TimeRegex(t), text) || NoTimeNamed(text))
  {
    var named := MatchedTimes(text, AllTimes());
    MatchedTimesOrdered(text, AllTimes());
    forall t: SlotTime
      ensures t in named <==> Test(TimeRegex(t), text)
    {
      MatchedTimesHas(text, AllTimes(), t);
    }
    if named == [] {
      assert NoTimeNamed(text);
    } else {
      assert !NoTimeNamed(text) by {
        assert Test(TimeRegex(named[0]), text);
      }
    }
  }

  /** `parseDaysAndTimes`. */
  method ParseDaysAndTimes(text: string) returns (days: seq<Day>, times: seq<SlotTime>)
    ensures days == ParsedDays(text) && times == ParsedTimes(text)
  {
    days := [];
    times := [];
    var dayPatterns := DayPatterns();
    for k := 0 to |dayPatterns|
      invariant days == MatchedDays(text, AllDays()[..k])
    {
      var (pattern, day) := dayPatterns[k];
      assert AllDays()[..k + 1][..k] == AllDays()[..k];
      if Test(pattern, text) {
        days := days + [day];
      }
    }
    assert AllDays()[..7] == AllDays();
    assert [8, 11, 14][..2] == [8, 11] && [8, 11][..1] == [8] && [8][..0] == [];
    if Test(TimeRegex(8), text) {
      times := times + [8];
    }
    assert times == MatchedTimes(text, [8]);
    if Test(TimeRegex(11), text) {
      times := times + [11];
    }
    assert times == MatchedTimes(text, [8, 11]);
    if Test(TimeRegex(14), text) {
      times := times + [14];
    }
    assert times == MatchedTimes(text, AllTimes());
    if |times| == 0 {
      times := [8, 11, 14];
    }
    if |days| == 0 {
      days := [Sun, Mon, Tue, Wed, Thu];
    }
  }

  /** A day's short name standing as a word, in any letter case, puts that day in the list. */
  lemma DayNameFound(text: string, i: nat, d: Day)
    requires WordAt(text, i, DayName(d)) && IsBoundary(text, i) && IsBoundary(text, i + 3)
    ensures d in ParsedDays(text)
  {
    var p := DayRegex(d)[0];
    assert p[1..][1..][1..][1..] == [];
    assert MatchFrom(text, i + 3, p[1..][1..][1..]);
    assert MatchFrom(text, i, p);
    TestFound(DayRegex(d), text, 0, i);
    MatchedDaysHas(text, AllDays(), d);
  }

  /** The decimal spellings of the three slot hours. */
  lemma SlotDecimal(t: SlotTime)
    ensures NatToDecimal(t) == if t == 8 then "8" else if t == 11 then "11" else "14"
  {
    assert DigitChar(1) == '1' && DigitChar(4) == '4' && DigitChar(8) == '8';
    if t != 8 {
      assert NatToDecimal(t) == NatToDecimal(1) + [DigitChar(t % 10)];
    }
  }

  /** `d:00` standing as a word matches the colon form of a time expression. */
  lemma ColonFormMatches(text: string, i: nat, d: string)
    requires WordAt(text, i, d + ":00")
    requires IsBoundary(text, i) && IsBoundary(text, i + |d| + 3)
    ensures MatchFrom(text, i, [Boundary, Word(d), Optional(":"), Word("00"), Boundary])
  {
    var e := i + |d|;
    assert d + ":00" == (d + ":") + "00";
    WordAtSplit(text, i, d + ":", "00");
    WordAtSplit(text, i, d, ":");
    var p := [Boundary, Word(d), Optional(":"), Word("00"), Boundary];
    assert MatchFrom(text, e + 3, p[4..]);
    assert MatchFrom(text, e + 1, p[3..]);
    assert MatchFrom(text, e, p[2..]);
  }

  /** A time as the schedule displays it (`8:00`), standing as a word, puts that time in the list. */
  lemma FormattedTimeFound(text: string, i: nat, t: SlotTime)
    requires WordAt(text, i, FormatTime(t))
    requires IsBoundary(text, i) && IsBoundary(text, i + |FormatTime(t)|)
    ensures t in ParsedTimes(text)
  {
    var d := NatToDecimal(t);
    assert FormatTime(t) == d + ":00";
    ColonFormMatches(text, i, d);
    SlotDecimal(t);
    TestFound(TimeRegex(t), text, 0, i);
    MatchedTimesHas(text, AllTimes(), t);
  }

  /** A text without letters or digits names no day and no time, so both lists take their defaults. */
  lemma NoWordsDefaults(text: string)
    requires forall k :: 0 <= k < |text| ==> !IsWordChar(text[k])
    ensures ParsedDays(text) == Weekdays() && ParsedTimes(text) == AllTimes()
  {
    forall d: Day
      ensures !Test(DayRegex(d), text)
    {
      if Test(DayRegex(d), text) {
        var k, j := TestWitness(DayRegex(d), text);
        assert false;
      }
    }
    forall t: SlotTime
      ensures !Test(TimeRegex(t), text)
    {
      if Test(TimeRegex(t), text) {
        var k, j := TestWitness(TimeRegex(t), text);
        assert false;
      }
    }
    var days := MatchedDays(text, AllDays());
    if days != [] {
      MatchedDaysHas(text, AllDays(), days[0]);
    }
    var times := MatchedTimes(text, AllTimes());
    if times != [] {
      MatchedTimesHas(text, AllTimes(), times[0]);
    }
  }

  // ---- The course-code filter ----

  /** `cid_ENCS` followed by four ASCII digits starts at `i`. */
  predicate CodeAt(courseId: string, i: nat)
  {
    i + 12 <= |courseId| && courseId[i..i + 8] == "cid_ENCS" && AllDigits(courseId[i + 8..i + 12])
  }

  /** The first match of `/cid_ENCS(\d{4})/` at or after `i`: its four digits. */
  function FirstCode(courseId: string, i: nat): (r: Option<string>)
    requires i <= |courseId|
    ensures r.Some? ==> |r.value| == 4 && AllDigits(r.value)
    decreases |courseId| - i
  {
    if CodeAt(courseId, i) then Some(courseId[i + 8..i + 12])
    else if i < |courseId| then FirstCode(courseId, i + 1)
    else None
  }

  /** `/^ENCS[0-9]1[0-9]{2}$/`. */
  predicate AcceptedCode(code: string)
  {
    |code| == 8 && code[..4] == "ENCS" && IsDigit(code[4]) && code[5] == '1' && IsDigit(code[6]) && IsDigit(code[7])
  }

  /** The course code a `data-course-id` attribute yields, or `None` when
      the link is skipped: the attribute is missing or empty, holds no
      `cid_ENCS` code, or the code's second digit is not 1. */
  function CourseCode(courseId: Option<string>): Option<string>
  {
    if courseId.None? || courseId.value == [] then None
    else
      match FirstCode(courseId.value, 0)
      case None => None
      case Some(digits) => if AcceptedCode("ENCS" + digits) then Some("ENCS" + digits) else None
  }

  /** The scan finds the leftmost code at or after `i`. */
  lemma {:induction false} FirstCodeIsLeftmost(courseId: string, i: nat)
    requires i <= |courseId|
    ensures match FirstCode(courseId, i)
      case None => forall j :: i <= j <= |courseId| ==> !CodeAt(courseId, j)
      case Some(digits) => exists j ::
        i <= j && CodeAt(courseId, j) && digits == courseId[j + 8..j + 12]
        && forall k :: i <= k < j ==> !CodeAt(courseId, k)
    decreases |courseId| - i
  {
    if !CodeAt(courseId, i) && i < |courseId| {
      FirstCodeIsLeftmost(courseId, i + 1);
      match FirstCode(courseId, i + 1)
      case None =>
      case Some(digits) =>
        var j :| i + 1 <= j && CodeAt(courseId, j) && digits == courseId[j + 8..j + 12]
          && forall k :: i + 1 <= k < j ==> !CodeAt(courseId, k);
        assert forall k :: i <= k < j ==> !CodeAt(courseId, k);
    }
  }

  /** A course is kept exactly when the first `cid_ENCS` code in its id has 1 as its second digit. */
  lemma CourseCodeAccepts(courseId: string)
    ensures match CourseCode(Some(courseId))
      case None => FirstCode(courseId, 0).None? || FirstCode(courseId, 0).value[1] != '1'
      case Some(code) => (FirstCode(courseId, 0).Some? && code == "ENCS" + FirstCode(courseId, 0).value
        && code[5] == '1' && AllDigits(code[4..]))
  {
    match FirstCode(courseId, 0)
    case None =>
    case Some(digits) =>
      var code := "ENCS" + digits;
      assert code[4..] == digits;
      assert code[5] == digits[1];
  }

  /** A bare id `cid_ENCS` + four digits yields `ENCS` + those digits when the second is 1, else nothing. */
  lemma BareCourseId(digits: string)
    requires |digits| == 4 && AllDigits(digits)
    ensures CourseCode(Some("cid_ENCS" + digits)) == if digits[1] == '1' then Some("ENCS" + digits) else None
  {
    var id := "cid_ENCS" + digits;
    assert id[0..8] == "cid_ENCS" && id[8..12] == digits;
    assert CodeAt(id, 0);
    var code := "ENCS" + digits;
    assert code[..4] == "ENCS" && code[4] == digits[0] && code[5] == digits[1];
    assert code[6] == digits[2] && code[7] == digits[3];
  }

  // ---- Lab ids ----

  /** `${code}_${section}_${hashString(code + section)}`. */
  function LabId(code: string, section: string): string
  {
    code + "_" + section + "_" + NatToDecimal(StringHash(code + section))
  }

  /** When two joins at an underscore spell the same text, the one with the
      shorter tail has its underscore inside the other's tail. */
  lemma UnderscoreInSuffix(a1: string, b1: string, a2: string, b2: string)
    requires a1 + "_" + b1 == a2 + "_" + b2
    requires |b1| < |b2|
    ensures 0 <= |a1| - |a2| - 1 < |b2| && b2[|a1| - |a2| - 1] == '_'
  {
    var s := a1 + "_" + b1;
    assert s[|a1|] == '_';
    assert s[|a1|] == (a2 + "_" + b2)[|a1|];
  }

  /** Splitting at the last underscore is unambiguous. */
  lemma {:induction false} LastUnderscoreSplit(a1: string, b1: string, a2: string, b2: string)
    requires '_' !in b1 && '_' !in b2
    requires a1 + "_" + b1 == a2 + "_" + b2
    ensures a1 == a2 && b1 == b2
  {
    var s := a1 + "_" + b1;
    if |b1| < |b2| {
      UnderscoreInSuffix(a1, b1, a2, b2);
      assert false;
    } else if |b2| < |b1| {
      UnderscoreInSuffix(a2, b2, a1, b1);
      assert false;
    } else {
      assert b1 == s[|s| - |b1|..] == b2;
      assert a1 == s[..|a1|] == a2;
    }
  }

  /** Ids name labs uniquely: two labs whose sections contain no underscore
      share an id only when they share code and section. The code itself
      may contain underscores. */
  lemma LabIdInjective(code1: string, section1: string, code2: string, section2: string)
    requires '_' !in section1 && '_' !in section2
    requires LabId(code1, section1) == LabId(code2, section2)
    ensures code1 == code2 && section1 == section2
  {
    var h1 := NatToDecimal(StringHash(code1 + section1));
    var h2 := NatToDecimal(StringHash(code2 + section2));
    assert '_' !in h1;
    assert '_' !in h2;
    LastUnderscoreSplit(code1 + "_" + section1, h1, code2 + "_" + section2, h2);
    LastUnderscoreSplit(code1, section1, code2, section2);
  }

  /** The id ends in the decimal hash of code and section, which reads back to the hash. */
  lemma LabIdHash(code: string, section: string)
    ensures var id := LabId(code, section);
      var h := NatToDecimal(StringHash(code + section));
      |h| <= |id| && id[|id| - |h|..] == h && AllDigits(h) && ParseDecimal(h) == StringHash(code + section)
  {
    DecimalRoundTrip(StringHash(code + section));
  }

  // ---- Building a lab from a course link ----

  /** The section every parsed lab gets. */
  const DefaultSection := "L1"

  /** The lab `parseCourseLink` builds once the page has been read:
      `codeText` and `titleText` are the trimmed texts of the code span and
      the title element, `courseName` the untrimmed `data-course-name`
      attribute (each empty when absent), `detail` the text of the collapse panel if there
      is one, and `instructor` what the instructor expression found in it. */
  function CourseLab(courseId: Option<string>, codeText: string, titleText: string, courseName: string,
                     detail: Option<string>, instructor: Option<string>): Option<Lab>
  {
    match CourseCode(courseId)
    case None => None
    case Some(fullCode) =>
      var code := if codeText != [] then codeText else fullCode;
      var title := if titleText != [] then titleText else if courseName != [] then courseName else code + " Lab";
      var days := if detail.Some? then ParsedDays(detail.value) else Weekdays();
      var times := if detail.Some? then ParsedTimes(detail.value) else AllTimes();
      Some(Lab(LabId(code, DefaultSection), code, title, DefaultSection, if detail.Some? then instructor else None,
               days, times, None, None))
  }

  /** A course link yields a lab exactly when its code passes the filter;
      the lab then carries the id of its code and section, a non-empty
      title, and non-empty day and time lists in order without repeats. */
  lemma CourseLabFacts(courseId: Option<string>, codeText: string, titleText: string, courseName: string,
                       detail: Option<string>, instructor: Option<string>)
    ensures var r := CourseLab(courseId, codeText, titleText, courseName, detail, instructor);
      && (r.Some? <==> CourseCode(courseId).Some?)
      && (r.Some? ==>
            && r.value.id == LabId(r.value.code, r.value.section)
            && r.value.section == DefaultSection
            && r.value.code != [] && r.value.title != []
            && |r.value.feasibleDays| > 0 && InWeekOrder(r.value.feasibleDays)
            && |r.value.feasibleTimes| > 0 && Increasing(r.value.feasibleTimes)
            && r.value.lockedDay.None? && r.value.lockedTime.None?)
  {
    if detail.Some? {
      ParsedDaysFacts(detail.value);
      ParsedTimesFacts(detail.value);
    }
  }

  // ---- Checking a lab's fields ----

  /** The fields of `Partial<Lab>` that `validateLab` reads; `None` is a missing field. */
  datatype LabDraft = LabDraft(code: Option<string>, section: Option<string>, title: Option<string>)

  /** A field counts as given when it is present and not empty. */
  predicate Given(field: Option<string>)
  {
    field.Some? && field.value != []
  }

  /** `/^ENCS_1[0-5]$/`. */
  predicate ValidCode(code: string)
  {
    |code| == 7 && code[..6] == "ENCS_1" && '0' <= code[6] <= '5'
  }

  const InvalidCodeMessage := "Invalid course code"
  const SectionMessage := "Section is required"
  const TitleMessage := "Title is required"

  /** `validateLab`. */
  method ValidateLab(lab: LabDraft) returns (errors: seq<string>)
    ensures InvalidCodeMessage in errors <==> !(Given(lab.code) && ValidCode(lab.code.value))
    ensures SectionMessage in errors <==> !Given(lab.section)
    ensures TitleMessage in errors <==> !Given(lab.title)
    ensures errors == [] <==> Given(lab.code) && ValidCode(lab.code.value) && Given(lab.section) && Given(lab.title)
    ensures |errors| <= 3
    ensures forall e :: e in errors ==> e == InvalidCodeMessage || e == SectionMessage || e == TitleMessage
    ensures forall i, j :: 0 <= i < j < |errors| ==> MessageRank(errors[i]) < MessageRank(errors[j])
  {
    errors := [];
    if !Given(lab.code) || !ValidCode(lab.code.value) {
      errors := errors + [InvalidCodeMessage];
    }
    if !Given(lab.section) {
      errors := errors + [SectionMessage];
    }
    if !Given(lab.title) {
      errors := errors + [TitleMessage];
    }
  }

  /** Position of a message in the order the checks run. */
  function MessageRank(message: string): nat
  {
    if message == InvalidCodeMessage then 0 else if message == SectionMessage then 1 else 2
  }

  /** Codes the course filter yields (`ENCS` and four digits) never pass
      the code check of `validateLab`, which expects `ENCS_1` and one digit. */
  lemma FilteredCodesFailValidation(courseId: Option<string>)
    requires CourseCode(courseId).Some?
    ensures !ValidCode(CourseCode(courseId).value)
  {
    var code := CourseCode(courseId).value;
    assert |code| == 8;
  }
}
