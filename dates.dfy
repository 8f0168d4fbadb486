/** The closed day and time enumerations and their display forms. */
module Dates {
  import opened Types
  import opened Numerals

  function AllDays(): (ds: seq<Day>)
    ensures |ds| == 7
    ensures forall i :: 0 <= i < 7 ==> DayIndex(ds[i]) == i
    ensures forall d: Day :: d in ds
  {
    var ds := [Sun, Mon, Tue, Wed, Thu, Fri, Sat];
    assert forall d: Day :: d in ds by {
      forall d: Day ensures d in ds {
        DayAtIndex(d);
      }
    }
    ds
  }

  lemma DayAtIndex(d: Day)
    ensures [Sun, Mon, Tue, Wed, Thu, Fri, Sat][DayIndex(d)] == d
  {
    match d
    case Sun =>
    case Mon =>
    case Tue =>
    case Wed =>
    case Thu =>
    case Fri =>
    case Sat =>
  }

  function AllTimes(): (ts: seq<SlotTime>)
    ensures forall t: SlotTime :: t in ts
    ensures forall i, j :: 0 <= i < j < |ts| ==> ts[i] < ts[j]
  {
    [8, 11, 14]
  }

  /** The teaching week, Sunday to Thursday. */
  function Weekdays(): (ds: seq<Day>)
    ensures ds == AllDays()[..5]
    ensures forall d: Day :: d in ds <==> DayIndex(d) < 5
  {
    [Sun, Mon, Tue, Wed, Thu]
  }

  /** `8` is shown as `8:00`. */
  function FormatTime(t: SlotTime): (s: string)
    ensures |s| >= 4 && s[|s| - 3..] == ":00"
    ensures AllDigits(s[..|s| - 3]) && ParseDecimal(s[..|s| - 3]) == t
  {
    var s := NatToDecimal(t) + ":00";
    assert s[..|s| - 3] == NatToDecimal(t);
    DecimalRoundTrip(t);
    s
  }

  /** A day is shown by its own name. */
  function FormatDay(d: Day): (s: string)
    ensures ParseDay(s) == Some(d)
  {
    ParseDayName(d);
    DayName(d)
  }

  lemma DayNamesDistinct(d: Day, e: Day)
    requires DayName(d) == DayName(e)
    ensures d == e
  {
    ParseDayName(d);
    ParseDayName(e);
  }

  lemma FormatTimeExamples()
    ensures FormatTime(8) == "8:00" && FormatTime(11) == "11:00" && FormatTime(14) == "14:00"
  {
  }
}
