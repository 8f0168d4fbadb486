/** The records the scheduler works on: days, time slots, labs, TAs and
    assignments, with optional fields as `Option`. */
module Types {

  datatype Option<+T> = None | Some(value: T)

  /** The seven week days; the source spells each as its three-letter name. */
  datatype Day = Sun | Mon | Tue | Wed | Thu | Fri | Sat

  /** A lab slot starts at 8:00, 11:00 or 14:00. */
  type SlotTime = t: int | t == 8 || t == 11 || t == 14 witness 8

  /** The string the source uses for a day. */
  function DayName(d: Day): string
  {
    match d
    case Sun => "Sun"
    case Mon => "Mon"
    case Tue => "Tue"
    case Wed => "Wed"
    case Thu => "Thu"
    case Fri => "Fri"
    case Sat => "Sat"
  }

  /** Reads a day back from its name. */
  function ParseDay(s: string): Option<Day>
  {
    if s == "Sun" then Some(Sun)
    else if s == "Mon" then Some(Mon)
    else if s == "Tue" then Some(Tue)
    else if s == "Wed" then Some(Wed)
    else if s == "Thu" then Some(Thu)
    else if s == "Fri" then Some(Fri)
    else if s == "Sat" then Some(Sat)
    else None
  }

  /** Position of a day in the week, Sunday first. */
  function DayIndex(d: Day): nat
  {
    match d
    case Sun => 0
    case Mon => 1
    case Tue => 2
    case Wed => 3
    case Thu => 4
    case Fri => 5
    case Sat => 6
  }

  datatype Lab = Lab(
    id: string,
    code: string,
    title: string,
    section: string,
    instructorName: Option<string>,
    feasibleDays: seq<Day>,
    feasibleTimes: seq<SlotTime>,
    lockedDay: Option<Day>,
    lockedTime: Option<SlotTime>)

  datatype TA = TA(
    id: string,
    name: string,
    preferredDays: seq<Day>,
    preferredTimes: seq<SlotTime>,
    maxLabs: int,
    seed: Option<int>)

  /** The decomposed score kept on an assignment for explanation. */
  datatype ScoreMeta = ScoreMeta(base: int, loadPenalty: real, tieBreak: real)

  datatype Assignment = Assignment(
    labId: string,
    taId: string,
    day: Day,
    time: SlotTime,
    locked: Option<bool>,
    scoreMeta: ScoreMeta)

  datatype UnassignedLab = UnassignedLab(lab: Lab, reason: string)

  datatype ScheduleResult = ScheduleResult(assignments: seq<Assignment>, unassignedLabs: seq<UnassignedLab>)

  /** `a.locked` is truthy only when the flag is present and true. */
  predicate IsLocked(a: Assignment)
  {
    a.locked == Some(true)
  }

  /** The occupancy key `day_time_taId`; day names and times hold no `_`,
      so the string key and this triple identify the same slots. */
  type SlotKey = (Day, SlotTime, string)

  function KeyOf(a: Assignment): SlotKey
  {
    (a.day, a.time, a.taId)
  }

  lemma {:induction false} ParseDayName(d: Day)
    ensures ParseDay(DayName(d)) == Some(d)
  {
    match d
    case Sun =>
    case Mon =>
    case Tue =>
    case Wed =>
    case Thu =>
    case Fri =>
    case Sat =>
  }
}
