# Birzeit lab scheduler — a verified Dafny model

This project models the scheduling engine of the Birzeit lab scheduler. The scheduler assigns
teaching assistants (TAs) to course labs over a week of five teaching days and three time
slots (8:00, 11:00, 14:00). The model covers:

- **Prng**: the seeded xorshift32 generator `SeededRandom` (`next`, `nextInt`, Fisher–Yates
  `shuffle`) and the 31-multiplier string hash `hashString`. The 32-bit state is a `bv32`, and
  int32 wrap-around is written out as `Wrap32`.
- **Feasibility**: feasible-slot expansion of a lab. It uses the locked slot if both parts are
  set, otherwise the day-major cross product of its days and times, with Sun..Thu and
  8/11/14 as defaults.
- **Difficulty**: difficulty ordering. One tie-break draw is made per lab, then a stable sort
  by (slot count, tie-break).
- **Matching**: the best-candidate scan of `findBestTA`. It covers the per-TA seed (`ta.seed ||
  rng.nextInt(1, 1000000)`, drawn before the capacity check), the capacity and occupancy
  filters, the base score and load penalty, and the strict `>` that keeps the first maximum.
- **Scheduler**: the driver `scheduleAssignments`. It seeds the working state from the locked
  assignments, skips labs they cover, and records every other lab as assigned or unassigned.
  The working state is the `taAssignments` map and the `slotOccupancy` map. The occupancy key
  `day_time_taId` is the tuple `(Day, SlotTime, string)`, which is exact because day and time
  contain no `_`.
- **Validation**: `validateSchedule`, which reports double bookings and capacity overruns.
  It keeps the insertion order of the JavaScript `Map` it iterates.
- **Store**: the list edits of the application store (`addTA`, `updateTA`, `removeTA`,
  `updateLab`, `lockLabSlot`, `lockAssignment`, `moveAssignment`) and the data flow of
  `runScheduler`. The store is the class `AppStore`, whose methods reassign its fields.
- **Parser**: `parseDaysAndTimes`, the course-code filter, the lab id format, the lab record
  that `parseCourseLink` assembles, and `validateLab`. The regular expressions are modelled
  exactly by the small pattern language of **Regex**: `\b`, literal text, `(?:w)?` and `\s*`,
  matched case-insensitively without the `u` flag.
- **Dates**, **Numerals** and **Types**: the closed day and time constants, the time format,
  decimal numerals, and the records of `src/types/index.ts`.

Every stateful routine with a loop is a Dafny `method` with loop invariants. Each is proved
equal to a specification function, and the properties the source promises are proved as
lemmas about those functions. JavaScript numbers become `int` and `real`:
- `next()` is `state / 2^32`, which is exact.
- `nextInt` is the integer floor of `state * (max - min) / 2^32`, plus `min`.
- The tie-break, the load penalty and the total score are exact reals.

## Model

| member | source | states |
|---|---|---|
| Types.ParseDayName | src/types/index.ts:1 | every day's name parses back to that day, so the seven names are distinct |
| Numerals.DecimalRoundTrip | src/lib/dates.ts:6-8 | reading back the decimal digits written for a natural number gives that number |
| Numerals.DecimalInjective | src/lib/parser.ts:91 | different numbers have different decimal spellings |
| Dates.AllDays | src/lib/dates.ts:20-22 | seven days, the k-th being the day of week index k (Sun..Sat), and every day occurs |
| Dates.AllTimes | src/lib/dates.ts:27-29 | every slot time occurs, in strictly increasing order |
| Dates.Weekdays | src/lib/dates.ts:34-36 | the first five entries of the full week, i.e. exactly the days with index below 5 |
| Dates.FormatTime | src/lib/dates.ts:6-8 | the text ends in ":00" and the part before it is a decimal that reads back as the time |
| Dates.FormatDay | src/lib/dates.ts:13-15 | the text parses back to the same day |
| Dates.DayNamesDistinct | src/lib/dates.ts:20-22 | two days with the same name are the same day |
| Prng.SeedState | src/lib/prng.ts:8-11 | the initial state is the seed mod 2^32, or 1 when that is 0; never 0 |
| Prng.Fraction | src/lib/prng.ts:22 | the value returned by next lies in [0, 1) |
| Prng.ScaleDrawInRange | src/lib/prng.ts:28-30 | for min < max the scaled draw lies in [min, max) |
| Prng.XorShiftKeepsNonZero | src/lib/prng.ts:16-21 | the (13, 17, 5) xorshift step maps a nonzero state to a nonzero state |
| Prng.AdvanceKeepsNonZero | src/lib/prng.ts:16-21 | any number of steps from a nonzero state stays nonzero |
| Prng.SwapPermutes | src/lib/prng.ts:39 | swapping two positions keeps the multiset of elements |
| Prng.FisherYatesPermutes | src/lib/prng.ts:37-40 | the descending swap loop over any in-range draws keeps the multiset |
| Prng.DrawsBelowAt | src/lib/prng.ts:37-38 | the i-th pre-computed draw is the draw the loop makes at index i |
| Prng.DrawMatches | src/lib/prng.ts:38 | the draw at index i is the scaled value of the state reached after n - i steps, in [0, i] |
| Prng.ShuffledPermutes | src/lib/prng.ts:35-42 | the shuffled sequence has the input's length and multiset |
| Prng.SeededRandom.constructor | src/lib/prng.ts:8-11 | the state is the reduced seed, which is never 0 |
| Prng.SeededRandom.Next | src/lib/prng.ts:16-23 | advances the state by one xorshift step and returns the new state over 2^32, in [0, 1) |
| Prng.SeededRandom.NextInt | src/lib/prng.ts:28-30 | consumes exactly one step; for min < max the result lies in [min, max) |
| Prng.SeededRandom.Shuffle | src/lib/prng.ts:35-42 | returns the Fisher–Yates permutation of the input for the old state and advances the state by max(0, n-1) steps |
| Prng.SameSeedSameDraws | src/lib/__tests__/prng.test.ts:5-13 | two generators built from the same seed return the same k values |
| Prng.SameSeedSameShuffle | src/lib/__tests__/prng.test.ts:46-57 | two generators from the same seed shuffle equal input equally, and the result is a permutation |
| Prng.Wrap32 | src/lib/prng.ts:59-60 | the int32 reading of a number: in [-2^31, 2^31) and congruent to it mod 2^32 |
| Prng.WrapPeriodic | src/lib/prng.ts:60 | the int32 reading ignores multiples of 2^32 |
| Prng.WrapOfCongruent | src/lib/prng.ts:60 | numbers congruent mod 2^32 have the same int32 reading |
| Prng.ShiftSubtractIsTimes31 | src/lib/prng.ts:59-60 | `(hash << 5) - hash + c`, wrapped, equals `31 * hash + c` wrapped |
| Prng.HashFold | src/lib/prng.ts:56-61 | the folded hash is always an int32 value |
| Prng.StringHash | src/lib/prng.ts:62 | the absolute value is a natural number at most 2^31 |
| Prng.HashString | src/lib/prng.ts:55-63 | the loop computes the fold's absolute value, a number in [0, 2^31] |
| Feasibility.DefaultsMatchCalendar | src/lib/scheduler.ts:115-116 | the default days are the weekdays of the calendar and the default times are all times |
| Feasibility.CrossProductLength | src/lib/scheduler.ts:118-122 | the nested loops produce \|days\| · \|times\| slots |
| Feasibility.CrossProductAt | src/lib/scheduler.ts:118-122 | slot number di·\|times\| + ti is (days[di], times[ti]), i.e. day-major order |
| Feasibility.CrossProductHas | src/lib/scheduler.ts:118-122 | a slot is produced iff its day is among the days and its time among the times |
| Feasibility.FeasibleSlotsCount | src/lib/scheduler.ts:109-125 | one slot when both locks are set, otherwise days × times slots; never empty |
| Feasibility.UnconstrainedLabHasFifteenSlots | src/lib/scheduler.ts:115-116 | a lab with no locks, days or times gets 15 slots, exactly the weekday slots |
| Feasibility.FeasibleSlotsHas | src/lib/scheduler.ts:109-125 | membership: the locked slot alone, or any pair of an allowed day and an allowed time |
| Feasibility.GetFeasibleSlots | src/lib/scheduler.ts:109-125 | the nested push loops build exactly the feasible-slot list |
| Difficulty.KeysKeepLabs | src/lib/scheduler.ts:131-135 | keying the labs keeps them in input order |
| Difficulty.KeysWellKeyed | src/lib/scheduler.ts:133 | each key's slot count is its lab's feasible-slot count |
| Difficulty.InsertSorted | src/lib/scheduler.ts:137-142 | inserting into a sorted list keeps it sorted by (slot count, tie-break) |
| Difficulty.InsertPermutes | src/lib/scheduler.ts:137-142 | insertion adds exactly the one element |
| Difficulty.StableSortSorted | src/lib/scheduler.ts:137-142 | the sort's result is ordered by the comparator |
| Difficulty.StableSortPermutes | src/lib/scheduler.ts:137-142 | the sort's result is a permutation of its input |
| Difficulty.StableSortKeepsLabs | src/lib/scheduler.ts:137-144 | the labs after sorting are a permutation of the labs before |
| Difficulty.WellKeyedPermutation | src/lib/scheduler.ts:133 | any permutation of correctly keyed labs is correctly keyed |
| Difficulty.ByDifficultyCorrect | src/lib/scheduler.ts:130-145 | the result is a permutation of the input, ordered by ascending feasible-slot count |
| Difficulty.SortedByTieBreak | src/lib/scheduler.ts:138-141 | labs with equal slot counts appear in ascending tie-break order |
| Difficulty.SortLabsByDifficulty | src/lib/scheduler.ts:130-145 | draws exactly one value per lab, and returns the difficulty order of the labs |
| Matching.BaseScore | src/lib/scheduler.ts:216-228 | the score is 0, 2 or 4; 4 iff both day and time are preferred, 0 iff neither is |
| Matching.LoadPenaltyRange | src/lib/scheduler.ts:233-236 | 999 when maxLabs is 0; in [0, 0.5) for a TA below capacity |
| Matching.TaSeedDraws | src/lib/scheduler.ts:174 | a nonzero own seed consumes no shared draw; a missing or zero seed consumes one draw in [1, 1000000) |
| Matching.BestIsFirstMaximum | src/lib/scheduler.ts:197 | no best iff no candidates; otherwise the best has the maximum total and every earlier candidate scores strictly less |
| Matching.ScanSlotsSound | src/lib/scheduler.ts:183-206 | every scored slot of a TA below capacity is feasible and unoccupied for that TA |
| Matching.ScanSlotsComplete | src/lib/scheduler.ts:183-206 | every feasible slot unoccupied for the TA is scored |
| Matching.TaCandidatesSound | src/lib/scheduler.ts:173-207 | every candidate of one TA is below capacity, feasible and unoccupied |
| Matching.CandidatesSound | src/lib/scheduler.ts:173-208 | every candidate over all TAs is eligible |
| Matching.CandidatesComplete | src/lib/scheduler.ts:173-208 | every eligible (TA, slot) pair is a candidate |
| Matching.FindBestCorrect | src/lib/scheduler.ts:150-211 | null iff no eligible (TA, slot) pair exists; otherwise an eligible pair with the maximum total |
| Matching.NoLabsForZeroCapacity | src/lib/scheduler.ts:178 | a TA with maxLabs 0 is never chosen |
| Matching.FindBestTA | src/lib/scheduler.ts:150-211 | the nested loops return the first maximal candidate and leave the shared generator where the candidate scan ends |
| Scheduler.LockAllKeepsRng | src/lib/scheduler.ts:33-41 | recording locked assignments draws nothing and marks nothing unassigned |
| Scheduler.InitialLoadsEmpty | src/lib/scheduler.ts:26 | every TA starts with no assignments |
| Scheduler.RecordTracks | src/lib/scheduler.ts:94-100 | recording an assignment keeps the load map and the occupancy map in step with the assignment list, and keeps slots distinct when the slot was free |
| Scheduler.LockAllAppends | src/lib/scheduler.ts:32-41 | the locked assignments are appended in order and the maps track them |
| Scheduler.StartFacts | src/lib/scheduler.ts:20-41 | the run starts with exactly the locked assignments, nothing unassigned, and the seeded generator |
| Scheduler.PlaceChoice | src/lib/scheduler.ts:62-92 | a lab is left unassigned iff no eligible (TA, slot) pair exists; otherwise the new unlocked assignment has the lab's id, a feasible slot, a TA below capacity and a free slot |
| Scheduler.PlaceKeeps | src/lib/scheduler.ts:94-100 | placing a lab keeps the maps consistent, keeps slots distinct, and keeps every TA within capacity |
| Scheduler.PlaceAllKeeps | src/lib/scheduler.ts:51-101 | the whole loop keeps slots distinct and TAs within capacity |
| Scheduler.PlaceTracks | src/lib/scheduler.ts:51-101 | one lab keeps the TA lists and the occupied keys in step with the result, whatever the locked input |
| Scheduler.PlaceAllTracks | src/lib/scheduler.ts:51-101 | the whole loop keeps the TA lists and occupied keys in step with the result, whatever the locked input |
| Scheduler.FreshAppend | src/lib/scheduler.ts:51-101 | appending an assignment leaves every earlier position fresh |
| Scheduler.RecordFresh | src/lib/scheduler.ts:177-189 | an assignment on an unoccupied key, for a listed TA below maxLabs, takes no earlier key and finds its TA below capacity among the earlier assignments |
| Scheduler.PlaceFresh | src/lib/scheduler.ts:177-189 | one lab keeps every position from a given index on fresh |
| Scheduler.PlaceAllFresh | src/lib/scheduler.ts:177-189 | every assignment the loop appends takes a key no earlier assignment holds and goes to a listed TA below maxLabs |
| Scheduler.PlaceAllGrows | src/lib/scheduler.ts:51-101 | earlier results stay as a prefix, and each lab adds exactly one assignment or one unassigned entry |
| Scheduler.PlaceAllNew | src/lib/scheduler.ts:80-92 | every new assignment is unlocked, for one of the placed labs, in one of its feasible slots, with a TA of the list |
| Scheduler.PlaceAllUnassigned | src/lib/scheduler.ts:54-78 | every lab left out carries the "No available TA" reason; the "No feasible time slots" branch never fires |
| Scheduler.UnlockedFacts | src/lib/scheduler.ts:44-45 | a lab is kept iff it is in the input and no locked assignment covers its id |
| Scheduler.ToPlaceHas | src/lib/scheduler.ts:32-45 | the labs to place are the input labs not covered by a locked assignment |
| Scheduler.ScheduleKeepsLockedAndAccounts | src/lib/scheduler.ts:14-104 | the locked inputs come first, unchanged and in order; new assignments plus unassigned labs number the labs to place |
| Scheduler.LabIdsPermutation | src/lib/scheduler.ts:48 | reordering the labs, as the difficulty sort does, keeps the multiset of their ids |
| Scheduler.PlaceAccounts | src/lib/scheduler.ts:51-101 | one turn of the lab loop adds the lab's id exactly once, as a new assignment or as an unassigned lab |
| Scheduler.PlaceAllAccounts | src/lib/scheduler.ts:51-101 | the lab loop adds, across assignments and unassigned labs, exactly the ids of the labs it is given, each as often as given |
| Scheduler.PlacedAccounts | src/lib/scheduler.ts:48-101 | run over a reordering of the labs to place, the loop's additions after the existing assignments carry exactly those labs' ids |
| Scheduler.ScheduleAccountsEachLab | src/lib/scheduler.ts:14-104 | every lab still to place appears exactly once after the locked assignments: the lab ids of the new assignments and of the unassigned labs together are the ids of the labs to place, with the same multiplicities |
| Scheduler.ScheduleNewAssignments | src/lib/scheduler.ts:51-101 | every assignment that is not a locked input is a valid new assignment of a lab to place |
| Scheduler.ScheduleNewAssignmentsFresh | src/lib/scheduler.ts:177-189 | every non-locked assignment takes a key no earlier assignment holds and goes to a listed TA below maxLabs, even when the locked inputs clash |
| Scheduler.ScheduleUnassigned | src/lib/scheduler.ts:72-78 | every unassigned entry names a lab to place and the "No available TA" reason |
| Scheduler.ScheduleValidates | src/lib/__tests__/scheduler.test.ts:65-90 | with unique TA ids and conflict-free, within-capacity locked inputs, validation of the result reports no errors |
| Scheduler.ScheduleAssignments | src/lib/scheduler.ts:14-104 | the two loops over the mutable maps compute exactly the specified schedule |
| Validation.SlotMapKeys | src/lib/scheduler.ts:250-257 | the slot map has a key exactly for each occupied (day, time, TA) |
| Validation.SlotMapNonEmpty | src/lib/scheduler.ts:254-256 | each slot-map entry holds at least one assignment |
| Validation.CountMapCounts | src/lib/scheduler.ts:267-271 | the count map records, for each TA id in first-seen order, its number of assignments |
| Validation.CountPositive | src/lib/scheduler.ts:267-271 | a TA's count is positive iff it has an assignment |
| Validation.TaOrderFacts | src/lib/scheduler.ts:273 | the iteration order lists each assigned TA id exactly once |
| Validation.TaMapHas | src/lib/scheduler.ts:247 | the TA map has exactly the listed ids, each mapped to a TA with that id |
| Validation.TaMapUnique | src/lib/scheduler.ts:247 | with unique ids each TA is found under its own id |
| Validation.DoubleBookingsCount | src/lib/scheduler.ts:252-264 | one message per assignment after the first in its (day, time, TA) group |
| Validation.KeySetBound | src/lib/scheduler.ts:252-264 | there are no more occupied slots than assignments |
| Validation.DistinctKeysStep | src/lib/scheduler.ts:258 | appending keeps slots distinct iff the new slot was not already taken |
| Validation.DoubleBookingsEmptyIff | src/lib/scheduler.ts:252-264 | no double-booking message iff all slots are distinct |
| Validation.CapacityErrorsEmptyIff | src/lib/scheduler.ts:273-278 | no capacity message iff no listed TA is over capacity |
| Validation.CapacityErrorsCount | src/lib/scheduler.ts:273-278 | over an order without repeats, there are as many capacity messages as over-capacity ids |
| Validation.CapacityErrorsHasEach | src/lib/scheduler.ts:273-278 | every over-capacity id in the order gets its "is assigned N labs but max is M" message |
| Validation.CapacityErrorsOnlyOver | src/lib/scheduler.ts:273-278 | every capacity message is the message of an over-capacity id in the order |
| Validation.CapacityMessages | src/lib/scheduler.ts:266-278 | each known TA with assignments over maxLabs gets exactly one capacity message, and there is no other |
| Validation.ValidateEmptyIff | src/lib/scheduler.ts:241-281 | no errors iff all slots are distinct and no assigned TA is over its maxLabs |
| Validation.DoubleBookingErrors | src/lib/scheduler.ts:250-264 | the slot-map loop emits exactly the double-booking messages |
| Validation.CountPerTa | src/lib/scheduler.ts:267-271 | the counting loop builds the count map and its insertion order |
| Validation.ValidateSchedule | src/lib/scheduler.ts:241-281 | the method's errors are exactly the specified messages, double bookings first |
| Store.MapWhereAt | src/store/useStore.ts:115-117 | a conditional map changes exactly the elements that match |
| Store.MapWhereIdempotent | src/store/useStore.ts:189-197 | applying an idempotent edit twice gives the same list as once |
| Store.FilterFacts | src/store/useStore.ts:125-126 | a filter keeps exactly the matching elements, is the identity when all match, and never grows the list |
| Store.FilterCount | src/store/useStore.ts:125-126 | a kept element occurs in the result as often as in the input, a dropped one not at all |
| Store.FilterAppend | src/store/useStore.ts:125-126 | filtering a concatenation is the concatenation of the filtered parts, in order |
| Store.FilterIndices | src/store/useStore.ts:125-126 | the result is the subsequence of exactly the kept positions, in increasing order |
| Store.UpdateTAs | src/store/useStore.ts:113-121 | same length; a TA with the id is overridden by the patch, every other TA is unchanged |
| Store.WithoutTA | src/store/useStore.ts:125 | every TA with another id remains as often as before, none with the id does; nothing changes when the id is absent |
| Store.WithoutTAAssignments | src/store/useStore.ts:126 | every assignment of another TA remains as often as before, none of the removed TA does; nothing changes when none match |
| Store.UpdateLabs | src/store/useStore.ts:132-140 | same length; a lab with the id is overridden by the patch, every other lab is unchanged |
| Store.LockLabSlots | src/store/useStore.ts:142-150 | same length; a matching lab gets exactly the given locked day and time, others are unchanged |
| Store.LockAssignments | src/store/useStore.ts:189-197 | same length; a matching assignment gets exactly locked := lock, others are unchanged |
| Store.MoveAssignments | src/store/useStore.ts:199-209 | same length; a matching assignment gets the new TA, day and time and locked := true, keeping its score |
| Store.EditsIdempotent | src/store/useStore.ts:113-209 | repeating any of the five list edits with the same arguments changes nothing further |
| Store.LockedOfHas | src/store/useStore.ts:161 | the locked filter keeps exactly the assignments whose locked flag is true |
| Store.LockedOfIdempotent | src/store/useStore.ts:161 | filtering the locked assignments twice is filtering once |
| Store.RunKeepsLocked | src/store/useStore.ts:157-166 | after a run the assignments start with the previously locked ones, unchanged and in order |
| Store.MovedSurvivesRun | src/store/useStore.ts:199-209 | a moved assignment is locked and therefore survives the next scheduler run |
| Store.AppStore.constructor | src/types/index.ts:39-50 | the store holds the given labs, TAs, seed, assignments and unassigned labs |
| Store.AppStore.AddTA | src/store/useStore.ts:102-111 | appends the one new TA with the given id; nothing else changes |
| Store.AppStore.UpdateTA | src/store/useStore.ts:113-121 | the TA list becomes the patched list; nothing else changes |
| Store.AppStore.RemoveTA | src/store/useStore.ts:123-130 | drops the TA and its assignments, keeping every other record with its multiplicity and order; nothing else changes |
| Store.RemoveTAKeepsOrder | src/store/useStore.ts:123-130 | the remaining TAs and assignments are the subsequences of the kept positions, in their original order |
| Store.AppStore.UpdateLab | src/store/useStore.ts:132-140 | the lab list becomes the patched list; nothing else changes |
| Store.AppStore.LockLabSlot | src/store/useStore.ts:142-150 | sets the matching labs' locked day and time; nothing else changes |
| Store.AppStore.RunScheduler | src/store/useStore.ts:152-168 | replaces assignments and unassigned labs by the schedule of the locked assignments, which come first |
| Store.AppStore.SetGlobalSeed | src/store/useStore.ts:179-182 | sets the seed; nothing else changes |
| Store.AppStore.LockAssignment | src/store/useStore.ts:189-197 | sets the lock flag of the matching assignments; nothing else changes |
| Store.AppStore.MoveAssignment | src/store/useStore.ts:199-209 | moves and locks the matching assignments; nothing else changes |
| Regex.SearchFound | src/lib/parser.ts:120 | a match at any later position makes the scan succeed |
| Regex.SearchWitness | src/lib/parser.ts:120 | a successful scan has a matching position |
| Regex.TestFound | src/lib/parser.ts:126-132 | a regular expression holds when one of its alternatives matches somewhere |
| Regex.TestWitness | src/lib/parser.ts:126-132 | a regular expression that holds has a matching alternative and position |
| Regex.WordAtSplit | src/lib/parser.ts:110-116 | text that spells u + v spells u and then v |
| Parser.DayPatterns | src/lib/parser.ts:109-117 | seven patterns, the k-th being `\bDay(?:suffix)?\b` for the k-th day of the week |
| Parser.MatchedDaysHas | src/lib/parser.ts:119-123 | a day is collected iff it is in the list and its pattern matches the text |
| Parser.MatchedDaysOrdered | src/lib/parser.ts:119-123 | the collected days keep week order |
| Parser.MatchedTimesHas | src/lib/parser.ts:126-134 | a time is collected iff its pattern matches the text |
| Parser.MatchedTimesOrdered | src/lib/parser.ts:126-134 | the collected times are increasing |
| Parser.ParsedDaysFacts | src/lib/parser.ts:119-144 | non-empty, in week order, and a day is present iff its pattern matches or no day matches and it is Sun..Thu |
| Parser.ParsedTimesFacts | src/lib/parser.ts:126-139 | non-empty, increasing, and a time is present iff its pattern matches or no time matches |
| Parser.ParseDaysAndTimes | src/lib/parser.ts:104-147 | the loop and the conditionals compute exactly the parsed days and times |
| Parser.DayNameFound | src/lib/parser.ts:110-123 | a three-letter day name standing as a word puts that day in the result |
| Parser.FormattedTimeFound | src/lib/parser.ts:126-134 | a time written as "8:00", "11:00" or "14:00" standing as a word puts that time in the result |
| Parser.NoWordsDefaults | src/lib/parser.ts:136-144 | text without word characters gives Sun..Thu and 8, 11, 14 |
| Parser.FirstCode | src/lib/parser.ts:35 | a captured code is four digits |
| Parser.FirstCodeIsLeftmost | src/lib/parser.ts:35 | the captured digits follow the leftmost "cid_ENCS" + 4 digits, and no earlier position matches |
| Parser.CourseCodeAccepts | src/lib/parser.ts:31-43 | a course is kept iff the leftmost match exists and its second digit is 1; then the code is "ENCS" + those digits |
| Parser.BareCourseId | src/lib/parser.ts:35-43 | "cid_ENCS" + four digits is kept exactly when the second digit is 1 |
| Parser.LastUnderscoreSplit | src/lib/parser.ts:91 | with no underscore after the last separator, a join splits back uniquely |
| Parser.LabIdInjective | src/lib/parser.ts:91 | distinct (code, section) pairs whose sections have no underscore get distinct ids |
| Parser.LabIdHash | src/lib/parser.ts:91 | the id ends in the decimal of hashString(code + section), which reads back as that hash |
| Parser.CourseLabFacts | src/lib/parser.ts:29-102 | a lab is produced iff the course code passes the filter; its id is the hash id of its code and section L1, code and title are non-empty, days and times are non-empty and ordered, and no slot is locked |
| Parser.ValidateLab | src/lib/parser.ts:160-176 | each message appears iff its check fails and no other message appears; the list is empty iff all pass; at most three messages, in the order code, section, title |
| Parser.FilteredCodesFailValidation | src/lib/parser.ts:163-165 | a code that passes the course filter never passes validateLab's code pattern |

## Left out

- The React components, `App.tsx`, the HTTP proxy and `storage.ts`. These are UI, network and
  browser storage.
- `parseRitajHTML`, `parseHTMLFile` and the DOM traversal in `parseCourseLink`. They need a DOM
  and the File API. `CourseLab` takes as parameters the attribute and text values that the
  traversal reads: course id, span text, title text, course name, collapse text and instructor.
- The instructor regular expression in `parseCourseLink`. It uses Arabic alternatives and a
  capture of the rest of the line, so the instructor name is a parameter.
- The `.trim()` of the span and title texts. The texts are taken as already trimmed.
- `generateSeed`, `randomizeGlobalSeed` and the `Date.now`/`Math.random` TA id. They read the
  clock and `Math.random`, so `AddTA` takes the new id as a parameter.
- `formatDate` and `getCurrentTimestamp`. These do locale formatting of the clock.
- The store's `isScheduling`/`isFetching`/`error` flags, and `persist`, `initialize`,
  `uploadHTML`, `clearAll`, `exportData` and `importData`. These are UI status and I/O.
- The catch branch of `runScheduler`. The modelled scheduler never throws.
- IEEE-754 rounding of `next() * 0.01`, of the load penalty and of the total score. These are
  exact reals here. `nextInt` is exact integer arithmetic: that agrees with the double result
  for the ranges used (at most 1000000 wide), but is not claimed beyond them.
- `Array.prototype.sort`'s in-place algorithm. The sort is modelled by its result: a stable
  ordering by (slot count, tie-break), which is what ECMAScript 2019 and later guarantee.
- String hashing over characters. It works on Dafny `char` values, which agree with UTF-16
  code units for text in the Basic Multilingual Plane. Surrogate pairs are not split.
- The `lab` argument of `findBestTA` and the `labs` argument of `validateSchedule`. The source
  never reads them; they are kept as parameters for faithfulness only.
- `Parser.LabDraft` models only the fields `validateLab` reads: code, section and title.
- `Parser.LabIdInjective` requires sections without `_`. Codes may contain `_` (as in
  `ENCS_10`), and sections from the parser are always `L1`.
