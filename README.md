# Golf tee-time booking engine, modelled in Dafny

This project models the booking engine of a single-file Streamlit app for the
GAKorea golf club (`streamlit_app.py`). The engine runs as follows:

- it logs in and keeps the session alive until a configured run instant;
- it then queries the four courses A–D (참피온OUT/IN, 마스타OUT/IN) for tee times;
- it keeps the times inside a start–end window that belong to the chosen
  course group, and ranks them by time, earliest or latest first;
- it watches for the booking to open, then tries to reserve the first five
  ranked times in order, stopping at the first the server accepts.

The model covers the engine's logic:

- the two time-string formatters (`format_time_for_api`, `format_time_for_display`);
- the Python string built-ins they rely on;
- the course tables and the merge of the four tee lists;
- the window and course filter;
- the stable in-place sort;
- the attempt sequencer `run_api_booking`;
- the control flow of `start_pre_process`.

Remote calls, the clock, the stop flag and thread scheduling are not modelled.
They become the inputs of an `Env` record: the login answer, whether the run
instant parses, whether the clock is still before the run instant, the stop flag
after the wait, the tee-list replies and the order the four requests complete in,
the stop flag, the calendar answer and the elapsed time at every check of the
watch loop, and the stop flag and the reservation reply per booking rank.

Modules, one per file:

- `Optional` (`optional.dfy`): the option type.
- `PyStr` (`pystr.dfy`): Python's `str.strip()` over the `isspace()` set,
  `replace(":", "")`, `isdigit()` over ASCII digits, `zfill`, `int()` in base 10
  and `<=` on strings. `int()` skips surrounding whitespace, takes a sign, digits
  with single `_` between them, and at most 4300 digits (CPython's default limit);
  `None` stands for the `ValueError`. The whitespace `int()` skips is not quite
  what `strip()` removes: `int()` never skips the separators U+001C..U+001F, which
  `isspace()` accepts and `strip()` removes, whatever else the string holds.
- `TimeFormat` (`time_format.dfy`): the two formatters. This includes the detail
  that `re.match(r'^\d{3,4}$')` accepts a trailing newline, which the `isdigit()`
  test then rejects.
- `TeeTimes` (`tee_times.dfy`): slots, the course tables, the mapping of one
  tee-list reply to slots, `get_all_available_times` as a method with loops,
  and the filter.
- `StableSort` (`stable_sort.dfy`): `filtered.sort(key=..., reverse=...)` as an
  in-place insertion sort on an array. It is proved equal to a functional `Sort`,
  and `Sort` is proved sorted, a permutation, stable, and the only list that is
  all three.
- `Booking` (`booking.dfy`): `run_api_booking` as a loop method, proved equal to
  the recursive specification `Attempts`.
- `Orchestrator` (`orchestrator.dfy`): `start_pre_process` as methods with an
  early-return sequence and the watch loop, proved equal to the function
  `RunSpec`. A run yields an `Outcome` and the trace of its external actions.
- `RunProperties` (`run_properties.dfy`): what every run guarantees.

Points where the code behaves as follows, and the model with it:

- The merge of the four tee lists does not deduplicate (`streamlit_app.py:157`).
  The same slot reported twice stays twice; `MergeKeepsEverySlot` proves nothing
  is lost or dropped.
- `_fetch_tee_list` and `try_reservation` make one request each, without
  retries.
- There is no settle sleep after a successful reservation.
- The watch loop sleeps 10 ms between checks, rather than retrying without delay.
- The watch loop books on its first check whenever there are candidates
  (`or len(filtered) > 0`), whatever the calendar says. `BookingOnFirstCheck`
  states this.
- `int(BK_TIME)` as the sort key raises for a time holding `:`, even though the
  filter accepted that time. The exception ends the run with a UI error
  (`ColonTimeCrashesRun`).

## Model

| member | source | states |
|---|---|---|
| `PyStr.StripLeftSpec` | streamlit_app.py:52 | `lstrip()` drops only whitespace, and what it keeps does not start with whitespace |
| `PyStr.StripRightSpec` | streamlit_app.py:52 | `rstrip()` drops only whitespace, and what it keeps does not end with whitespace |
| `PyStr.StripSpec` | streamlit_app.py:52 | `strip()` leaves no whitespace at either end, returns its input exactly when the input has none at its ends, and returns "" exactly when the input is all whitespace |
| `PyStr.Strip` | streamlit_app.py:52 | `strip()` never lengthens its input |
| `PyStr.StripKeepsChars` | streamlit_app.py:52 | `strip()` only removes characters: the result's characters are a sub-multiset of the input's |
| `PyStr.RemoveAll` | streamlit_app.py:52 | `replace(":", "")` leaves no ':' and is no longer than its input; an input without ':' is returned unchanged |
| `PyStr.RemoveAllKeepsOthers` | streamlit_app.py:52 | every character other than the removed one keeps its number of occurrences |
| `PyStr.ZFill` | streamlit_app.py:54 | `zfill(w)` yields max(len, w) characters, leaves an input of width w or more unchanged, and pads a digit string on the left with '0's |
| `PyStr.LexLe` | streamlit_app.py:258 | Python's `<=` on strings puts a prefix at or before the longer string |
| `PyStr.LexLeTotal` | streamlit_app.py:258 | Python's `<=` on strings is total and antisymmetric |
| `PyStr.LexLeIsNumericLe` | streamlit_app.py:258 | two digit strings of equal length compare with `<=` exactly as their numbers do |
| `PyStr.ParseIntOfDigits` | streamlit_app.py:259 | `int()` of a string that is ASCII digits once the whitespace `int()` skips (every `isspace()` character but U+001C..U+001F) is removed is the digits' value, and raises for more than 4300 digits |
| `PyStr.ParseInt` | streamlit_app.py:259 | `int()` raises `ValueError` on any string holding ':' |
| `PyStr.IntStripIsStrip` | streamlit_app.py:259 | without U+001C..U+001F in the string, `int()` skips exactly the whitespace `strip()` removes |
| `PyStr.InfoSeparatorBlocksInt` | streamlit_app.py:275 | `strip()` removes a leading U+001C from "\x1c5" but `int()` raises on it, also when a non-ASCII space follows ("\x1c5\xa0"), while "5\xa0" parses as 5 |
| `TimeFormat.Clean` | streamlit_app.py:52 | stripping and deleting ':' leaves no ':' and never lengthens the string |
| `TimeFormat.MatchesIsDigitRun` | streamlit_app.py:53 | the regular expression together with `isdigit()` accepts exactly 3–4 (or 4) ASCII digits; the newline the `$` lets through is rejected |
| `TimeFormat.ForApi` | streamlit_app.py:49-55 | `format_time_for_api` always returns exactly four ASCII digits |
| `TimeFormat.ForApiMalformed` | streamlit_app.py:53-55 | an input that does not clean to 3–4 digits gives "0000" |
| `TimeFormat.ForApiWellFormed` | streamlit_app.py:53-54 | 3–4 cleaned digits are kept as the result's suffix, padded with leading '0's, with the same numeric value |
| `TimeFormat.ForApiIdempotent` | streamlit_app.py:49-55 | formatting an API time again changes nothing |
| `TimeFormat.ForDisplay` | streamlit_app.py:58-64 | the display form is the cleaned input, or five characters with ':' at index 2 whose other four are the cleaned input |
| `TimeFormat.ForDisplayWellFormed` | streamlit_app.py:62-63 | four cleaned digits display as `t[:2] + ":" + t[2:]`: five characters with ':' at index 2 |
| `TimeFormat.ForDisplayMalformed` | streamlit_app.py:64 | anything else is returned stripped and with its colons removed |
| `TimeFormat.ForApiOfForDisplay` | streamlit_app.py:49-64 | for input cleaning to four digits, the API form of its display form is the cleaned input and equals its own API form |
| `TimeFormat.DisplayRoundTrip` | streamlit_app.py:49-64 | `format_time_for_api(format_time_for_display(s)) == s` for every four-digit `s` |
| `TimeFormat.ForDisplayOfForApi` | streamlit_app.py:49-64 | the display form of any API time is "HH:MM" and formats back to the same API time |
| `TimeFormat.ForDisplayKeepsHourMinute` | streamlit_app.py:58-64 | an input already in "HH:MM" digit form is displayed unchanged |
| `TimeFormat.RequestTimeMatchesFilterTime` | streamlit_app.py:185 | the time sent, API form of the display form, is the time the filter compared, unless cleaning exposes whitespace |
| `TimeFormat.ApiTimesCompareNumerically` | streamlit_app.py:258 | the window's string comparisons of API times are numeric comparisons |
| `TimeFormat.IntOfTimeIsApiValue` | streamlit_app.py:259 | for a time without ':' and without U+001C..U+001F that cleans to 3–4 digits, `int(t)` is the numeric value of its API time |
| `TeeTimes.CourseName` | streamlit_app.py:99-101 | a course letter has a real name exactly when it is one of A–D, and that name is one of the four course names; anything else is "Unknown" |
| `TeeTimes.Part` | streamlit_app.py:163 | the part sent is always "1" or "2" |
| `TeeTimes.PartIsOutHalf` | streamlit_app.py:163 | for the four courses, part "1" is exactly the OUT half of the course name, and no name is "Unknown" |
| `TeeTimes.MergeTagsEverySlot` | streamlit_app.py:170-178 | every slot discovered for a completion order carries the club code "611" and one of the four course names, never "Unknown" |
| `TeeTimes.MergeInOrder` | streamlit_app.py:155-157 | every slot of the merged list carries the club code "611" |
| `TeeTimes.GetAllAvailableTimes` | streamlit_app.py:151-158 | submits the four requests A–D with their parts, and returns the per-course lists concatenated in completion order |
| `TeeTimes.FoundOrderFree` | streamlit_app.py:156-157 | what the merge collects does not depend on the order in which the requests complete |
| `TeeTimes.MergeKeepsEverySlot` | streamlit_app.py:155-157 | for any completion order, the merge holds exactly the slots of the four lists, with multiplicity (no deduplication), and its length is the sum of theirs |
| `TeeTimes.CourseFilter` | streamlit_app.py:256 | every course letter a group selects is one of A–D |
| `TeeTimes.Filter` | streamlit_app.py:258 | the filtered list is never longer than the list found |
| `TeeTimes.FilterCounts` | streamlit_app.py:258 | a slot is kept as often as it was found when it passes the test, and never otherwise |
| `TeeTimes.FilterMembership` | streamlit_app.py:258 | a slot survives iff it was found, `s_limit <= format_time_for_api(time) <= e_limit`, and its `BK_COS` is in the group |
| `TeeTimes.FilterConcat` | streamlit_app.py:258 | the filter keeps discovery order: filtering a concatenation filters each part |
| `TeeTimes.WindowIsNumeric` | streamlit_app.py:254-258 | with both limits API-formatted, a slot is kept iff start <= its time <= end numerically and its course is in the group |
| `TeeTimes.UnknownGroupKeepsNothing` | streamlit_app.py:256-258 | a group other than "All", "참피온" and "마스타" selects no slot |
| `StableSort.InsertionSort` | streamlit_app.py:259 | the in-place sort leaves the array holding `Sort` of its old contents |
| `StableSort.SortIsSorted` | streamlit_app.py:259 | `Sort` is non-decreasing by key, non-increasing when descending |
| `StableSort.SortIsPermutation` | streamlit_app.py:259 | `Sort` is a permutation of its input |
| `StableSort.SortIsStable` | streamlit_app.py:259 | elements with equal keys keep their relative order, also when descending |
| `StableSort.SortIsTheStableSort` | streamlit_app.py:259 | any sorted, stable rearrangement equals `Sort`, which is therefore what Python's stable `list.sort` yields |
| `Booking.WireTime` | streamlit_app.py:185 | the time field of a reservation is always four ASCII digits |
| `Booking.Payload` | streamlit_app.py:183-187 | the posted form's `time` is four ASCII digits, and its `cos`, `coDiv`, `day` and `msNum` are the slot's own course letter and course code, the booking day and the member number |
| `Booking.Attempts` | streamlit_app.py:206-220 | it books only with a candidate left and the stop flag clear at the first check; test mode sends nothing; outside test mode a booking means the last call was accepted |
| `Booking.BookingSpec` | streamlit_app.py:206-220 | at most `min(5, len(sorted_times))` calls, none in test mode, and no booking without a candidate and a clear stop flag at rank 0 |
| `Booking.RunApiBooking` | streamlit_app.py:200-220 | sleeps `SleepFor(delay)`, that is `delay` seconds when positive and not at all otherwise; the result and the requests sent are those of `Attempts` over the first five candidates |
| `Booking.AttemptsCalls` | streamlit_app.py:206-218 | the calls are consecutive ranks in order, at most one per candidate, each with the stop flag clear and each but the last refused; none in test mode |
| `Booking.AttemptsOutcome` | streamlit_app.py:216-220 | outside test mode it returns True iff its last call was accepted; otherwise it ran out of candidates or saw the stop flag |
| `Booking.BookedIffSomeWinner` | streamlit_app.py:206-220 | outside test mode it books iff some candidate is accepted with the stop flag clear up to and including its rank |
| `Booking.BookingCalls` | streamlit_app.py:206 | at most `min(5, len(sorted_times))` requests, those of the first candidates in rank order, none in test mode |
| `Booking.FirstSuccessWins` | streamlit_app.py:216-220 | True iff some of the first five is accepted (`TrySucceeded`: a decoded reply with `resultCode` '0000') before a stop; nothing is sent after the first acceptance |
| `Booking.EmptyListBooksNothing` | streamlit_app.py:220 | an empty list returns False and sends nothing |
| `Booking.TestModeNeverReserves` | streamlit_app.py:207-214 | test mode sends nothing and returns True iff there is a candidate and the stop flag is clear at the first check |
| `Booking.StopHaltsAttempts` | streamlit_app.py:207 | once the stop flag is seen before rank k, no candidate at rank k or later is attempted |
| `Booking.FailThenSucceed` | streamlit_app.py:216-218 | a refusal and then an acceptance send exactly the two requests and book |
| `Booking.RequestCarriesFilterTime` | streamlit_app.py:185 | the time a request sends is the API time the filter compared, unless cleaning exposes whitespace |
| `Booking.RequestCarriesFourDigitTime` | streamlit_app.py:185 | a four-digit `BK_TIME` is sent exactly as listed |
| `Orchestrator.WatchSpec` | streamlit_app.py:271-277 | the watch loop ends with a booking, with the timeout or stop, or with an error, and the error only when `int(inputs['delay'])` raises; with candidates it never times out on a check it reaches |
| `Orchestrator.Proceed` | streamlit_app.py:259-277 | after discovery the run neither fails to log in nor stops at the wait; it ends with "no candidates" exactly when the filtered list is empty |
| `Orchestrator.RunSpec` | streamlit_app.py:226-281 | the run starts with the login call; it ends with a login failure exactly when the login fails, and stops after the wait exactly when the login succeeds, the run instant parses and the stop flag is set |
| `Orchestrator.WatchForOpen` | streamlit_app.py:268-277 | the watch loop computes `WatchSpec`: one calendar query per check, booking once and breaking, or ending on stop or after 420 s |
| `Orchestrator.RankCandidates` | streamlit_app.py:259 | sorting `filtered` in place on an array yields `Sort` by `int(time)` |
| `Orchestrator.DiscoverAndBook` | streamlit_app.py:250-277 | discovery, filter, ranking and watch compute `AfterWait` |
| `Orchestrator.StartPreProcess` | streamlit_app.py:226-281 | the whole of `start_pre_process` computes `RunSpec`: the same outcome and the same trace of external actions |
| `RunProperties.WatchBooksOnce` | streamlit_app.py:271-277 | the watch loop only extends its trace, enters `run_api_booking` once when it books and never otherwise, and reserves only then and never in test mode |
| `RunProperties.RunSpecShape` | streamlit_app.py:231-252 | a run either ends before discovery (login failure, unparsable run instant, stop) with only preliminary steps, or goes on from the filtered list after them and the four queries |
| `RunProperties.LoginFailureEndsRun` | streamlit_app.py:232-234 | a failed login ends the run with a UI error after the login call alone |
| `RunProperties.StopAfterWaitEndsRun` | streamlit_app.py:248 | a stop seen after the wait ends the run before any tee-list query |
| `RunProperties.BookingAtMostOnce` | streamlit_app.py:271-276 | `run_api_booking` is entered at most once per run, and exactly when the run ends with a booking |
| `RunProperties.TestModeSendsNoReservation` | streamlit_app.py:212-214 | a test-mode run never sends a reservation |
| `RunProperties.NoCandidatesNoBooking` | streamlit_app.py:261-263 | with no slot passing the filter: no calendar query, no booking, no reservation, and outcome "no candidates" once discovery is reached |
| `RunProperties.BookingOnFirstCheck` | streamlit_app.py:271-276 | with candidates, the run books on the first check unless stopped or out of time: one calendar query, then at most five reservations for the ranked list in order |
| `RunProperties.ColonTimeCrashesRun` | streamlit_app.py:259 | a filtered slot whose time holds ':' makes the sort raise, and the run ends with a UI error |
| `RunProperties.RankingIsStableSort` | streamlit_app.py:259 | the ranking is sorted by `int(time)`, is a permutation of the filtered slots, is stable, and is the only list that is all three |
| `RunProperties.KeysParseOfPlainTimes` | streamlit_app.py:259 | for times without ':' or U+001C..U+001F that clean to 3–4 digits, the sort key `int()` never raises and is the API time's value |
| `RunProperties.RankingFollowsApiTime` | streamlit_app.py:258-259 | for times without ':' or U+001C..U+001F that clean to 3–4 digits, the ranking runs through the API times in numeric order, reversed for "역순(▼)" |
| `RunProperties.WatchReservesRanked` | streamlit_app.py:271-276 | every reservation the watch loop sends is for a ranked slot, on the booking date, for the logged-in member |
| `RunProperties.ProceedReserves` | streamlit_app.py:259-276 | after discovery every reservation is for a slot of the filtered list |
| `RunProperties.ReservationsAreForFilteredSlots` | streamlit_app.py:226-281 | every reservation a run sends is for a discovered slot inside the window and the course group, on the booking date, for the logged-in member, with coDiv "611", the slot's own course letter and one of the four course names |
| `RunProperties.DiscoveryQueriesAllCourses` | streamlit_app.py:154-163 | discovery asks for A and C with part "1" and for B and D with part "2" |

## Left out

- The Streamlit UI: page, widgets, session state, log queue and rerun loop. It is presentation only.
- HTTP and JSON. Login, the `msNum` scrape, the calendar check, the tee-list query and
  the reservation call are inputs of `Env` (their answers), not code. A reply that
  fails to decode is one of those answers.
- `wait_until` and `keep_session_alive`. They depend on the wall clock, use float
  seconds and run as a background thread. The model records that the keep-alive
  starts and whether the wait runs, nothing more.
- `strptime` of the run date and time. Only whether it succeeds is an input.
- Real concurrency of the four tee-list workers. Their completion order is an input.
- Timestamps, log text and time zones.
- The 420 s limit is compared against an elapsed-milliseconds input. Floating
  point is left out.
- Orchestrator.StartPreProcess: requires that this elapsed time grow by at least
  the 10 ms sleep per check. This guarantees termination; the source relies on the
  real clock for it.
- Booking.RunApiBooking: does not model the `OverflowError` that `time.sleep` raises for a
  delay of 9223372037 seconds or more (the nanosecond count no longer fits 64 bits). Such
  a delay is slept like any other positive one, where the source would end the run with a
  UI error.
- PyStr.ParseInt: the 4300-digit limit is CPython's default (3.11 and later); a limit changed
  with `sys.set_int_max_str_digits`, or an older Python without one, is not modelled.
- Unicode digits. `isdigit` and `\d` are taken over ASCII only.
- `str()` of non-string values. Slot times and inputs are strings in the model.
- The `_` millisecond timestamp in the reservation form, which comes from the clock.
- The UI error message texts. The two error outcomes are `LoginFailed` and `Crashed`.
