/**
 * `start_pre_process`: log in, wait for the run time, discover and filter tee
 * times, rank them, then watch for the booking to open and book once. Every
 * remote call, clock reading and stop-flag check is an input of the `Env`
 * record; the run produces an `Outcome` and the trace of its external actions.
 */
module Orchestrator {
  import opened Optional
  import opened PyStr
  import opened TimeFormat
  import opened TeeTimes
  import opened StableSort
  import opened Booking

  /** The `inputs` dictionary built by the UI. */
  datatype Inputs = Inputs(id: string, pw: string, date: string, runDate: string, runTime: string,
                           startTime: string, endTime: string, courseType: string, order: string,
                           delay: string, testMode: bool)

  /**
   * What the outside world answers, in the order the run asks:
   * `login` is the member number scraped after logging in (None when the login fails);
   * `runInstantParses` is whether `strptime` accepts the run date and time;
   * `beforeTarget` is whether the clock is still before the run instant;
   * `stopAfterWait` is the stop flag after the wait;
   * `teeReply` and `completion` are the tee-list replies and the order the four requests complete in;
   * `watchStop(n)`, `elapsedMs(n)` and `calendarOpen(n)` are the stop flag, the milliseconds since
   * the watch began and the calendar's answer at the `n`-th check of the watch loop;
   * `bookStop` and `reservationReply` are the stop flag and the server's answer per booking rank.
   */
  datatype Env = Env(login: Option<string>, runInstantParses: bool, beforeTarget: bool,
                     stopAfterWait: bool, teeReply: string -> TeeReply, completion: seq<string>,
                     watchStop: nat -> bool, elapsedMs: nat -> nat, calendarOpen: nat -> bool,
                     bookStop: nat -> bool, reservationReply: nat -> ReservationReply)

  /** How a run ends. `LoginFailed` and `Crashed` are the two that report a UI error. */
  datatype Outcome = LoginFailed | Crashed | Stopped | NoCandidates | WatchEnded | BookingDone(booked: bool)

  /** The externally visible steps of a run. */
  datatype Action =
    | Login(id: string, pw: string)
    | KeepAliveStarted
    | WaitForRunTime
    | TeeQuery(query: TeeRequest)
    | CalendarQuery(date: string, msNum: string)
    | BookingStarted
    | DelaySleep(secs: nat)
    | Reserve(request: ReservationRequest)

  datatype Run = Run(outcome: Outcome, trace: seq<Action>)

  /** The watch loop gives up once 420 seconds have passed. */
  const WatchLimitMs: nat := 420000

  /** Each check of the watch loop that does not book sleeps 10 ms. */
  const PollMs: nat := 10

  /** The loop cannot run more than `WatchLimitMs / PollMs` times. */
  const MaxPolls: nat := 42000

  /**
   * The completion order is an order of the four courses, and the watch clock
   * advances by at least the 10 ms sleep per check.
   */
  ghost predicate ValidEnv(env: Env)
  {
    IsCompletionOrder(env.completion) && ClockAdvances(env)
  }

  ghost predicate ClockAdvances(env: Env)
  {
    forall n: nat :: env.elapsedMs(n) >= PollMs * n
  }

  /** `reverse=(inputs['order'] == "역순(▼)")`. */
  function Descending(inp: Inputs): bool
  {
    inp.order == "역순(▼)"
  }

  /** The sort key `int(x[0])`, where it is defined. */
  function TimeKey(s: Slot): int
  {
    match ParseInt(s.time)
    case Some(v) => v
    case None => 0
  }

  /** `int(x[0])` succeeds for every slot, so the sort does not raise. */
  predicate KeysParse(cands: seq<Slot>)
  {
    forall k :: 0 <= k < |cands| ==> ParseInt(cands[k].time).Some?
  }

  /** The slots that pass the window and the course filter, in discovery order. */
  function Candidates(inp: Inputs, env: Env): seq<Slot>
  {
    Filter(MergeInOrder(env.completion, env.teeReply), ForApi(inp.startTime), ForApi(inp.endTime),
           CourseFilter(inp.courseType))
  }

  /** `filtered` after `filtered.sort(...)`. */
  function Ranked(inp: Inputs, env: Env): seq<Slot>
  {
    Sort(Candidates(inp, env), TimeKey, Descending(inp))
  }

  function TeeQueries(reqs: seq<TeeRequest>): seq<Action>
  {
    seq(|reqs|, k requires 0 <= k < |reqs| => TeeQuery(reqs[k]))
  }

  /** The four `getTeeList` requests, in submission order. */
  function Discovery(date: string, msNum: string): seq<TeeRequest>
  {
    seq(|Courses|, k requires 0 <= k < |Courses| => TeeRequestFor(date, Courses[k], msNum))
  }

  function Reserves(calls: seq<ReservationRequest>): seq<Action>
  {
    seq(|calls|, k requires 0 <= k < |calls| => Reserve(calls[k]))
  }

  /** The steps of `run_api_booking`: its delay, if positive, then its reservation calls. */
  function BookingTrace(sleep: nat, calls: seq<ReservationRequest>): seq<Action>
  {
    [BookingStarted] + (if sleep > 0 then [DelaySleep(sleep)] else []) + Reserves(calls)
  }

  /**
   * The watch loop from its `n`-th check on: each check queries the calendar,
   * and books once the calendar is open or there are candidates at all.
   * `delay` is `int(inputs['delay'])` (None when it raises), which matters only
   * when the loop books.
   */
  function WatchSpec(inp: Inputs, env: Env, msNum: string, ranked: seq<Slot>, delay: Option<int>,
                     n: nat, trace: seq<Action>): (r: Run)
    requires ClockAdvances(env)
    ensures r.outcome.BookingDone? || r.outcome == Crashed || r.outcome == WatchEnded
    ensures r.outcome == Crashed ==> delay.None?
    ensures |ranked| > 0 && !env.watchStop(n) && env.elapsedMs(n) < WatchLimitMs ==> r.outcome != WatchEnded
    decreases MaxPolls - n
  {
    if env.watchStop(n) || env.elapsedMs(n) >= WatchLimitMs then Run(WatchEnded, trace)
    else
      var t := trace + [CalendarQuery(inp.date, msNum)];
      if env.calendarOpen(n) || |ranked| > 0 then
        match delay
        case None => Run(Crashed, t)
        case Some(d) =>
          var b := BookingSpec(inp.date, msNum, inp.testMode, ranked, env.bookStop, env.reservationReply);
          Run(BookingDone(b.booked), t + BookingTrace(SleepFor(d), b.calls))
      else
        assert PollMs * n <= env.elapsedMs(n);
        WatchSpec(inp, env, msNum, ranked, delay, n + 1, t)
  }

  /** The run from the filtered list `cands` on: ranking, then the watch loop. */
  function Proceed(inp: Inputs, env: Env, msNum: string, cands: seq<Slot>, trace: seq<Action>): (r: Run)
    requires ClockAdvances(env)
    ensures r.outcome != LoginFailed && r.outcome != Stopped
    ensures r.outcome == NoCandidates <==> cands == []
  {
    if !KeysParse(cands) then Run(Crashed, trace)
    else
      var ranked := Sort(cands, TimeKey, Descending(inp));
      if ranked == [] then Run(NoCandidates, trace)
      else WatchSpec(inp, env, msNum, ranked, ParseInt(inp.delay), 0, trace)
  }

  /** The run after the wait: discovery and filter, then `Proceed`. */
  function AfterWait(inp: Inputs, env: Env, msNum: string, trace: seq<Action>): Run
    requires ClockAdvances(env)
  {
    Proceed(inp, env, msNum, Candidates(inp, env), trace + TeeQueries(Discovery(inp.date, msNum)))
  }

  /** The steps before the tee-list queries: login, keep-alive and, if still early, the wait. */
  function Prelude(inp: Inputs, env: Env): seq<Action>
  {
    [Login(inp.id, inp.pw)] + [KeepAliveStarted] + (if env.beforeTarget then [WaitForRunTime] else [])
  }

  /** The whole of `start_pre_process`. */
  function RunSpec(inp: Inputs, env: Env): (r: Run)
    requires ClockAdvances(env)
    ensures r.outcome == LoginFailed <==> env.login.None?
    ensures r.outcome == Stopped <==> env.login.Some? && env.runInstantParses && env.stopAfterWait
    ensures r.trace != [] && r.trace[0] == Login(inp.id, inp.pw)
  {
    var t0 := [Login(inp.id, inp.pw)];
    match env.login
    case None => Run(LoginFailed, t0)
    case Some(msNum) =>
      if !env.runInstantParses then Run(Crashed, t0)
      else
        var t1 := Prelude(inp, env);
        if env.stopAfterWait then Run(Stopped, t1)
        else AfterWait(inp, env, msNum, t1)
  }

  /**
   * The watch loop of `start_pre_process`; `delay` is the parsed delay field,
   * which the loop looks at only when it books (parsing has no side effect).
   */
  method WatchForOpen(inp: Inputs, env: Env, msNum: string, ranked: seq<Slot>, delay: Option<int>,
                      trace0: seq<Action>)
    returns (outcome: Outcome, trace: seq<Action>)
    requires ClockAdvances(env)
    ensures Run(outcome, trace) == WatchSpec(inp, env, msNum, ranked, delay, 0, trace0)
  {
    var n: nat := 0;
    trace := trace0;
    while !env.watchStop(n) && env.elapsedMs(n) < WatchLimitMs
      invariant n <= MaxPolls
      invariant WatchSpec(inp, env, msNum, ranked, delay, n, trace) == WatchSpec(inp, env, msNum, ranked, delay, 0, trace0)
      decreases MaxPolls - n
    {
      assert PollMs * n <= env.elapsedMs(n);
      trace := trace + [CalendarQuery(inp.date, msNum)];
      if env.calendarOpen(n) || |ranked| > 0 {
        if delay.None? {
          return Crashed, trace;
        }
        var booked, sleep, calls := RunApiBooking(inp.date, msNum, inp.testMode, ranked, delay.value,
                                                  env.bookStop, env.reservationReply);
        return BookingDone(booked), trace + BookingTrace(sleep, calls);
      }
      n := n + 1;
    }
    outcome := WatchEnded;
  }

  /** `filtered.sort(key=lambda x: int(x[0]), reverse=...)`, in place on an array. */
  method RankCandidates(filtered: seq<Slot>, descending: bool) returns (ranked: seq<Slot>)
    ensures ranked == Sort(filtered, TimeKey, descending)
  {
    var a := new Slot[|filtered|](k requires 0 <= k < |filtered| => filtered[k]);
    assert a[..] == filtered;
    InsertionSort(a, TimeKey, descending);
    ranked := a[..];
  }

  /** Discovery, filter and ranking, then the watch loop. */
  method DiscoverAndBook(inp: Inputs, env: Env, msNum: string, trace0: seq<Action>)
    returns (outcome: Outcome, trace: seq<Action>)
    requires ValidEnv(env)
    ensures Run(outcome, trace) == AfterWait(inp, env, msNum, trace0)
  {
    var all, requests := GetAllAvailableTimes(inp.date, msNum, env.teeReply, env.completion);
    assert requests == Discovery(inp.date, msNum);
    trace := trace0 + TeeQueries(requests);
    var sLimit := ForApi(inp.startTime);
    var eLimit := ForApi(inp.endTime);
    var filtered := Filter(all, sLimit, eLimit, CourseFilter(inp.courseType));
    assert filtered == Candidates(inp, env);
    if !KeysParse(filtered) {
      return Crashed, trace;
    }
    var ranked := RankCandidates(filtered, Descending(inp));
    if ranked == [] {
      return NoCandidates, trace;
    }
    outcome, trace := WatchForOpen(inp, env, msNum, ranked, ParseInt(inp.delay), trace);
  }

  /** `start_pre_process`. */
  method StartPreProcess(inp: Inputs, env: Env) returns (outcome: Outcome, trace: seq<Action>)
    requires ValidEnv(env)
    ensures Run(outcome, trace) == RunSpec(inp, env)
  {
    trace := [Login(inp.id, inp.pw)];
    if env.login.None? {
      return LoginFailed, trace;
    }
    var msNum := env.login.value;
    if !env.runInstantParses {
      return Crashed, trace;
    }
    // The keep-alive thread starts; `wait_until` runs only while the clock is before the run instant.
    trace := trace + [KeepAliveStarted] + (if env.beforeTarget then [WaitForRunTime] else []);
    assert trace == Prelude(inp, env);
    if env.stopAfterWait {
      return Stopped, trace;
    }
    outcome, trace := DiscoverAndBook(inp, env, msNum, trace);
  }
}
