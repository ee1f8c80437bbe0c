/**
 * What every run of `start_pre_process` guarantees, stated on `RunSpec`
 * (which `StartPreProcess` is proved to compute).
 */
module RunProperties {
  import opened Optional
  import opened PyStr
  import opened TimeFormat
  import opened TeeTimes
  import opened StableSort
  import opened Booking
  import opened Orchestrator

  /** The steps before the watch loop: logging in, keeping alive, waiting and the tee-list queries. */
  predicate Preliminary(a: Action)
  {
    a.Login? || a.KeepAliveStarted? || a.WaitForRunTime? || a.TeeQuery?
  }

  predicate AllPreliminary(trace: seq<Action>)
  {
    forall k :: 0 <= k < |trace| ==> Preliminary(trace[k])
  }

  /** How often `run_api_booking` was entered. */
  function Bookings(trace: seq<Action>): nat
  {
    multiset(trace)[BookingStarted]
  }

  lemma PreliminaryStarts(inp: Inputs, env: Env, msNum: string)
    ensures AllPreliminary(Prelude(inp, env))
    ensures AllPreliminary(Prelude(inp, env) + TeeQueries(Discovery(inp.date, msNum)))
  {
  }

  lemma {:induction false} PreliminaryHasNoBooking(trace: seq<Action>)
    requires AllPreliminary(trace)
    ensures Bookings(trace) == 0
    ensures forall k :: 0 <= k < |trace| ==> !trace[k].Reserve? && !trace[k].CalendarQuery?
  {
    assert BookingStarted !in trace;
  }

  /** The reservation steps of a booking: no second `BookingStarted`, and none at all in test mode. */
  lemma BookingTraceShape(sleep: nat, calls: seq<ReservationRequest>)
    ensures Bookings(BookingTrace(sleep, calls)) == 1
    ensures calls == [] ==> forall k :: 0 <= k < |BookingTrace(sleep, calls)| ==> !BookingTrace(sleep, calls)[k].Reserve?
  {
    var rs := Reserves(calls);
    assert BookingStarted !in rs;
    var head := [BookingStarted] + (if sleep > 0 then [DelaySleep(sleep)] else []);
    assert BookingTrace(sleep, calls) == head + rs;
    assert multiset(head)[BookingStarted] == 1;
  }

  /**
   * The watch loop enters `run_api_booking` exactly once when it books and never
   * otherwise, and sends reservations only then, never in test mode.
   */
  lemma {:induction false} WatchBooksOnce(inp: Inputs, env: Env, msNum: string, ranked: seq<Slot>, delay: Option<int>,
                                          n: nat, trace: seq<Action>)
    requires ClockAdvances(env)
    ensures var r := WatchSpec(inp, env, msNum, ranked, delay, n, trace);
      && |trace| <= |r.trace| && r.trace[..|trace|] == trace
      && Bookings(r.trace) == Bookings(trace) + (if r.outcome.BookingDone? then 1 else 0)
      && (forall k :: |trace| <= k < |r.trace| && r.trace[k].Reserve? ==> r.outcome.BookingDone? && !inp.testMode)
    decreases MaxPolls - n
  {
    if !env.watchStop(n) && env.elapsedMs(n) < WatchLimitMs {
      if env.calendarOpen(n) || |ranked| > 0 {
        WatchBookingCheck(inp, env, msNum, ranked, delay, n, trace);
      } else {
        var t := trace + [CalendarQuery(inp.date, msNum)];
        assert PollMs * n <= env.elapsedMs(n);
        WatchBooksOnce(inp, env, msNum, ranked, delay, n + 1, t);
        var r := WatchSpec(inp, env, msNum, ranked, delay, n + 1, t);
        assert WatchSpec(inp, env, msNum, ranked, delay, n, trace) == r;
        PollStep(trace, CalendarQuery(inp.date, msNum), r.trace, if r.outcome.BookingDone? then 1 else 0,
                 r.outcome.BookingDone? && !inp.testMode);
      }
    }
  }

  /**
   * A check that only queries the calendar: what the rest of the loop guarantees
   * after it also holds from before it.
   */
  lemma PollStep(trace: seq<Action>, q: Action, u: seq<Action>, extra: nat, ok: bool)
    requires q.CalendarQuery?
    requires var t := trace + [q];
      && |t| <= |u| && u[..|t|] == t && Bookings(u) == Bookings(t) + extra
      && (forall k :: |t| <= k < |u| && u[k].Reserve? ==> ok)
    ensures |trace| <= |u| && u[..|trace|] == trace && Bookings(u) == Bookings(trace) + extra
    ensures forall k :: |trace| <= k < |u| && u[k].Reserve? ==> ok
  {
    var t := trace + [q];
    QueryKeepsBookings(trace, q);
    assert u[..|trace|] == u[..|t|][..|trace|];
    assert u[|trace|] == u[..|t|][|trace|] == q;
  }

  /** A step other than `BookingStarted` leaves the count of bookings as it was. */
  lemma QueryKeepsBookings(trace: seq<Action>, a: Action)
    requires !a.BookingStarted?
    ensures (trace + [a])[..|trace|] == trace
    ensures Bookings(trace + [a]) == Bookings(trace)
  {
    assert multiset(trace + [a]) == multiset(trace) + multiset{a};
  }

  /** The check of the watch loop that books. */
  lemma WatchBookingCheck(inp: Inputs, env: Env, msNum: string, ranked: seq<Slot>, delay: Option<int>,
                          n: nat, trace: seq<Action>)
    requires ClockAdvances(env) && !env.watchStop(n) && env.elapsedMs(n) < WatchLimitMs
    requires env.calendarOpen(n) || |ranked| > 0
    ensures var r := WatchSpec(inp, env, msNum, ranked, delay, n, trace);
      && |trace| <= |r.trace| && r.trace[..|trace|] == trace
      && Bookings(r.trace) == Bookings(trace) + (if r.outcome.BookingDone? then 1 else 0)
      && (forall k :: |trace| <= k < |r.trace| && r.trace[k].Reserve? ==> r.outcome.BookingDone? && !inp.testMode)
  {
    if delay.Some? {
      var b := BookingSpec(inp.date, msNum, inp.testMode, ranked, env.bookStop, env.reservationReply);
      BookingCalls(inp.date, msNum, inp.testMode, ranked, env.bookStop, env.reservationReply);
      var t := trace + [CalendarQuery(inp.date, msNum)];
      BookedTrace(trace, t, SleepFor(delay.value), b.calls, inp.testMode);
      assert WatchSpec(inp, env, msNum, ranked, delay, n, trace)
          == Run(BookingDone(b.booked), t + BookingTrace(SleepFor(delay.value), b.calls));
    } else {
      QueryKeepsBookings(trace, CalendarQuery(inp.date, msNum));
    }
  }

  /** The trace of the check that books: the calendar query, then the steps of `run_api_booking`. */
  lemma BookedTrace(trace: seq<Action>, t: seq<Action>, sleep: nat, calls: seq<ReservationRequest>, testMode: bool)
    requires |t| == |trace| + 1 && t[..|trace|] == trace && t[|trace|].CalendarQuery?
    requires testMode ==> calls == []
    ensures var u := t + BookingTrace(sleep, calls);
      && |trace| <= |u| && u[..|trace|] == trace
      && Bookings(u) == Bookings(trace) + 1
      && (forall k :: |trace| <= k < |u| && u[k].Reserve? ==> !testMode)
  {
    var bt := BookingTrace(sleep, calls);
    BookingTraceShape(sleep, calls);
    assert t == trace + [t[|trace|]];
    assert (t + bt)[..|trace|] == trace;
    assert multiset(t + bt) == multiset(trace) + multiset{t[|trace|]} + multiset(bt);
    forall k | |trace| <= k < |t + bt| && (t + bt)[k].Reserve?
      ensures !testMode
    {
      assert (t + bt)[k] == bt[k - |t|];
    }
  }

  /**
   * From the filtered list on, after preliminary steps only: `run_api_booking` is
   * entered once exactly when the run books, reservations happen only then and
   * never in test mode, and no candidates end the run at once.
   */
  lemma ProceedShape(inp: Inputs, env: Env, msNum: string, cands: seq<Slot>, trace: seq<Action>)
    requires ClockAdvances(env) && AllPreliminary(trace)
    ensures var r := Proceed(inp, env, msNum, cands, trace);
      && Bookings(r.trace) == (if r.outcome.BookingDone? then 1 else 0)
      && (forall k :: 0 <= k < |r.trace| && r.trace[k].Reserve? ==> r.outcome.BookingDone? && !inp.testMode)
      && (cands == [] ==> r == Run(NoCandidates, trace))
  {
    PreliminaryHasNoBooking(trace);
    if KeysParse(cands) && Sort(cands, TimeKey, Descending(inp)) != [] {
      var ranked := Sort(cands, TimeKey, Descending(inp));
      WatchBooksOnce(inp, env, msNum, ranked, ParseInt(inp.delay), 0, trace);
      var r := WatchSpec(inp, env, msNum, ranked, ParseInt(inp.delay), 0, trace);
      assert forall k :: 0 <= k < |trace| ==> r.trace[k] == r.trace[..|trace|][k];
    }
  }

  /** With candidates, the watch loop books on its first check unless it is stopped or out of time. */
  lemma ProceedFirstCheck(inp: Inputs, env: Env, msNum: string, cands: seq<Slot>, trace: seq<Action>, d: int)
    requires ClockAdvances(env) && KeysParse(cands) && cands != []
    requires !env.watchStop(0) && env.elapsedMs(0) < WatchLimitMs && ParseInt(inp.delay) == Some(d)
    ensures var ranked := Sort(cands, TimeKey, Descending(inp));
      var b := BookingSpec(inp.date, msNum, inp.testMode, ranked, env.bookStop, env.reservationReply);
      && |ranked| == |cands|
      && Proceed(inp, env, msNum, cands, trace)
         == Run(BookingDone(b.booked), trace + [CalendarQuery(inp.date, msNum)] + BookingTrace(SleepFor(d), b.calls))
  {
    var ranked := Sort(cands, TimeKey, Descending(inp));
    SortIsPermutation(cands, TimeKey, Descending(inp));
    assert |ranked| == |cands| by {
      assert |multiset(ranked)| == |multiset(cands)|;
    }
  }

  /**
   * A run either ends before discovery with no booking and only preliminary
   * steps, or goes on from the filtered candidates after the prelude and the
   * four tee-list queries.
   */
  lemma RunSpecShape(inp: Inputs, env: Env)
    requires ClockAdvances(env)
    ensures var r := RunSpec(inp, env);
      if env.login.Some? && env.runInstantParses && !env.stopAfterWait then
        && AllPreliminary(Prelude(inp, env) + TeeQueries(Discovery(inp.date, env.login.value)))
        && r == Proceed(inp, env, env.login.value, Candidates(inp, env),
                        Prelude(inp, env) + TeeQueries(Discovery(inp.date, env.login.value)))
      else
        && AllPreliminary(r.trace)
        && (r.outcome == LoginFailed || r.outcome == Crashed || r.outcome == Stopped)
  {
    if env.login.Some? {
      PreliminaryStarts(inp, env, env.login.value);
    }
  }

  /** A failed login ends the run at once: no wait, no discovery, no booking, a UI error. */
  lemma LoginFailureEndsRun(inp: Inputs, env: Env)
    requires ClockAdvances(env) && env.login.None?
    ensures RunSpec(inp, env) == Run(LoginFailed, [Login(inp.id, inp.pw)])
  {
  }

  /** The stop flag seen after the wait ends the run before any tee-list query. */
  lemma StopAfterWaitEndsRun(inp: Inputs, env: Env)
    requires ClockAdvances(env) && env.login.Some? && env.runInstantParses && env.stopAfterWait
    ensures var r := RunSpec(inp, env);
      r.outcome == Stopped && forall k :: 0 <= k < |r.trace| ==> !r.trace[k].TeeQuery?
  {
  }

  /** `run_api_booking` is entered at most once per run, and exactly when the run ends with a booking. */
  lemma BookingAtMostOnce(inp: Inputs, env: Env)
    requires ClockAdvances(env)
    ensures Bookings(RunSpec(inp, env).trace) == if RunSpec(inp, env).outcome.BookingDone? then 1 else 0
  {
    RunSpecShape(inp, env);
    if env.login.Some? && env.runInstantParses && !env.stopAfterWait {
      ProceedShape(inp, env, env.login.value, Candidates(inp, env),
                   Prelude(inp, env) + TeeQueries(Discovery(inp.date, env.login.value)));
    } else {
      PreliminaryHasNoBooking(RunSpec(inp, env).trace);
    }
  }

  /** Test mode never sends a reservation. */
  lemma TestModeSendsNoReservation(inp: Inputs, env: Env)
    requires ClockAdvances(env) && inp.testMode
    ensures forall k :: 0 <= k < |RunSpec(inp, env).trace| ==> !RunSpec(inp, env).trace[k].Reserve?
  {
    RunSpecShape(inp, env);
    if env.login.Some? && env.runInstantParses && !env.stopAfterWait {
      ProceedShape(inp, env, env.login.value, Candidates(inp, env),
                   Prelude(inp, env) + TeeQueries(Discovery(inp.date, env.login.value)));
    } else {
      PreliminaryHasNoBooking(RunSpec(inp, env).trace);
    }
  }

  /**
   * With no slot passing the filter the run ends before the watch loop: no
   * calendar query, no `run_api_booking`, no reservation.
   */
  lemma NoCandidatesNoBooking(inp: Inputs, env: Env)
    requires ClockAdvances(env) && Candidates(inp, env) == []
    ensures var r := RunSpec(inp, env);
      && !r.outcome.BookingDone?
      && (env.login.Some? && env.runInstantParses && !env.stopAfterWait ==> r.outcome == NoCandidates)
      && forall k :: 0 <= k < |r.trace| ==> !r.trace[k].Reserve? && !r.trace[k].CalendarQuery? && r.trace[k] != BookingStarted
  {
    RunSpecShape(inp, env);
    if env.login.Some? && env.runInstantParses && !env.stopAfterWait {
      var t := Prelude(inp, env) + TeeQueries(Discovery(inp.date, env.login.value));
      ProceedShape(inp, env, env.login.value, [], t);
      PreliminaryHasNoBooking(t);
    } else {
      PreliminaryHasNoBooking(RunSpec(inp, env).trace);
    }
  }

  /**
   * Once there are candidates, the watch loop books on its first check unless it
   * is stopped or out of time: one calendar query, then `run_api_booking` on the
   * ranked list, which tries at most the first five candidates in rank order.
   */
  lemma BookingOnFirstCheck(inp: Inputs, env: Env, d: int)
    requires ClockAdvances(env) && env.login.Some? && env.runInstantParses && !env.stopAfterWait
    requires KeysParse(Candidates(inp, env)) && Candidates(inp, env) != []
    requires !env.watchStop(0) && env.elapsedMs(0) < WatchLimitMs && ParseInt(inp.delay) == Some(d)
    ensures var msNum := env.login.value;
      var b := BookingSpec(inp.date, msNum, inp.testMode, Ranked(inp, env), env.bookStop, env.reservationReply);
      && RunSpec(inp, env) == Run(BookingDone(b.booked), Prelude(inp, env) + TeeQueries(Discovery(inp.date, msNum))
                                  + [CalendarQuery(inp.date, msNum)] + BookingTrace(SleepFor(d), b.calls))
      && |b.calls| <= Limit(Ranked(inp, env)) <= MaxAttempts
      && (forall k :: 0 <= k < |b.calls| ==> b.calls[k] == RequestFor(inp.date, msNum, Ranked(inp, env)[k]))
  {
    var msNum := env.login.value;
    RunSpecShape(inp, env);
    ProceedFirstCheck(inp, env, msNum, Candidates(inp, env), Prelude(inp, env) + TeeQueries(Discovery(inp.date, msNum)), d);
    BookingCalls(inp.date, msNum, inp.testMode, Ranked(inp, env), env.bookStop, env.reservationReply);
  }

  /**
   * A candidate whose `BK_TIME` holds ':' passes the filter (which deletes colons)
   * but makes the sort key `int()` raise: the run is reported as an error.
   */
  lemma ColonTimeCrashesRun(inp: Inputs, env: Env, k: nat)
    requires ClockAdvances(env) && env.login.Some? && env.runInstantParses && !env.stopAfterWait
    requires k < |Candidates(inp, env)| && ':' in Candidates(inp, env)[k].time
    ensures RunSpec(inp, env).outcome == Crashed
  {
    assert ParseInt(Candidates(inp, env)[k].time) == None;
  }

  /**
   * The ranked list is the candidates sorted by `int(BK_TIME)` (descending for
   * "역순(▼)"), a permutation of them, stable among equal times, and the only such list.
   */
  lemma RankingIsStableSort(inp: Inputs, env: Env)
    ensures Sorted(Ranked(inp, env), TimeKey, Descending(inp))
    ensures multiset(Ranked(inp, env)) == multiset(Candidates(inp, env))
    ensures Stable(Ranked(inp, env), Candidates(inp, env), TimeKey)
    ensures forall r :: Sorted(r, TimeKey, Descending(inp)) && Stable(r, Candidates(inp, env), TimeKey) ==> r == Ranked(inp, env)
  {
    var c := Candidates(inp, env);
    SortIsSorted(c, TimeKey, Descending(inp));
    SortIsPermutation(c, TimeKey, Descending(inp));
    SortIsStable(c, TimeKey, Descending(inp));
    forall r | Sorted(r, TimeKey, Descending(inp)) && Stable(r, c, TimeKey)
      ensures r == Ranked(inp, env)
    {
      SortIsTheStableSort(c, r, TimeKey, Descending(inp));
    }
  }

  /** `BK_TIME` values of three or four digits without ':' and without U+001C..U+001F. */
  predicate PlainTimes(cands: seq<Slot>)
  {
    forall s :: s in cands ==> DigitRun(Clean(s.time), 3, 4) && ':' !in s.time && NoInfoSeparator(s.time)
  }

  /** For plain times the sort key `int(x[0])` never raises and is the value of the API time. */
  lemma KeysParseOfPlainTimes(cands: seq<Slot>)
    requires PlainTimes(cands)
    ensures KeysParse(cands)
    ensures forall k :: 0 <= k < |cands| ==> TimeKey(cands[k]) == Value(ForApi(cands[k].time))
  {
    forall k | 0 <= k < |cands|
      ensures ParseInt(cands[k].time) == Some(Value(ForApi(cands[k].time)))
    {
      assert cands[k] in cands;
      IntOfTimeIsApiValue(cands[k].time);
    }
  }

  /**
   * For plain times the sort key is the API time's value, so the ranking runs
   * through the API times in numeric order: earliest first, or latest first when descending.
   */
  lemma RankingFollowsApiTime(cands: seq<Slot>, descending: bool)
    requires PlainTimes(cands)
    ensures var r := Sort(cands, TimeKey, descending);
      forall i, j :: 0 <= i < j < |r| ==>
        if descending then Value(ForApi(r[j].time)) <= Value(ForApi(r[i].time))
        else Value(ForApi(r[i].time)) <= Value(ForApi(r[j].time))
  {
    var r := Sort(cands, TimeKey, descending);
    SortIsSorted(cands, TimeKey, descending);
    SortIsPermutation(cands, TimeKey, descending);
    forall i | 0 <= i < |r|
      ensures TimeKey(r[i]) == Value(ForApi(r[i].time))
    {
      assert r[i] in multiset(r);
      assert r[i] in cands;
      IntOfTimeIsApiValue(r[i].time);
    }
  }

  /** The reservation steps of `run_api_booking` are the requests it was given. */
  lemma {:induction false} ReservesOfBookingTrace(sleep: nat, calls: seq<ReservationRequest>)
    ensures forall a :: a in BookingTrace(sleep, calls) && a.Reserve? ==> a.request in calls
  {
    var head := [BookingStarted] + (if sleep > 0 then [DelaySleep(sleep)] else []);
    assert BookingTrace(sleep, calls) == head + Reserves(calls);
    forall a | a in Reserves(calls)
      ensures a.request in calls
    {
      var k :| 0 <= k < |calls| && Reserves(calls)[k] == a;
    }
  }

  /** Every reservation the watch loop sends is for a ranked slot, on the booking date, for the member. */
  lemma {:induction false} WatchReservesRanked(inp: Inputs, env: Env, msNum: string, ranked: seq<Slot>,
                                               delay: Option<int>, n: nat, trace: seq<Action>)
    requires ClockAdvances(env)
    ensures forall a :: a in WatchSpec(inp, env, msNum, ranked, delay, n, trace).trace && a.Reserve? ==>
      a in trace || (a.request.slot in ranked && a.request.day == inp.date && a.request.msNum == msNum)
    decreases MaxPolls - n
  {
    if !env.watchStop(n) && env.elapsedMs(n) < WatchLimitMs {
      var t := trace + [CalendarQuery(inp.date, msNum)];
      if env.calendarOpen(n) || |ranked| > 0 {
        if delay.Some? {
          var b := BookingSpec(inp.date, msNum, inp.testMode, ranked, env.bookStop, env.reservationReply);
          BookingCalls(inp.date, msNum, inp.testMode, ranked, env.bookStop, env.reservationReply);
          ReservesOfBookingTrace(SleepFor(delay.value), b.calls);
          forall q | q in b.calls
            ensures q.slot in ranked && q.day == inp.date && q.msNum == msNum
          {
            var k :| 0 <= k < |b.calls| && b.calls[k] == q;
          }
        }
      } else {
        assert PollMs * n <= env.elapsedMs(n);
        WatchReservesRanked(inp, env, msNum, ranked, delay, n + 1, t);
      }
    }
  }

  /** From the filtered list on, after preliminary steps, every reservation is for a candidate. */
  lemma ProceedReserves(inp: Inputs, env: Env, msNum: string, cands: seq<Slot>, trace: seq<Action>)
    requires ClockAdvances(env) && AllPreliminary(trace)
    ensures forall a :: a in Proceed(inp, env, msNum, cands, trace).trace && a.Reserve? ==>
      a.request.slot in cands && a.request.day == inp.date && a.request.msNum == msNum
  {
    PreliminaryHasNoBooking(trace);
    assert forall a :: a in trace ==> !a.Reserve?;
    if KeysParse(cands) && Sort(cands, TimeKey, Descending(inp)) != [] {
      var ranked := Sort(cands, TimeKey, Descending(inp));
      WatchReservesRanked(inp, env, msNum, ranked, ParseInt(inp.delay), 0, trace);
      SortIsPermutation(cands, TimeKey, Descending(inp));
      forall s | s in ranked
        ensures s in cands
      {
        assert s in multiset(ranked);
      }
    }
  }

  /**
   * Every reservation a run sends is for a discovered slot that passes the window
   * and course filter, on the booking date, for the logged-in member, and its
   * form carries the club code "611" and the slot's own course letter; the slot
   * is named after one of the four courses.
   */
  lemma ReservationsAreForFilteredSlots(inp: Inputs, env: Env)
    requires ClockAdvances(env) && IsCompletionOrder(env.completion)
    ensures forall a :: a in RunSpec(inp, env).trace && a.Reserve? ==>
      var q := a.request;
      && q.slot in MergeInOrder(env.completion, env.teeReply)
      && Keep(q.slot, ForApi(inp.startTime), ForApi(inp.endTime), CourseFilter(inp.courseType))
      && env.login == Some(q.msNum) && q.day == inp.date
      && Payload(q).coDiv == CoDiv && Payload(q).cos == q.slot.cos && q.slot.courseName in CourseNames
  {
    RunSpecShape(inp, env);
    var r := RunSpec(inp, env);
    if env.login.Some? && env.runInstantParses && !env.stopAfterWait {
      var msNum := env.login.value;
      var all := MergeInOrder(env.completion, env.teeReply);
      ProceedReserves(inp, env, msNum, Candidates(inp, env), Prelude(inp, env) + TeeQueries(Discovery(inp.date, msNum)));
      MergeTagsEverySlot(env.completion, env.teeReply);
      forall a | a in r.trace && a.Reserve?
        ensures a.request.slot in all
        ensures Keep(a.request.slot, ForApi(inp.startTime), ForApi(inp.endTime), CourseFilter(inp.courseType))
      {
        FilterMembership(all, ForApi(inp.startTime), ForApi(inp.endTime), CourseFilter(inp.courseType), a.request.slot);
      }
    } else {
      PreliminaryHasNoBooking(r.trace);
      assert forall a :: a in r.trace ==> !a.Reserve?;
    }
  }

  /** Discovery asks for the four courses, with part "1" for A and C and "2" for B and D. */
  lemma DiscoveryQueriesAllCourses(date: string, msNum: string)
    ensures Discovery(date, msNum) == [TeeRequest(date, "A", "1", msNum), TeeRequest(date, "B", "2", msNum),
                                       TeeRequest(date, "C", "1", msNum), TeeRequest(date, "D", "2", msNum)]
  {
  }
}
