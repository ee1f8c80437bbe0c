/**
 * The attempt sequencer `APIBookingCore.run_api_booking`: after an optional
 * delay it walks at most the first five ranked candidates, checks the stop
 * flag before each, succeeds at once in test mode, and otherwise stops at the
 * first reservation the server accepts.
 */
module Booking {
  import opened Optional
  import opened PyStr
  import opened TimeFormat
  import opened TeeTimes

  /** A `doReservation` request: the day, the member number and the candidate slot it books. */
  datatype ReservationRequest = ReservationRequest(day: string, msNum: string, slot: Slot)

  /** The form fields of a `doReservation` request, one per key of the posted dictionary. */
  datatype Form = Form(methodName: string, coDiv: string, day: string, cos: string, time: string, tCnt: string,
                       msNum: string, msDivision: string, msClass: string, msLevel: string, media: string,
                       gubun: string)

  /** What one `doReservation` call yields: a decoded reply with its `resultCode`, if any, or any failure. */
  datatype ReservationReply = ReplyFailed | ReplyDecoded(resultCode: Option<string>)

  /** The result of `run_api_booking` and the reservation requests it sent, in order. */
  datatype BookingRun = BookingRun(booked: bool, calls: seq<ReservationRequest>)

  /** Only the first five ranked candidates are ever tried. */
  const MaxAttempts: nat := 5

  /** `try_reservation` reports success exactly for `resultCode == '0000'`. */
  predicate TrySucceeded(reply: ReservationReply)
    ensures TrySucceeded(reply) <==> reply == ReplyDecoded(Some("0000"))
  {
    reply.ReplyDecoded? && reply.resultCode == Some("0000")
  }

  /** The request `run_api_booking` makes for a candidate. */
  function RequestFor(date: string, msNum: string, s: Slot): ReservationRequest
  {
    ReservationRequest(date, msNum, s)
  }

  /**
   * The `time` field sent: `try_reservation` gets the display form of `BK_TIME`
   * and formats it for the API again, so it is always four digits.
   */
  function WireTime(r: ReservationRequest): (t: string)
    ensures |t| == 4 && AllDigits(t)
  {
    ForApi(ForDisplay(r.slot.time))
  }

  /**
   * The form fields of the request, the millisecond timestamp `_` aside: the
   * slot's own course code and course letter, the day, the member number and constants.
   */
  function Payload(r: ReservationRequest): (p: Form)
    ensures |p.time| == 4 && AllDigits(p.time)
    ensures p.cos == r.slot.cos && p.coDiv == r.slot.coDiv && p.day == r.day && p.msNum == r.msNum
  {
    Form("doReservation", r.slot.coDiv, r.day, r.slot.cos, WireTime(r), "0", r.msNum, "10", "01", "00", "R", "M")
  }

  /** `len(sorted_times[:5])`. */
  function Limit(cands: seq<Slot>): (n: nat)
    ensures n <= MaxAttempts && n <= |cands|
    ensures n == MaxAttempts || n == |cands|
  {
    if |cands| < MaxAttempts then |cands| else MaxAttempts
  }

  /** The requests for the candidates `sorted_times[:5]` would send, in rank order. */
  function Requests(date: string, msNum: string, cands: seq<Slot>): (r: seq<ReservationRequest>)
    ensures |r| == Limit(cands)
  {
    seq(Limit(cands), k requires 0 <= k < Limit(cands) => RequestFor(date, msNum, cands[k]))
  }

  lemma RequestsInRankOrder(date: string, msNum: string, cands: seq<Slot>, k: nat)
    requires k < Limit(cands)
    ensures Requests(date, msNum, cands)[k] == RequestFor(date, msNum, cands[k])
  {
  }

  /**
   * The loop of `run_api_booking` from rank `i` on, over the requests `reqs` of the
   * candidates: `stop(i)` is the stop flag seen before rank `i`, `reply(i)` the
   * server's answer to request `i`.
   */
  function Attempts(testMode: bool, reqs: seq<ReservationRequest>,
                    stop: nat -> bool, reply: nat -> ReservationReply, i: nat): (r: BookingRun)
    ensures r.booked ==> i < |reqs| && !stop(i)
    ensures testMode ==> r.calls == []
    ensures !testMode && r.booked ==> |r.calls| > 0 && TrySucceeded(reply(i + |r.calls| - 1))
    decreases |reqs| - i
  {
    if i >= |reqs| || stop(i) then BookingRun(false, [])
    else if testMode then BookingRun(true, [])
    else if TrySucceeded(reply(i)) then BookingRun(true, [reqs[i]])
    else
      var rest := Attempts(testMode, reqs, stop, reply, i + 1);
      BookingRun(rest.booked, [reqs[i]] + rest.calls)
  }

  /**
   * The run of `run_api_booking` on a ranked candidate list: at most five calls,
   * none in test mode, and no booking without a candidate.
   */
  function BookingSpec(date: string, msNum: string, testMode: bool, cands: seq<Slot>,
                       stop: nat -> bool, reply: nat -> ReservationReply): (r: BookingRun)
    ensures |r.calls| <= Limit(cands) && |r.calls| <= MaxAttempts
    ensures testMode ==> r.calls == []
    ensures r.booked ==> cands != [] && !stop(0)
  {
    AttemptsCalls(testMode, Requests(date, msNum, cands), stop, reply, 0);
    Attempts(testMode, Requests(date, msNum, cands), stop, reply, 0)
  }

  /** The seconds `run_api_booking` sleeps for `delay`: none unless it is positive. */
  function SleepFor(delay: int): (s: nat)
    ensures s > 0 <==> delay > 0
    ensures s > 0 ==> s == delay
  {
    if delay > 0 then delay else 0
  }

  /**
   * `run_api_booking`: `sleep` is the delay slept first (none unless positive);
   * the result and the requests sent are those of `BookingSpec`.
   */
  method RunApiBooking(date: string, msNum: string, testMode: bool, cands: seq<Slot>, delay: int,
                       stop: nat -> bool, reply: nat -> ReservationReply)
    returns (booked: bool, sleep: nat, calls: seq<ReservationRequest>)
    ensures sleep == SleepFor(delay)
    ensures BookingRun(booked, calls) == BookingSpec(date, msNum, testMode, cands, stop, reply)
  {
    sleep := 0;
    if delay > 0 {
      sleep := delay;
    }
    var reqs := Requests(date, msNum, cands);
    var limit := |reqs|;
    calls := [];
    var i := 0;
    while i < limit
      invariant i <= limit
      invariant Attempts(testMode, reqs, stop, reply, 0)
             == var rest := Attempts(testMode, reqs, stop, reply, i);
                BookingRun(rest.booked, calls + rest.calls)
    {
      if stop(i) {
        break;
      }
      if testMode {
        return true, sleep, calls;
      }
      var req := reqs[i];
      if TrySucceeded(reply(i)) {
        return true, sleep, calls + [req];
      }
      calls := calls + [req];
      i := i + 1;
    }
    booked := false;
  }

  /**
   * The calls are the requests of ranks `i, i+1, ...` in order, at most one per
   * request, each made with the stop flag clear and each but the last refused;
   * test mode makes none.
   */
  lemma {:induction false} AttemptsCalls(testMode: bool, reqs: seq<ReservationRequest>,
                                         stop: nat -> bool, reply: nat -> ReservationReply, i: nat)
    requires i <= |reqs|
    ensures var r := Attempts(testMode, reqs, stop, reply, i);
      && |r.calls| <= |reqs| - i
      && r.calls == reqs[i..i + |r.calls|]
      && (forall j :: i <= j < i + |r.calls| ==> !stop(j))
      && (forall j :: i <= j < i + |r.calls| - 1 ==> !TrySucceeded(reply(j)))
      && (testMode ==> r.calls == [])
    decreases |reqs| - i
  {
    if i < |reqs| && !stop(i) && !testMode && !TrySucceeded(reply(i)) {
      AttemptsCalls(testMode, reqs, stop, reply, i + 1);
      var rest := Attempts(testMode, reqs, stop, reply, i + 1);
      assert reqs[i..i + 1 + |rest.calls|] == [reqs[i]] + reqs[i + 1..i + 1 + |rest.calls|];
    }
  }

  /**
   * Outside test mode the run books exactly when its last call was accepted; when
   * it does not book, it ran out of requests or saw the stop flag.
   */
  lemma {:induction false} AttemptsOutcome(reqs: seq<ReservationRequest>,
                                           stop: nat -> bool, reply: nat -> ReservationReply, i: nat)
    requires i <= |reqs|
    ensures var r := Attempts(false, reqs, stop, reply, i);
      && (r.booked <==> |r.calls| > 0 && TrySucceeded(reply(i + |r.calls| - 1)))
      && (!r.booked ==> i + |r.calls| == |reqs| || stop(i + |r.calls|))
    decreases |reqs| - i
  {
    if i < |reqs| && !stop(i) && !TrySucceeded(reply(i)) {
      AttemptsOutcome(reqs, stop, reply, i + 1);
    }
  }

  /**
   * Outside test mode the run books iff some request is accepted with the stop
   * flag clear before it and before every request ahead of it.
   */
  lemma {:induction false} BookedIffSomeWinner(reqs: seq<ReservationRequest>,
                                               stop: nat -> bool, reply: nat -> ReservationReply, i: nat)
    requires i <= |reqs|
    ensures Attempts(false, reqs, stop, reply, i).booked
        <==> exists w :: i <= w < |reqs| && TrySucceeded(reply(w)) && forall j :: i <= j <= w ==> !stop(j)
    decreases |reqs| - i
  {
    if i < |reqs| && !stop(i) && !TrySucceeded(reply(i)) {
      BookedIffSomeWinner(reqs, stop, reply, i + 1);
      if Attempts(false, reqs, stop, reply, i).booked {
        var w :| i + 1 <= w < |reqs| && TrySucceeded(reply(w)) && forall j :: i + 1 <= j <= w ==> !stop(j);
        assert forall j :: i <= j <= w ==> !stop(j);
      } else {
        forall w | i <= w < |reqs| && TrySucceeded(reply(w))
          ensures exists j :: i <= j <= w && stop(j)
        {
          assert w != i;
          var j :| i + 1 <= j <= w && stop(j);
        }
      }
    } else if i < |reqs| && !stop(i) {
      assert forall j :: i <= j <= i ==> !stop(j);
    }
  }

  /**
   * `run_api_booking` sends at most `min(5, len(sorted_times))` requests: those of
   * the first candidates, in rank order.
   */
  lemma BookingCalls(date: string, msNum: string, testMode: bool, cands: seq<Slot>,
                     stop: nat -> bool, reply: nat -> ReservationReply)
    ensures var r := BookingSpec(date, msNum, testMode, cands, stop, reply);
      && |r.calls| <= Limit(cands)
      && (forall k :: 0 <= k < |r.calls| ==> r.calls[k] == RequestFor(date, msNum, cands[k]))
      && (forall k :: 0 <= k < |r.calls| ==> !stop(k))
      && (testMode ==> r.calls == [])
  {
    var reqs := Requests(date, msNum, cands);
    AttemptsCalls(testMode, reqs, stop, reply, 0);
    var r := Attempts(testMode, reqs, stop, reply, 0);
    forall k | 0 <= k < |r.calls|
      ensures r.calls[k] == RequestFor(date, msNum, cands[k])
    {
      assert r.calls[k] == reqs[k];
      RequestsInRankOrder(date, msNum, cands, k);
    }
  }

  /**
   * Outside test mode `run_api_booking` returns True iff one of the first five
   * candidates is accepted before the stop flag is seen, and right after the
   * first acceptance it sends nothing more: every call but the last was refused.
   */
  lemma FirstSuccessWins(date: string, msNum: string, cands: seq<Slot>,
                         stop: nat -> bool, reply: nat -> ReservationReply)
    ensures var r := BookingSpec(date, msNum, false, cands, stop, reply);
      && (r.booked <==> exists w :: 0 <= w < Limit(cands) && TrySucceeded(reply(w)) && forall j :: 0 <= j <= w ==> !stop(j))
      && (r.booked <==> |r.calls| > 0 && TrySucceeded(reply(|r.calls| - 1)))
      && (forall k :: 0 <= k < |r.calls| - 1 ==> !TrySucceeded(reply(k)))
  {
    var reqs := Requests(date, msNum, cands);
    AttemptsCalls(false, reqs, stop, reply, 0);
    AttemptsOutcome(reqs, stop, reply, 0);
    BookedIffSomeWinner(reqs, stop, reply, 0);
  }

  /** An empty candidate list books nothing and sends nothing. */
  lemma EmptyListBooksNothing(date: string, msNum: string, testMode: bool,
                              stop: nat -> bool, reply: nat -> ReservationReply)
    ensures BookingSpec(date, msNum, testMode, [], stop, reply) == BookingRun(false, [])
  {
  }

  /**
   * Test mode never calls `try_reservation`, and reports success iff there is a
   * candidate and the stop flag is clear at the first check.
   */
  lemma TestModeNeverReserves(date: string, msNum: string, cands: seq<Slot>,
                              stop: nat -> bool, reply: nat -> ReservationReply)
    ensures BookingSpec(date, msNum, true, cands, stop, reply) == BookingRun(|cands| > 0 && !stop(0), [])
  {
  }

  /** Once the stop flag is seen before rank `k`, nothing at rank `k` or later is attempted. */
  lemma {:induction false} StopHaltsAttempts(testMode: bool, reqs: seq<ReservationRequest>,
                                             stop: nat -> bool, reply: nat -> ReservationReply, i: nat, k: nat)
    requires i <= k && stop(k)
    ensures |Attempts(testMode, reqs, stop, reply, i).calls| <= k - i
    decreases |reqs| - i
  {
    if i < |reqs| && !stop(i) && !testMode && !TrySucceeded(reply(i)) {
      StopHaltsAttempts(testMode, reqs, stop, reply, i + 1, k);
    }
  }

  /** A refusal followed by an acceptance sends exactly the first two requests and books. */
  lemma FailThenSucceed(date: string, msNum: string, c0: Slot, c1: Slot, reply: nat -> ReservationReply)
    requires !TrySucceeded(reply(0)) && TrySucceeded(reply(1))
    ensures BookingSpec(date, msNum, false, [c0, c1], _ => false, reply)
         == BookingRun(true, [RequestFor(date, msNum, c0), RequestFor(date, msNum, c1)])
  {
    var reqs := Requests(date, msNum, [c0, c1]);
    RequestsInRankOrder(date, msNum, [c0, c1], 0);
    RequestsInRankOrder(date, msNum, [c0, c1], 1);
    assert reqs == [RequestFor(date, msNum, c0), RequestFor(date, msNum, c1)];
    assert Attempts(false, reqs, _ => false, reply, 1) == BookingRun(true, [reqs[1]]);
  }

  /**
   * The request carries the very time the filter compared, unless cleaning exposes
   * whitespace.
   */
  lemma RequestCarriesFilterTime(date: string, msNum: string, s: Slot)
    requires Strip(Clean(s.time)) == Clean(s.time)
    ensures WireTime(RequestFor(date, msNum, s)) == ForApi(s.time)
  {
    RequestTimeMatchesFilterTime(s.time);
  }

  /** A four-digit `BK_TIME` is sent exactly as the server listed it. */
  lemma RequestCarriesFourDigitTime(date: string, msNum: string, s: Slot)
    requires |s.time| == 4 && AllDigits(s.time)
    ensures WireTime(RequestFor(date, msNum, s)) == s.time
  {
    DisplayRoundTrip(s.time);
  }
}
