/**
 * Tee times: the slot tuple, the course tables of `APIBookingCore`, the
 * mapping of one `getTeeList` reply to slots, the merge of the four per-course
 * lists (`get_all_available_times`) and the window/course filter of
 * `start_pre_process`.
 */
module TeeTimes {
  import opened PyStr
  import opened TimeFormat

  /** `(BK_TIME, BK_COS, BK_PART, course name, coDiv)`: one bookable tee time. */
  datatype Slot = Slot(time: string, cos: string, part: string, courseName: string, coDiv: string)

  /** One row of a `getTeeList` reply. */
  datatype TeeRow = TeeRow(bkTime: string, bkCos: string, bkPart: string)

  /** What one `getTeeList` request yields: its decoded rows (`[]` when absent), or any failure. */
  datatype TeeReply = TeeFailed | TeeRows(rows: seq<TeeRow>)

  /** The parameters of a `getTeeList` request that vary between calls. */
  datatype TeeRequest = TeeRequest(date: string, cos: string, part: string, msNum: string)

  /** The four courses queried, in submission order. */
  const Courses: seq<string> := ["A", "B", "C", "D"]

  /** The club's golf-course code sent with every request and stored in each slot. */
  const CoDiv: string := "611"

  /** The names `course_detail_mapping` gives the four courses. */
  const CourseNames: seq<string> := ["참피온OUT", "참피온IN", "마스타OUT", "마스타IN"]

  /** `course_detail_mapping.get(cos, 'Unknown')`: a real name exactly for the four courses. */
  function CourseName(cos: string): (r: string)
    ensures r != "Unknown" <==> cos in Courses
    ensures cos in Courses ==> r in CourseNames
  {
    if cos == "A" then "참피온OUT"
    else if cos == "B" then "참피온IN"
    else if cos == "C" then "마스타OUT"
    else if cos == "D" then "마스타IN"
    else "Unknown"
  }

  /** The `part` sent for a course: "1" for A and C, "2" otherwise. */
  function Part(cos: string): (r: string)
    ensures r == "1" || r == "2"
  {
    if cos in ["A", "C"] then "1" else "2"
  }

  /** For the four courses the two tables agree: part "1" is exactly the OUT half of a course. */
  lemma PartIsOutHalf(cos: string)
    requires cos in Courses
    ensures Part(cos) == "1" <==> CourseName(cos)[|CourseName(cos)| - 3..] == "OUT"
    ensures CourseName(cos) != "Unknown"
  {
  }

  function TeeRequestFor(date: string, cos: string, msNum: string): TeeRequest
  {
    TeeRequest(date, cos, Part(cos), msNum)
  }

  /**
   * `_fetch_tee_list` after its request: each row becomes a slot named after the
   * course that was queried; any failure gives no slots. The postconditions spell
   * out this mapping for the lemmas about the merge; they are not a property of it.
   */
  function FetchTeeList(cos: string, reply: TeeReply): (r: seq<Slot>)
    ensures reply.TeeFailed? ==> r == []
    ensures reply.TeeRows? ==> |r| == |reply.rows|
    ensures reply.TeeRows? ==> forall k :: 0 <= k < |r| ==>
      r[k] == Slot(reply.rows[k].bkTime, reply.rows[k].bkCos, reply.rows[k].bkPart, CourseName(cos), CoDiv)
  {
    match reply
    case TeeFailed => []
    case TeeRows(rows) =>
      seq(|rows|, k requires 0 <= k < |rows| => Slot(rows[k].bkTime, rows[k].bkCos, rows[k].bkPart, CourseName(cos), CoDiv))
  }

  /** `as_completed` yields each of the four futures exactly once, in some order. */
  predicate IsCompletionOrder(order: seq<string>)
  {
    |order| == 4 && multiset(order) == multiset(Courses)
  }

  /** The per-course lists concatenated in the order their requests completed; every slot carries the club code. */
  function MergeInOrder(order: seq<string>, reply: string -> TeeReply): (r: seq<Slot>)
    ensures forall k :: 0 <= k < |r| ==> r[k].coDiv == CoDiv
  {
    if order == [] then []
    else MergeInOrder(order[..|order| - 1], reply) + FetchTeeList(order[|order| - 1], reply(order[|order| - 1]))
  }

  /**
   * `get_all_available_times`: one request per course is submitted (A, B, C, D),
   * then each result is appended as its request completes.
   */
  method GetAllAvailableTimes(date: string, msNum: string, reply: string -> TeeReply, completion: seq<string>)
    returns (all: seq<Slot>, requests: seq<TeeRequest>)
    requires IsCompletionOrder(completion)
    ensures |requests| == |Courses|
    ensures forall k :: 0 <= k < |Courses| ==> requests[k] == TeeRequestFor(date, Courses[k], msNum)
    ensures all == MergeInOrder(completion, reply)
  {
    requests := [];
    for k := 0 to |Courses|
      invariant |requests| == k
      invariant forall i :: 0 <= i < k ==> requests[i] == TeeRequestFor(date, Courses[i], msNum)
    {
      requests := requests + [TeeRequestFor(date, Courses[k], msNum)];
    }
    all := [];
    for k := 0 to |completion|
      invariant all == MergeInOrder(completion[..k], reply)
    {
      var cos := completion[k];
      assert completion[..k + 1][..k] == completion[..k] && completion[..k + 1][k] == cos;
      all := all + FetchTeeList(cos, reply(cos));
    }
    assert completion[..|completion|] == completion;
  }

  /** What a completion order contributes, counted per slot, for per-course lists `f`. */
  function Found(order: seq<string>, f: string -> seq<Slot>): multiset<Slot>
  {
    if order == [] then multiset{}
    else Found(order[..|order| - 1], f) + multiset(f(order[|order| - 1]))
  }

  /** The per-course lists that the replies yield. */
  function Lists(reply: string -> TeeReply): string -> seq<Slot>
  {
    c => FetchTeeList(c, reply(c))
  }

  lemma {:induction false} MergeCounts(order: seq<string>, reply: string -> TeeReply)
    ensures multiset(MergeInOrder(order, reply)) == Found(order, Lists(reply))
  {
    if order != [] {
      MergeCounts(order[..|order| - 1], reply);
    }
  }

  lemma {:induction false} FoundRemove(order: seq<string>, i: nat, f: string -> seq<Slot>)
    requires i < |order|
    ensures Found(order, f) == Found(order[..i] + order[i + 1..], f) + multiset(f(order[i]))
  {
    var n := |order| - 1;
    var rest := order[..i] + order[i + 1..];
    if i < n {
      var init := order[..n];
      assert rest[..|rest| - 1] == init[..i] + init[i + 1..];
      assert rest[|rest| - 1] == order[n];
      assert init[i] == order[i];
      FoundRemove(init, i, f);
    } else {
      assert rest == order[..n];
    }
  }

  lemma {:induction false} FoundOrderFree(o1: seq<string>, o2: seq<string>, f: string -> seq<Slot>)
    requires multiset(o1) == multiset(o2)
    ensures Found(o1, f) == Found(o2, f)
    decreases |o1|
  {
    if o1 != [] {
      var n := |o1| - 1;
      assert o1[n] in multiset(o2);
      var i :| 0 <= i < |o2| && o2[i] == o1[n];
      MultisetRemoveAt(o1, o2, i);
      FoundOrderFree(o1[..n], o2[..i] + o2[i + 1..], f);
      FoundRemove(o2, i, f);
    } else {
      assert o2 == [];
    }
  }

  /** Taking the last element off one side and a copy of it off the other keeps two multisets equal. */
  lemma MultisetRemoveAt<T>(o1: seq<T>, o2: seq<T>, i: nat)
    requires multiset(o1) == multiset(o2) && o1 != [] && i < |o2| && o2[i] == o1[|o1| - 1]
    ensures multiset(o1[..|o1| - 1]) == multiset(o2[..i] + o2[i + 1..])
  {
    var n, x := |o1| - 1, o2[i];
    var a, b := o2[..i], o2[i + 1..];
    assert o1 == o1[..n] + [x];
    assert multiset(o1) == multiset(o1[..n]) + multiset{x};
    assert o2 == a + [x] + b;
    assert multiset(o2) == multiset(a) + multiset{x} + multiset(b);
    var m1, m2 := multiset(o1[..n]), multiset(a + b);
    assert m2 == multiset(a) + multiset(b);
    assert m1 + multiset{x} == m2 + multiset{x};
    assert m1 == (m1 + multiset{x}) - multiset{x};
    assert m2 == (m2 + multiset{x}) - multiset{x};
  }

  lemma FoundOfCourses(f: string -> seq<Slot>)
    ensures Found(Courses, f) == multiset(f("A")) + multiset(f("B")) + multiset(f("C")) + multiset(f("D"))
  {
    var c: seq<string> := ["A", "B", "C", "D"];
    assert c[..3] == ["A", "B", "C"] && c[3] == "D";
    assert c[..3][..2] == ["A", "B"] && c[..3][2] == "C";
    assert c[..3][..2][..1] == ["A"] && c[..3][..2][1] == "B";
    assert c[..3][..2][..1][..0] == [] && c[..3][..2][..1][0] == "A";
    assert Found(c[..3][..2][..1], f) == multiset(f("A"));
    assert Found(c[..3][..2], f) == multiset(f("A")) + multiset(f("B"));
    assert Found(c[..3], f) == multiset(f("A")) + multiset(f("B")) + multiset(f("C"));
  }

  /**
   * The merge holds every slot of the four per-course lists, as often as they hold
   * it, whatever the completion order: nothing is lost and nothing is deduplicated.
   */
  lemma {:induction false} MergeKeepsEverySlot(order: seq<string>, reply: string -> TeeReply)
    requires IsCompletionOrder(order)
    ensures multiset(MergeInOrder(order, reply))
         == multiset(FetchTeeList("A", reply("A"))) + multiset(FetchTeeList("B", reply("B")))
          + multiset(FetchTeeList("C", reply("C"))) + multiset(FetchTeeList("D", reply("D")))
    ensures |MergeInOrder(order, reply)|
         == |FetchTeeList("A", reply("A"))| + |FetchTeeList("B", reply("B"))|
          + |FetchTeeList("C", reply("C"))| + |FetchTeeList("D", reply("D"))|
  {
    var f := Lists(reply);
    MergeCounts(order, reply);
    FoundOrderFree(order, Courses, f);
    FoundOfCourses(f);
    assert f("A") == FetchTeeList("A", reply("A")) && f("B") == FetchTeeList("B", reply("B"));
    assert f("C") == FetchTeeList("C", reply("C")) && f("D") == FetchTeeList("D", reply("D"));
    assert |multiset(MergeInOrder(order, reply))| == |MergeInOrder(order, reply)|;
  }

  /**
   * Every slot the merge of a completion order holds carries the club code "611"
   * and the name of one of the four courses, never "Unknown".
   */
  lemma {:induction false} MergeTagsEverySlot(order: seq<string>, reply: string -> TeeReply)
    requires IsCompletionOrder(order)
    ensures forall s :: s in MergeInOrder(order, reply) ==> s.coDiv == CoDiv && s.courseName in CourseNames
    ensures forall s :: s in MergeInOrder(order, reply) ==> s.courseName != "Unknown"
  {
    forall i | 0 <= i < |order|
      ensures order[i] in Courses
    {
      assert order[i] in multiset(order);
    }
    MergeNames(order, reply);
  }

  lemma {:induction false} MergeNames(order: seq<string>, reply: string -> TeeReply)
    requires forall i :: 0 <= i < |order| ==> order[i] in Courses
    ensures forall s :: s in MergeInOrder(order, reply) ==> s.coDiv == CoDiv && s.courseName in CourseNames
    ensures forall s :: s in MergeInOrder(order, reply) ==> s.courseName != "Unknown"
  {
    if order != [] {
      var init, c := order[..|order| - 1], order[|order| - 1];
      MergeNames(init, reply);
      var f := FetchTeeList(c, reply(c));
      forall s | s in f
        ensures s.coDiv == CoDiv && s.courseName in CourseNames && s.courseName != "Unknown"
      {
        var k :| 0 <= k < |f| && f[k] == s;
      }
    }
  }

  /** `{"All": [...], "참피온": [...], "마스타": [...]}.get(course_type, [])`. */
  function CourseFilter(group: string): (r: seq<string>)
    ensures forall c :: c in r ==> c in Courses
  {
    if group == "All" then ["A", "B", "C", "D"]
    else if group == "참피온" then ["A", "B"]
    else if group == "마스타" then ["C", "D"]
    else []
  }

  /** `s_limit <= format_time_for_api(t[0]) <= e_limit and t[1] in c_filter`. */
  predicate Keep(t: Slot, sLimit: string, eLimit: string, letters: seq<string>)
  {
    LexLe(sLimit, ForApi(t.time)) && LexLe(ForApi(t.time), eLimit) && t.cos in letters
  }

  /** The elements of `s` that satisfy `p`, in their order. */
  function Select<T>(s: seq<T>, p: T -> bool): (r: seq<T>)
    ensures |r| <= |s|
  {
    if s == [] then []
    else
      var init := Select(s[..|s| - 1], p);
      if p(s[|s| - 1]) then init + [s[|s| - 1]] else init
  }

  lemma {:induction false} SelectCounts<T>(s: seq<T>, p: T -> bool, x: T)
    ensures multiset(Select(s, p))[x] == if p(x) then multiset(s)[x] else 0
  {
    if s != [] {
      assert s == s[..|s| - 1] + [s[|s| - 1]];
      SelectCounts(s[..|s| - 1], p, x);
    }
  }

  lemma {:induction false} SelectConcat<T>(a: seq<T>, b: seq<T>, p: T -> bool)
    ensures Select(a + b, p) == Select(a, p) + Select(b, p)
  {
    if b == [] {
      assert a + b == a;
    } else {
      var c := a + b;
      assert c[..|c| - 1] == a + b[..|b| - 1];
      assert c[|c| - 1] == b[|b| - 1];
      SelectConcat(a, b[..|b| - 1], p);
    }
  }

  lemma {:induction false} SelectNothing<T>(s: seq<T>, p: T -> bool)
    requires forall i :: 0 <= i < |s| ==> !p(s[i])
    ensures Select(s, p) == []
  {
    if s != [] {
      SelectNothing(s[..|s| - 1], p);
    }
  }

  /** The list comprehension of line 258: the slots that `Keep`, in their order. */
  function Filter(all: seq<Slot>, sLimit: string, eLimit: string, letters: seq<string>): (r: seq<Slot>)
    ensures |r| <= |all|
  {
    Select(all, t => Keep(t, sLimit, eLimit, letters))
  }

  /** A slot is kept exactly as often as it was found, when it passes the filter, and never otherwise. */
  lemma FilterCounts(all: seq<Slot>, sLimit: string, eLimit: string, letters: seq<string>, t: Slot)
    ensures multiset(Filter(all, sLimit, eLimit, letters))[t]
         == if Keep(t, sLimit, eLimit, letters) then multiset(all)[t] else 0
  {
    SelectCounts(all, u => Keep(u, sLimit, eLimit, letters), t);
  }

  /** A slot survives the filter iff it was found, its API time lies in the window and its course is in the group. */
  lemma FilterMembership(all: seq<Slot>, sLimit: string, eLimit: string, letters: seq<string>, t: Slot)
    ensures t in Filter(all, sLimit, eLimit, letters) <==> t in all && Keep(t, sLimit, eLimit, letters)
  {
    FilterCounts(all, sLimit, eLimit, letters, t);
    assert t in Filter(all, sLimit, eLimit, letters) <==> t in multiset(Filter(all, sLimit, eLimit, letters));
    assert t in all <==> t in multiset(all);
  }

  /** The filter keeps the discovery order: filtering a concatenation filters each part. */
  lemma FilterConcat(a: seq<Slot>, b: seq<Slot>, sLimit: string, eLimit: string, letters: seq<string>)
    ensures Filter(a + b, sLimit, eLimit, letters) == Filter(a, sLimit, eLimit, letters) + Filter(b, sLimit, eLimit, letters)
  {
    SelectConcat(a, b, t => Keep(t, sLimit, eLimit, letters));
  }

  /**
   * With the window's ends formatted for the API, the string comparisons are
   * numeric: a slot is kept iff start <= its time <= end as four-digit numbers.
   */
  lemma {:induction false} WindowIsNumeric(t: Slot, startTime: string, endTime: string, group: string)
    ensures Keep(t, ForApi(startTime), ForApi(endTime), CourseFilter(group))
        <==> Value(ForApi(startTime)) <= Value(ForApi(t.time)) <= Value(ForApi(endTime))
             && t.cos in CourseFilter(group)
  {
    ApiTimesCompareNumerically(startTime, t.time);
    ApiTimesCompareNumerically(t.time, endTime);
  }

  /** A group other than "All", "참피온" and "마스타" selects nothing. */
  lemma UnknownGroupKeepsNothing(all: seq<Slot>, sLimit: string, eLimit: string, group: string)
    requires group != "All" && group != "참피온" && group != "마스타"
    ensures Filter(all, sLimit, eLimit, CourseFilter(group)) == []
  {
    var letters := CourseFilter(group);
    assert letters == [];
    SelectNothing(all, t => Keep(t, sLimit, eLimit, letters));
  }
}
