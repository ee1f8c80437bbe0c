/**
 * The two time-string formatters: `format_time_for_api` ("HH:MM" or "HMM" to
 * four digits "HHMM") and `format_time_for_display` ("HHMM" to "HH:MM").
 */
module TimeFormat {
  import opened Optional
  import opened PyStr

  /** What both formatters do first: strip surrounding whitespace, then delete every ':'. */
  function Clean(s: string): (r: string)
    ensures ':' !in r && |r| <= |s|
  {
    RemoveAll(Strip(s), ':')
  }

  /** A string of `lo` to `hi` ASCII digits: what `\d{lo,hi}` matches in full. */
  predicate DigitRun(t: string, lo: nat, hi: nat)
  {
    lo <= |t| <= hi && AllDigits(t)
  }

  /** `re.match(r'^\d{lo,hi}$', t)`: Python's `$` also matches just before a final newline. */
  predicate AnchoredDigits(t: string, lo: nat, hi: nat)
  {
    DigitRun(t, lo, hi) || (|t| > 0 && t[|t| - 1] == '\n' && DigitRun(t[..|t| - 1], lo, hi))
  }

  /** The test both formatters apply: the regular expression and then `str.isdigit()`. */
  predicate Matches(t: string, lo: nat, hi: nat)
  {
    AnchoredDigits(t, lo, hi) && IsDigitString(t)
  }

  /** The `isdigit()` conjunct is what rejects the trailing newline the regular expression lets through. */
  lemma MatchesIsDigitRun(t: string, lo: nat, hi: nat)
    requires lo > 0
    ensures Matches(t, lo, hi) <==> DigitRun(t, lo, hi)
  {
  }

  /** `format_time_for_api`: always four digits. */
  function ForApi(s: string): (r: string)
    ensures |r| == 4 && AllDigits(r)
  {
    ApiForm(Clean(s))
  }

  /** What `format_time_for_api` does once the input is cleaned. */
  function ApiForm(t: string): (r: string)
    ensures |r| == 4 && AllDigits(r)
  {
    if Matches(t, 3, 4) then ZFill(t, 4) else "0000"
  }

  /** Anything that is not 3 or 4 digits once stripped and rid of ':' becomes "0000". */
  lemma ForApiMalformed(s: string)
    requires !DigitRun(Clean(s), 3, 4)
    ensures ForApi(s) == "0000"
  {
    MatchesIsDigitRun(Clean(s), 3, 4);
  }

  /** 3 or 4 digits are zero-padded on the left to four: the digits and their value are kept. */
  lemma ForApiWellFormed(s: string)
    requires DigitRun(Clean(s), 3, 4)
    ensures ForApi(s)[4 - |Clean(s)|..] == Clean(s)
    ensures forall k :: 0 <= k < 4 - |Clean(s)| ==> ForApi(s)[k] == '0'
    ensures Value(ForApi(s)) == Value(Clean(s))
  {
    ApiFormWellFormed(Clean(s));
  }

  lemma ApiFormWellFormed(t: string)
    requires DigitRun(t, 3, 4)
    ensures ApiForm(t)[4 - |t|..] == t
    ensures forall k :: 0 <= k < 4 - |t| ==> ApiForm(t)[k] == '0'
    ensures Value(ApiForm(t)) == Value(t)
  {
    MatchesIsDigitRun(t, 3, 4);
    ZerosValue(4 - |t|, t);
    var z := Zeros(4 - |t|);
    assert ApiForm(t) == z + t;
    assert (z + t)[|z|..] == t;
  }

  /** `format_time_for_display`: "HH:MM" for four digits once cleaned, otherwise the cleaned input. */
  function ForDisplay(s: string): (r: string)
    ensures r == Clean(s) || (|r| == 5 && r[2] == ':' && r[..2] + r[3..] == Clean(s))
  {
    DisplayForm(Clean(s))
  }

  /** What `format_time_for_display` does once the input is cleaned. */
  function DisplayForm(t: string): string
  {
    if Matches(t, 4, 4) then t[..2] + ":" + t[2..] else t
  }

  /** Four digits (colons allowed, as in "12:30") are shown as `t[:2] + ":" + t[2:]`, five characters with ':' at index 2. */
  lemma ForDisplayWellFormed(s: string)
    requires DigitRun(Clean(s), 4, 4)
    ensures var d, t := ForDisplay(s), Clean(s);
      |d| == 5 && d[2] == ':' && d[..2] == t[..2] && d[3..] == t[2..]
  {
    var t := Clean(s);
    MatchesIsDigitRun(t, 4, 4);
    assert ForDisplay(s) == t[..2] + ":" + t[2..];
  }

  /** Anything else is returned stripped and with its colons removed. */
  lemma ForDisplayMalformed(s: string)
    requires !DigitRun(Clean(s), 4, 4)
    ensures ForDisplay(s) == Clean(s)
  {
    MatchesIsDigitRun(Clean(s), 4, 4);
  }

  /** A digit string holds no ':'. */
  lemma DigitsHaveNoColon(t: string)
    requires AllDigits(t)
    ensures ':' !in t
  {
  }

  /** Cleaning leaves a digit string as it is. */
  lemma CleanDigits(t: string)
    requires AllDigits(t)
    ensures Clean(t) == t
  {
    if t != [] {
      assert !IsSpace(t[0]) && !IsSpace(t[|t| - 1]);
    }
    StripNoEndSpace(t);
    DigitsHaveNoColon(t);
  }

  /** `format_time_for_api` is idempotent. */
  lemma {:induction false} ForApiIdempotent(s: string)
    ensures ForApi(ForApi(s)) == ForApi(s)
  {
    var r := ForApi(s);
    CleanDigits(r);
    ForApiWellFormed(r);
    assert ForApi(r)[0..] == ForApi(r);
  }

  /** Cleaning "HH:MM" gives back "HHMM". */
  lemma CleanHourMinute(t: string)
    requires |t| == 4 && AllDigits(t)
    ensures Clean(t[..2] + ":" + t[2..]) == t
  {
    HourMinuteHasNoEndSpace(t);
    HourMinuteLosesColon(t);
  }

  lemma HourMinuteHasNoEndSpace(t: string)
    requires |t| == 4 && AllDigits(t)
    ensures Strip(t[..2] + ":" + t[2..]) == t[..2] + ":" + t[2..]
  {
    var d := t[..2] + ":" + t[2..];
    assert d[0] == t[0] && d[4] == t[3];
    StripNoEndSpace(d);
  }

  lemma HourMinuteLosesColon(t: string)
    requires |t| == 4 && AllDigits(t)
    ensures RemoveAll(t[..2] + ":" + t[2..], ':') == t
  {
    var h, m := t[..2], t[2..];
    assert h + m == t;
    DigitsHaveNoColon(h);
    DigitsHaveNoColon(m);
    RemoveAllConcat(h + ":", m, ':');
    RemoveAllConcat(h, ":", ':');
    assert RemoveAll(":", ':') == [];
  }

  /** Displaying and then formatting for the API returns the cleaned four digits ("12:30" and "1230" both give "1230"). */
  lemma {:induction false} ForApiOfForDisplay(s: string)
    requires DigitRun(Clean(s), 4, 4)
    ensures ForApi(ForDisplay(s)) == Clean(s) == ForApi(s)
  {
    var t := Clean(s);
    MatchesIsDigitRun(t, 4, 4);
    assert ForDisplay(s) == t[..2] + ":" + t[2..];
    CleanHourMinute(t);
    ForApiWellFormed(s);
    ForApiWellFormed(ForDisplay(s));
    assert ForApi(s)[0..] == ForApi(s);
    assert ForApi(ForDisplay(s))[0..] == ForApi(ForDisplay(s));
  }

  /** For any four-digit string `s`, `format_time_for_api(format_time_for_display(s)) == s`. */
  lemma {:induction false} DisplayRoundTrip(s: string)
    requires |s| == 4 && AllDigits(s)
    ensures ForApi(ForDisplay(s)) == s
  {
    CleanDigits(s);
    ForApiOfForDisplay(s);
  }

  /** The display form of any API time is "HH:MM", and it leads back to the same API time. */
  lemma {:induction false} ForDisplayOfForApi(s: string)
    ensures var d := ForDisplay(ForApi(s)); |d| == 5 && d[2] == ':' && d[..2] + d[3..] == ForApi(s)
    ensures ForApi(ForDisplay(ForApi(s))) == ForApi(s)
  {
    var r := ForApi(s);
    assert r[..2] + r[2..] == r;
    CleanDigits(r);
    ForDisplayWellFormed(r);
    DisplayRoundTrip(r);
  }

  /** An input already in "HH:MM" form is displayed unchanged. */
  lemma {:induction false} ForDisplayKeepsHourMinute(s: string)
    requires |s| == 5 && s[2] == ':' && AllDigits(s[..2] + s[3..])
    ensures ForDisplay(s) == s
  {
    var t := s[..2] + s[3..];
    HourMinuteSplit(s, t);
    CleanHourMinute(t);
    MatchesIsDigitRun(t, 4, 4);
    assert DisplayForm(t) == s;
  }

  lemma HourMinuteSplit(s: string, t: string)
    requires |s| == 5 && t == s[..2] + s[3..]
    requires s[2] == ':'
    ensures s == t[..2] + ":" + t[2..]
  {
    assert t[..2] == s[..2] && t[2..] == s[3..];
  }

  /**
   * The reservation request sends `format_time_for_api(format_time_for_display(t))`;
   * that is the time the filter compared, `format_time_for_api(t)`, unless cleaning
   * exposes whitespace (": 123" is "0000" to the filter but "0123" in the request).
   */
  lemma {:induction false} RequestTimeMatchesFilterTime(s: string)
    requires Strip(Clean(s)) == Clean(s)
    ensures ForApi(ForDisplay(s)) == ForApi(s)
  {
    var t := Clean(s);
    if DigitRun(t, 4, 4) {
      ForApiOfForDisplay(s);
    } else {
      assert ForDisplay(s) == t;
      assert Clean(t) == t;
    }
  }

  /** Two API times compare as strings exactly as their numbers compare. */
  lemma {:induction false} ApiTimesCompareNumerically(a: string, b: string)
    ensures LexLe(ForApi(a), ForApi(b)) <==> Value(ForApi(a)) <= Value(ForApi(b))
  {
    LexLeIsNumericLe(ForApi(a), ForApi(b));
  }

  /**
   * `int(t)` agrees with the API time when `t` holds no ':' and cleans to 3 or 4
   * digits ("710" and "0710" are both 710), so sorting by `int()` orders by API time.
   * U+001C..U+001F are excluded: `strip()` removes them but `int()` may not.
   */
  lemma {:induction false} IntOfTimeIsApiValue(s: string)
    requires DigitRun(Clean(s), 3, 4) && ':' !in s && NoInfoSeparator(s)
    ensures ParseInt(s) == Some(Value(ForApi(s)))
  {
    IntStripIsStrip(s);
    StripKeepsChars(s);
    assert ':' !in multiset(Strip(s));
    assert Clean(s) == Strip(s);
    ParseIntOfDigits(s);
    ForApiWellFormed(s);
  }
}
