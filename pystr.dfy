/**
 * The Python `str` built-ins the booking engine relies on, over `string`
 * (a sequence of Unicode scalar values, as a Python `str` is):
 * `strip()`, `replace(x, "")`, `isdigit()`, `zfill()`, `int()` and `<=`.
 * Digits are the ASCII digits '0'..'9'.
 */
module PyStr {
  import opened Optional

  /** The characters `str.isspace()` accepts; `str.strip()` removes exactly these. */
  predicate IsSpace(c: char)
  {
    c == ' ' || ('\t' <= c <= '\r') || ('\U{1C}' <= c <= '\U{1F}') || c == '\U{85}' || c == '\U{A0}'
    || c == '\U{1680}' || ('\U{2000}' <= c <= '\U{200A}') || c == '\U{2028}' || c == '\U{2029}'
    || c == '\U{202F}' || c == '\U{205F}' || c == '\U{3000}'
  }

  /** U+001C..U+001F: `isspace()` holds for them, but `int()` does not skip them. */
  predicate IsInfoSeparator(c: char)
  {
    '\U{1C}' <= c <= '\U{1F}'
  }

  predicate NoInfoSeparator(s: string)
  {
    forall k :: 0 <= k < |s| ==> !IsInfoSeparator(s[k])
  }

  /**
   * The whitespace CPython's `int()` skips around a number. Before parsing, every
   * non-ASCII `isspace()` character becomes ' ' and every ASCII character is kept;
   * the parser then skips only ' ' and '\t'..'\r'. So `int()` skips the
   * `isspace()` characters other than U+001C..U+001F, in any string.
   */
  predicate IntSpace(c: char)
  {
    IsSpace(c) && !IsInfoSeparator(c)
  }

  /** Whitespace as `strip()` sees it (`forInt` false) or as `int()` sees it (`forInt` true). */
  predicate Blank(c: char, forInt: bool)
  {
    if forInt then IntSpace(c) else IsSpace(c)
  }

  /** The suffix of `s` after its leading blanks: `s.lstrip()` when `forInt` is false. */
  function StripLeft(s: string, forInt: bool): string
  {
    if |s| > 0 && Blank(s[0], forInt) then StripLeft(s[1..], forInt) else s
  }

  /** Exactly the leading blanks are removed: all that is dropped is blank, and what is kept does not start with a blank. */
  lemma {:induction false} StripLeftSpec(s: string, forInt: bool)
    ensures var r := StripLeft(s, forInt);
      && |r| <= |s| && r == s[|s| - |r|..]
      && (r == [] || !Blank(r[0], forInt))
      && (forall k :: 0 <= k < |s| - |r| ==> Blank(s[k], forInt))
  {
    if |s| > 0 && Blank(s[0], forInt) {
      StripLeftSpec(s[1..], forInt);
      var r := StripLeft(s, forInt);
      assert s[1..][|s| - 1 - |r|..] == s[|s| - |r|..];
      forall k | 0 <= k < |s| - |r|
        ensures Blank(s[k], forInt)
      {
        if k > 0 {
          assert s[k] == s[1..][k - 1];
        }
      }
    }
  }

  /** The prefix of `s` before its trailing blanks: `s.rstrip()` when `forInt` is false. */
  function StripRight(s: string, forInt: bool): string
  {
    if |s| > 0 && Blank(s[|s| - 1], forInt) then StripRight(s[..|s| - 1], forInt) else s
  }

  /** Exactly the trailing blanks are removed. */
  lemma {:induction false} StripRightSpec(s: string, forInt: bool)
    ensures var r := StripRight(s, forInt);
      && |r| <= |s| && r == s[..|r|]
      && (r == [] || !Blank(r[|r| - 1], forInt))
      && (forall k :: |r| <= k < |s| ==> Blank(s[k], forInt))
  {
    if |s| > 0 && Blank(s[|s| - 1], forInt) {
      var u := s[..|s| - 1];
      StripRightSpec(u, forInt);
      var r := StripRight(s, forInt);
      forall k | |r| <= k < |s|
        ensures Blank(s[k], forInt)
      {
        if k < |s| - 1 {
          assert s[k] == u[k];
        }
      }
    }
  }

  function StripBlanks(s: string, forInt: bool): string
  {
    StripRight(StripLeft(s, forInt), forInt)
  }

  /** `s.strip()`: never longer than `s` (`StripSpec` says which characters go). */
  function Strip(s: string): (r: string)
    ensures |r| <= |s|
  {
    StripLeftSpec(s, false);
    StripRightSpec(StripLeft(s, false), false);
    StripBlanks(s, false)
  }

  /** What `int(s)` strips before it parses. */
  function IntStrip(s: string): string
  {
    StripBlanks(s, true)
  }

  /** Without U+001C..U+001F in the string, `int()` skips exactly what `strip()` removes. */
  lemma IntStripIsStrip(s: string)
    requires NoInfoSeparator(s)
    ensures IntStrip(s) == Strip(s)
  {
    BlanksAgree(s);
    StripLeftAgrees(s);
    var l := StripLeft(s, false);
    StripLeftSpec(s, false);
    forall k | 0 <= k < |l|
      ensures Blank(l[k], true) == Blank(l[k], false)
    {
      assert l[k] == s[|s| - |l| + k];
    }
    StripRightAgrees(l);
  }

  lemma {:induction false} StripLeftAgrees(s: string)
    requires forall k :: 0 <= k < |s| ==> Blank(s[k], true) == Blank(s[k], false)
    ensures StripLeft(s, true) == StripLeft(s, false)
  {
    if |s| > 0 && Blank(s[0], false) {
      assert forall k :: 0 <= k < |s| - 1 ==> s[1..][k] == s[k + 1];
      StripLeftAgrees(s[1..]);
    }
  }

  lemma {:induction false} StripRightAgrees(s: string)
    requires forall k :: 0 <= k < |s| ==> Blank(s[k], true) == Blank(s[k], false)
    ensures StripRight(s, true) == StripRight(s, false)
  {
    if |s| > 0 && Blank(s[|s| - 1], false) {
      StripRightAgrees(s[..|s| - 1]);
    }
  }

  /** Without U+001C..U+001F, a character is blank to `int()` iff it is to `strip()`. */
  lemma BlanksAgree(s: string)
    requires NoInfoSeparator(s)
    ensures forall k :: 0 <= k < |s| ==> Blank(s[k], true) == Blank(s[k], false)
  {
  }

  /**
   * `strip()` leaves no whitespace at either end, returns its argument exactly
   * when that has none at its ends, and returns "" exactly when it is all whitespace.
   */
  lemma StripSpec(s: string)
    ensures var r := Strip(s);
      && |r| <= |s|
      && (r == [] || (!IsSpace(r[0]) && !IsSpace(r[|r| - 1])))
      && (r == s <==> (s == [] || (!IsSpace(s[0]) && !IsSpace(s[|s| - 1]))))
      && (r == [] <==> forall k :: 0 <= k < |s| ==> IsSpace(s[k]))
  {
    var l := StripLeft(s, false);
    var r := StripRight(l, false);
    StripLeftSpec(s, false);
    StripRightSpec(l, false);
    if r != [] {
      assert r[0] == l[0];
    }
    StripEmpty(s, l, r);
    if s != [] && !IsSpace(s[0]) && !IsSpace(s[|s| - 1]) {
      StripNoEndSpace(s);
    }
  }

  /** A string with no whitespace at its ends is its own `strip()`. */
  lemma StripNoEndSpace(s: string)
    requires s == [] || (!IsSpace(s[0]) && !IsSpace(s[|s| - 1]))
    ensures Strip(s) == s
  {
    if s != [] {
      assert StripLeft(s, false) == s;
      assert StripRight(s, false) == s;
    }
  }

  /** `strip()` only removes characters: whatever it returns was in its argument. */
  lemma StripKeepsChars(s: string)
    ensures multiset(Strip(s)) <= multiset(s)
  {
    var l := StripLeft(s, false);
    StripLeftSpec(s, false);
    StripRightSpec(l, false);
    InnerSliceMultiset(s, l, StripRight(l, false));
  }

  /** A prefix of a suffix keeps only elements of the whole. */
  lemma InnerSliceMultiset<T>(s: seq<T>, l: seq<T>, r: seq<T>)
    requires |l| <= |s| && l == s[|s| - |l|..] && |r| <= |l| && r == l[..|r|]
    ensures multiset(r) <= multiset(s)
  {
    var i := |s| - |l|;
    assert s == s[..i] + l;
    assert l == r + l[|r|..];
    assert multiset(l) == multiset(r) + multiset(l[|r|..]);
    assert multiset(s) == multiset(s[..i]) + multiset(l);
  }

  lemma StripEmpty(s: string, l: string, r: string)
    requires |l| <= |s| && l == s[|s| - |l|..] && |r| <= |l| && r == l[..|r|]
    requires (l == [] || !IsSpace(l[0])) && (forall k :: 0 <= k < |s| - |l| ==> IsSpace(s[k]))
    requires forall k :: |r| <= k < |l| ==> IsSpace(l[k])
    ensures r == [] <==> forall k :: 0 <= k < |s| ==> IsSpace(s[k])
  {
    var i := |s| - |l|;
    if r == [] {
      assert l == [];
    } else {
      assert !IsSpace(l[0]);
      assert s[i] == l[0];
    }
  }

  /** `s.replace(x, "")`: `s` with every occurrence of the character `x` deleted. */
  function RemoveAll(s: string, x: char): (r: string)
    ensures x !in r && |r| <= |s|
    ensures x !in s ==> r == s
  {
    if s == [] then []
    else (if s[0] == x then [] else [s[0]]) + RemoveAll(s[1..], x)
  }

  /** Only `x` is deleted: every other character keeps its number of occurrences. */
  lemma {:induction false} RemoveAllKeepsOthers(s: string, x: char)
    ensures forall c :: c != x ==> multiset(RemoveAll(s, x))[c] == multiset(s)[c]
  {
    if s != [] {
      RemoveAllKeepsOthers(s[1..], x);
      assert s == [s[0]] + s[1..];
    }
  }

  /** Deleting characters distributes over concatenation, so the order of what is kept is unchanged. */
  lemma {:induction false} RemoveAllConcat(a: string, b: string, x: char)
    ensures RemoveAll(a + b, x) == RemoveAll(a, x) + RemoveAll(b, x)
  {
    if a != [] {
      assert (a + b)[0] == a[0];
      assert (a + b)[1..] == a[1..] + b;
      RemoveAllConcat(a[1..], b, x);
      calc {
        RemoveAll(a + b, x);
        (if a[0] == x then [] else [a[0]]) + RemoveAll(a[1..] + b, x);
        (if a[0] == x then [] else [a[0]]) + (RemoveAll(a[1..], x) + RemoveAll(b, x));
      }
    } else {
      assert a + b == b;
    }
  }

  predicate IsDigit(c: char) { '0' <= c <= '9' }

  predicate AllDigits(s: string) { forall k :: 0 <= k < |s| ==> IsDigit(s[k]) }

  /** `s.isdigit()`: true when `s` is non-empty and made of digits. */
  predicate IsDigitString(s: string) { |s| > 0 && AllDigits(s) }

  function Pow10(n: nat): (r: nat)
    ensures r >= 1
  {
    if n == 0 then 1 else 10 * Pow10(n - 1)
  }

  function DigitValue(c: char): (v: nat)
    requires IsDigit(c)
    ensures v <= 9
  {
    (c as int) - ('0' as int)
  }

  /** The number a digit string denotes in base ten (leading zeros allowed, as `int()` allows them). */
  function Value(s: string): (v: nat)
    requires AllDigits(s)
    ensures v < Pow10(|s|)
  {
    if s == [] then 0
    else
      var d, p := DigitValue(s[0]), Pow10(|s| - 1);
      assert d * p + p <= 10 * p by {
        MulLe(d + 1, 10, p);
        assert (d + 1) * p == d * p + p;
      }
      d * p + Value(s[1..])
  }

  lemma MulLe(x: nat, y: nat, p: nat)
    requires x <= y
    ensures x * p <= y * p
  {
  }

  /** `"0" * n`. */
  function Zeros(n: nat): (r: string)
    ensures |r| == n && AllDigits(r)
    ensures forall k :: 0 <= k < n ==> r[k] == '0'
  {
    seq(n, _ => '0')
  }

  /** `s.zfill(width)`: pad with '0' on the left up to `width`, after a leading sign if there is one. */
  function ZFill(s: string, width: nat): (r: string)
    ensures |r| == if |s| >= width then |s| else width
    ensures |s| >= width ==> r == s
    ensures AllDigits(s) ==> r == Zeros(|r| - |s|) + s
  {
    if |s| >= width then s
    else if |s| > 0 && (s[0] == '+' || s[0] == '-') then [s[0]] + Zeros(width - |s|) + s[1..]
    else Zeros(width - |s|) + s
  }

  /** Leading zeros do not change the value of a digit string. */
  lemma {:induction false} ZerosValue(n: nat, s: string)
    requires AllDigits(s)
    ensures AllDigits(Zeros(n) + s) && Value(Zeros(n) + s) == Value(s)
  {
    if n > 0 {
      ZerosValue(n - 1, s);
      var t := Zeros(n) + s;
      assert t[0] == '0' && t[1..] == Zeros(n - 1) + s;
      assert DigitValue(t[0]) == 0;
      assert Value(t) == 0 * Pow10(|t| - 1) + Value(t[1..]);
    } else {
      assert Zeros(n) + s == s;
    }
  }

  /** Python's `a <= b` on `str`: lexicographic by code point, a proper prefix comes first. */
  predicate LexLe(a: string, b: string)
    ensures a <= b ==> LexLe(a, b)
    decreases |a|
  {
    if a == [] then true
    else if b == [] then false
    else if a[0] != b[0] then a[0] < b[0]
    else LexLe(a[1..], b[1..])
  }

  /** Python's string order is total and antisymmetric. */
  lemma {:induction false} LexLeTotal(a: string, b: string)
    ensures LexLe(a, b) || LexLe(b, a)
    ensures LexLe(a, b) && LexLe(b, a) ==> a == b
    decreases |a|
  {
    if a != [] && b != [] && a[0] == b[0] {
      LexLeTotal(a[1..], b[1..]);
      assert a == [a[0]] + a[1..] && b == [b[0]] + b[1..];
    }
  }

  /** On digit strings of one length, comparing as strings is comparing as numbers. */
  lemma {:induction false} LexLeIsNumericLe(a: string, b: string)
    requires |a| == |b| && AllDigits(a) && AllDigits(b)
    ensures LexLe(a, b) <==> Value(a) <= Value(b)
  {
    if a != [] {
      if a[0] < b[0] {
        LeadingDigitDecides(a, b);
      } else if b[0] < a[0] {
        LeadingDigitDecides(b, a);
      } else {
        SameLeadingDigit(a, b);
        LexLeIsNumericLe(a[1..], b[1..]);
      }
    }
  }

  /** A smaller leading digit makes the smaller number, whatever follows. */
  lemma LeadingDigitDecides(a: string, b: string)
    requires |a| == |b| > 0 && AllDigits(a) && AllDigits(b) && a[0] < b[0]
    ensures Value(a) < Value(b)
  {
    var p := Pow10(|a| - 1);
    var x, y := DigitValue(a[0]), DigitValue(b[0]);
    assert Value(a) == x * p + Value(a[1..]) && Value(a[1..]) < p;
    assert Value(b) == y * p + Value(b[1..]);
    HeadWeighs(x, y, Value(a[1..]), Value(b[1..]), p);
  }

  lemma HeadWeighs(x: nat, y: nat, rx: nat, ry: nat, p: nat)
    requires x < y && rx < p
    ensures x * p + rx < y * p + ry
  {
    MulLe(x + 1, y, p);
    assert (x + 1) * p == x * p + p;
  }

  /** Equal leading digits leave the comparison to the rest. */
  lemma SameLeadingDigit(a: string, b: string)
    requires |a| == |b| > 0 && AllDigits(a) && AllDigits(b) && a[0] == b[0]
    ensures Value(a) <= Value(b) <==> Value(a[1..]) <= Value(b[1..])
  {
    var p := Pow10(|a| - 1);
    assert Value(a) == DigitValue(a[0]) * p + Value(a[1..]);
    assert Value(b) == DigitValue(a[0]) * p + Value(b[1..]);
  }

  /** The body `int()` accepts after the sign: digits, with single '_' between digits. */
  predicate IsDigitGroups(u: string)
  {
    && |u| > 0 && IsDigit(u[0]) && IsDigit(u[|u| - 1])
    && (forall k :: 0 <= k < |u| ==> IsDigit(u[k]) || u[k] == '_')
    && (forall k :: 0 <= k < |u| - 1 ==> !(u[k] == '_' && u[k + 1] == '_'))
  }

  lemma DeleteSeparators(u: string)
    requires forall k :: 0 <= k < |u| ==> IsDigit(u[k]) || u[k] == '_'
    ensures AllDigits(RemoveAll(u, '_'))
  {
    var r := RemoveAll(u, '_');
    RemoveAllKeepsOthers(u, '_');
    forall k | 0 <= k < |r| ensures IsDigit(r[k]) {
      var c := r[k];
      assert c in multiset(r);
      assert c != '_';
      assert c in multiset(u);
      var j :| 0 <= j < |u| && u[j] == c;
    }
  }

  /** CPython's default `sys.get_int_max_str_digits()`: `int()` refuses a decimal string with more digits. */
  const MaxStrDigits: nat := 4300

  /** The digit groups after the sign, with the limit on the number of digits ('_' not counted). */
  function ParseUnsigned(u: string): Option<nat>
  {
    if IsDigitGroups(u) then
      DeleteSeparators(u);
      var digits := RemoveAll(u, '_');
      if |digits| <= MaxStrDigits then Some(Value(digits)) else None
    else None
  }

  lemma ColonBlocksParse(s: string, t: string)
    requires t == IntStrip(s)
    ensures ':' in s ==> !IsDigitGroups(t) && (|t| > 0 && (t[0] == '+' || t[0] == '-') ==> !IsDigitGroups(t[1..]))
  {
    if ':' in s {
      var i :| 0 <= i < |s| && s[i] == ':';
      // ':' is not blank, so stripping cannot have removed it
      StripKeepsNonBlank(s, i, true);
      ColonIsNoDigitGroup(t);
    }
  }

  lemma ColonIsNoDigitGroup(t: string)
    requires ':' in t
    ensures !IsDigitGroups(t) && (|t| > 0 && (t[0] == '+' || t[0] == '-') ==> !IsDigitGroups(t[1..]))
  {
    var j :| 0 <= j < |t| && t[j] == ':';
    if j > 0 {
      assert t[1..][j - 1] == ':';
    }
  }

  lemma StripKeepsNonBlank(s: string, i: nat, forInt: bool)
    requires i < |s| && !Blank(s[i], forInt)
    ensures s[i] in StripBlanks(s, forInt)
  {
    var l := StripLeft(s, forInt);
    StripLeftSpec(s, forInt);
    var j := i - (|s| - |l|);
    assert 0 <= j < |l| && l[j] == s[i];
    var r := StripRight(l, forInt);
    StripRightSpec(l, forInt);
    assert j < |r|;
    assert r[j] == s[i];
  }

  lemma DigitsHaveNoSeparator(t: string)
    ensures IsDigitString(t) ==> '_' !in t && IsDigitGroups(t) && RemoveAll(t, '_') == t
  {
  }

  /**
   * `int(s)` for a `str` in base ten: surrounding whitespace (as `IntStrip` skips
   * it), an optional sign, then digit groups of at most `MaxStrDigits` digits.
   * `None` is the `ValueError` that `int()` raises otherwise; ':' is never accepted.
   */
  function ParseInt(s: string): (r: Option<int>)
    ensures ':' in s ==> r == None
  {
    var t := IntStrip(s);
    ColonBlocksParse(s, t);
    if |t| > 0 && (t[0] == '+' || t[0] == '-') then
      match ParseUnsigned(t[1..])
      case None => None
      case Some(v) => Some(if t[0] == '-' then -(v as int) else v as int)
    else
      match ParseUnsigned(t)
      case None => None
      case Some(v) => Some(v as int)
  }

  /**
   * `int()` of a digit string, with or without surrounding whitespace, is its
   * value, unless it has more than `MaxStrDigits` digits.
   */
  lemma ParseIntOfDigits(s: string)
    requires IsDigitString(IntStrip(s))
    ensures ParseInt(s) == if |IntStrip(s)| <= MaxStrDigits then Some(Value(IntStrip(s))) else None
  {
    var t := IntStrip(s);
    DigitsHaveNoSeparator(t);
    assert !(t[0] == '+' || t[0] == '-');
  }

  /**
   * U+001C before a number: `strip()` removes it, but `int()` raises, also when
   * the string holds a non-ASCII space, which `int()` does skip.
   */
  lemma InfoSeparatorBlocksInt()
    ensures Strip("\U{1C}5") == "5"
    ensures ParseInt("\U{1C}5") == None
    ensures ParseInt("\U{1C}5\U{A0}") == None
    ensures ParseInt("5\U{A0}") == Some(5)
  {
    var s, u, v := "\U{1C}5", "\U{1C}5\U{A0}", "5\U{A0}";
    assert StripLeft(s, false) == "5";
    assert StripRight("5", false) == "5";
    assert IntStrip(s) == s;
    assert !IsDigitGroups(s) && s[0] != '+' && s[0] != '-';
    assert StripLeft(u, true) == u;
    assert StripRight(u, true) == s;
    assert IntStrip(u) == s;
    assert StripLeft(v, true) == v;
    assert StripRight(v, true) == "5";
    assert IntStrip(v) == "5";
    DigitsHaveNoSeparator("5");
  }
}
