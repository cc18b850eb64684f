/**
 * Values and string helpers shared by the Automater model: optional values,
 * results with an error path, the string-or-list shape that site
 * definitions take, regular-expression matches, decimal conversion and the
 * few Python string operations the core relies on.
 */
module Common {

  datatype Option<T> = None | Some(value: T)

  /** An operation that either yields a value or raises the named Python exception. */
  datatype Result<T> = Success(value: T) | Failure(error: string)

  /**
   * A setting read from a group of XML entries: no entry (Python None),
   * exactly one entry (a plain string) or several entries (a list).
   */
  datatype StrOrList = Absent | Text(s: string) | List(items: seq<string>)

  /**
   * One element of what `re.findall` returns: a string for a pattern with at
   * most one group, a tuple of group strings for a pattern with several.
   */
  datatype Match = Str(s: string) | Groups(parts: seq<string>)

  /** Python's `str()` of a match; a tuple renders as `('a', 'b')`. */
  function Show(m: Match): string
  {
    match m
    case Str(s) => s
    case Groups(parts) =>
      if |parts| == 1 then "('" + parts[0] + "',)" else "(" + QuotedList(parts) + ")"
  }

  function QuotedList(parts: seq<string>): string
  {
    if |parts| == 0 then ""
    else if |parts| == 1 then "'" + parts[0] + "'"
    else "'" + parts[0] + "', " + QuotedList(parts[1..])
  }

  // ---------------------------------------------------------------------
  // Characters and decimal numbers

  predicate IsDigit(c: char) { '0' <= c <= '9' }

  predicate IsHexDigit(c: char) { IsDigit(c) || 'a' <= c <= 'f' || 'A' <= c <= 'F' }

  /** Number of digits at the start of `s`. */
  function DigitRun(s: string): (n: nat)
    ensures n <= |s|
  {
    if |s| > 0 && IsDigit(s[0]) then 1 + DigitRun(s[1..]) else 0
  }

  /** Every character of `s` is a digit: the leading run of digits covers it. */
  predicate AllDigits(s: string) { DigitRun(s) == |s| }

  /** A digit string, character by character. */
  lemma {:induction false} AllDigitsIndex(s: string)
    ensures AllDigits(s) <==> forall i | 0 <= i < |s| :: IsDigit(s[i])
    decreases |s|
  {
    if |s| > 0 {
      AllDigitsIndex(s[1..]);
      assert forall i | 1 <= i < |s| :: s[i] == s[1..][i - 1];
    }
  }

  /** A digit string followed by anything: the run covers the digits and continues into the rest. */
  lemma {:induction false} DigitRunAppend(x: string, y: string)
    requires AllDigits(x)
    ensures DigitRun(x + y) == |x| + DigitRun(y)
    decreases |x|
  {
    if |x| > 0 {
      assert (x + y)[1..] == x[1..] + y;
      DigitRunAppend(x[1..], y);
    } else {
      assert x + y == y;
    }
  }

  /** Dropping the last character of a digit string leaves a digit string. */
  lemma AllDigitsInit(s: string)
    requires AllDigits(s) && |s| > 0
    ensures AllDigits(s[..|s| - 1]) && IsDigit(s[|s| - 1])
  {
    AllDigitsIndex(s);
    AllDigitsIndex(s[..|s| - 1]);
  }

  function DigitValue(c: char): nat
    requires IsDigit(c)
  {
    (c as int) - ('0' as int)
  }

  function DigitChar(d: nat): (c: char)
    requires d < 10
    ensures IsDigit(c) && DigitValue(c) == d
  {
    ('0' as int + d) as char
  }

  /** The value of a decimal digit string, most significant digit first. */
  function DigitsValue(s: string): nat
    requires AllDigits(s)
  {
    if |s| == 0 then 0
    else
      AllDigitsInit(s);
      DigitsValue(s[..|s| - 1]) * 10 + DigitValue(s[|s| - 1])
  }

  /** The characters Python 2's `int()` skips around a number. */
  predicate IsSpace(c: char)
  {
    c == ' ' || c == '\t' || c == '\n' || c == '\U{000B}' || c == '\U{000C}' || c == '\r'
  }

  /** The number of whitespace characters `s` starts with. */
  function SpaceRun(s: string): (n: nat)
    ensures n <= |s|
  {
    if |s| > 0 && IsSpace(s[0]) then 1 + SpaceRun(s[1..]) else 0
  }

  /** The leading run of digits is a digit string. */
  lemma {:induction false} DigitRunPrefix(s: string)
    ensures AllDigits(s[..DigitRun(s)])
    decreases |s|
  {
    if |s| > 0 && IsDigit(s[0]) {
      DigitRunPrefix(s[1..]);
      var n := DigitRun(s);
      assert s[..n] == [s[0]] + s[1..][..n - 1];
      assert s[..n][1..] == s[1..][..n - 1];
    } else {
      assert s[..0] == [];
    }
  }

  /**
   * The unsigned part of Python 2's `int()` in base 10 (C's strtoul followed
   * by the end-of-string check): whitespace is skipped, then one or more
   * digits must follow, and after them nothing but whitespace.
   */
  function ParseDigits(s: string): Result<nat>
    decreases |s|
  {
    if |s| > 0 && IsSpace(s[0]) then ParseDigits(s[1..])
    else
      var n := DigitRun(s);
      if n > 0 && SpaceRun(s[n..]) == |s| - n then
        DigitRunPrefix(s);
        Success(DigitsValue(s[..n]))
      else Failure("ValueError")
  }

  /**
   * Python 2's `int()` applied to a string, in base 10: leading whitespace
   * is skipped, a sign may follow, and the rest is read by ParseDigits, so
   * whitespace may also sit between the sign and the digits and after the
   * digits; any other string raises ValueError.
   */
  function ParseInt(s: string): Result<int>
    decreases |s|
  {
    if |s| > 0 && IsSpace(s[0]) then ParseInt(s[1..])
    else if |s| > 0 && (s[0] == '+' || s[0] == '-') then
      match ParseDigits(s[1..])
      case Failure(e) => Failure(e)
      case Success(v) => Success(if s[0] == '-' then -(v as int) else v)
    else
      match ParseDigits(s)
      case Failure(e) => Failure(e)
      case Success(v) => Success(v)
  }

  /** A text of whitespace is one run of it. */
  lemma {:induction false} SpaceRunAll(b: string)
    requires forall k | 0 <= k < |b| :: IsSpace(b[k])
    ensures SpaceRun(b) == |b|
    decreases |b|
  {
    if |b| > 0 {
      SpaceRunAll(b[1..]);
    }
  }

  /** The leading run of whitespace is whitespace. */
  lemma {:induction false} SpaceRunIndex(s: string, k: nat)
    requires k < SpaceRun(s)
    ensures IsSpace(s[k])
    decreases |s|
  {
    if k > 0 {
      SpaceRunIndex(s[1..], k - 1);
    }
  }

  /** Digits followed by whitespace read as the digits' value. */
  lemma ParseDigitsPadded(d: string, b: string)
    requires |d| > 0 && AllDigits(d)
    requires forall k | 0 <= k < |b| :: IsSpace(b[k])
    ensures ParseDigits(d + b) == Success(DigitsValue(d))
  {
    var s := d + b;
    AllDigitsIndex(d);
    assert s[0] == d[0];
    DigitRunAppend(d, b);
    if |b| > 0 {
      assert !IsDigit(b[0]);
    }
    assert DigitRun(s) == |d|;
    assert s[|d|..] == b && s[..|d|] == d;
    SpaceRunAll(b);
  }

  /** Whitespace before and after a run of digits does not change what `int()` reads. */
  lemma {:induction false} ParseIntPadded(a: string, d: string, b: string)
    requires forall k | 0 <= k < |a| :: IsSpace(a[k])
    requires |d| > 0 && AllDigits(d)
    requires forall k | 0 <= k < |b| :: IsSpace(b[k])
    ensures ParseInt(a + d + b) == Success(DigitsValue(d))
    decreases |a|
  {
    if |a| > 0 {
      assert (a + d + b)[0] == a[0];
      assert (a + d + b)[1..] == a[1..] + d + b;
      ParseIntPadded(a[1..], d, b);
    } else {
      assert a + d + b == d + b;
      AllDigitsIndex(d);
      assert (d + b)[0] == d[0];
      ParseDigitsPadded(d, b);
    }
  }

  /** A digit string is read as its value. */
  lemma ParseIntDigits(d: string)
    requires |d| > 0 && AllDigits(d)
    ensures ParseInt(d) == Success(DigitsValue(d))
  {
    ParseIntPadded("", d, "");
    assert "" + d + "" == d;
  }

  /** A sign in front of the digits: `-` negates the value, `+` keeps it. */
  lemma ParseIntSigned(sign: char, d: string)
    requires sign == '+' || sign == '-'
    requires |d| > 0 && AllDigits(d)
    ensures ParseInt([sign] + d) == Success(if sign == '-' then -(DigitsValue(d) as int) else DigitsValue(d))
  {
    var s := [sign] + d;
    assert s[0] == sign && s[1..] == d;
    ParseDigitsPadded(d, "");
    assert d + "" == d;
  }

  /** ParseDigits accepts only digits and whitespace. */
  lemma {:induction false} ParseDigitsChars(s: string, k: nat)
    requires ParseDigits(s).Success? && k < |s|
    ensures IsDigit(s[k]) || IsSpace(s[k])
    decreases |s|
  {
    if |s| > 0 && IsSpace(s[0]) {
      if k > 0 {
        ParseDigitsChars(s[1..], k - 1);
      }
    } else {
      var n := DigitRun(s);
      if k < n {
        DigitRunPrefix(s);
        AllDigitsIndex(s[..n]);
        assert s[..n][k] == s[k];
      } else {
        SpaceRunIndex(s[n..], k - n);
      }
    }
  }

  /** `int()` accepts only digits, a sign and whitespace: a string with any other character raises. */
  lemma {:induction false} ParseIntChars(s: string, k: nat)
    requires ParseInt(s).Success? && k < |s|
    ensures IsDigit(s[k]) || IsSpace(s[k]) || s[k] == '+' || s[k] == '-'
    decreases |s|
  {
    if |s| > 0 && IsSpace(s[0]) {
      if k > 0 {
        ParseIntChars(s[1..], k - 1);
      }
    } else if |s| > 0 && (s[0] == '+' || s[0] == '-') {
      if k > 0 {
        ParseDigitsChars(s[1..], k - 1);
      }
    } else {
      ParseDigitsChars(s, k);
    }
  }

  /** Python's `str()` of a non-negative integer. */
  function NatToString(n: nat): (r: string)
    ensures |r| > 0 && AllDigits(r)
  {
    if n < 10 then
      assert [DigitChar(n)][1..] == [];
      [DigitChar(n)]
    else
      var d := [DigitChar(n % 10)];
      DigitRunAppend(NatToString(n / 10), d);
      assert d[1..] == [];
      NatToString(n / 10) + d
  }

  /** Python's `str()` of an integer. */
  function IntToString(i: int): (r: string)
    ensures i >= 0 ==> r == NatToString(i)
  {
    if i < 0 then "-" + NatToString(-i) else NatToString(i)
  }

  /** Parsing the decimal rendering of a number gives the number back. */
  lemma {:induction false} ParseNatToString(n: nat)
    ensures ParseInt(NatToString(n)) == Success(n)
  {
    DigitsOfString(n);
    ParseIntDigits(NatToString(n));
  }

  lemma {:induction false} DigitsOfString(n: nat)
    ensures DigitsValue(NatToString(n)) == n
  {
    var s := NatToString(n);
    if n < 10 {
      assert s[..|s| - 1] == [];
    } else {
      DigitsOfString(n / 10);
      assert s[..|s| - 1] == NatToString(n / 10);
      assert DigitsValue(s) == DigitsValue(NatToString(n / 10)) * 10 + n % 10;
    }
  }

  /** Different numbers render differently. */
  lemma NatToStringInjective(m: nat, n: nat)
    requires NatToString(m) == NatToString(n)
    ensures m == n
  {
    ParseNatToString(m);
    ParseNatToString(n);
  }

  // ---------------------------------------------------------------------
  // Searching and splitting

  /** `s.index(c)`: the first position of `c`, or None where Python raises ValueError. */
  function FirstIndex(s: string, c: char): (r: Option<nat>)
    ensures r.Some? ==> r.value < |s|
  {
    if |s| == 0 then None
    else if s[0] == c then Some(0)
    else match FirstIndex(s[1..], c)
      case None => None
      case Some(i) => Some(i + 1)
  }

  /** `s.rindex(c)`: the last position of `c`, or None where Python raises ValueError. */
  function LastIndex(s: string, c: char): (r: Option<nat>)
    ensures r.Some? ==> r.value < |s|
  {
    if |s| == 0 then None
    else if s[|s| - 1] == c then Some(|s| - 1)
    else match LastIndex(s[..|s| - 1], c)
      case None => None
      case Some(i) => Some(i)
  }

  /** What `FirstIndex` finds: the first occurrence, or none at all. */
  lemma {:induction false} FirstIndexFinds(s: string, c: char)
    ensures FirstIndex(s, c).Some? ==>
      var i := FirstIndex(s, c).value; s[i] == c && c !in s[..i]
    ensures FirstIndex(s, c).None? <==> c !in s
  {
    if |s| > 0 && s[0] != c {
      FirstIndexFinds(s[1..], c);
      assert s == [s[0]] + s[1..];
      match FirstIndex(s[1..], c)
      case None =>
      case Some(i) => assert s[..i + 1] == [s[0]] + s[1..][..i];
    }
  }

  /** What `LastIndex` finds: the last occurrence, or none at all. */
  lemma {:induction false} LastIndexFinds(s: string, c: char)
    ensures LastIndex(s, c).Some? ==>
      var i := LastIndex(s, c).value; s[i] == c && c !in s[i + 1..]
    ensures LastIndex(s, c).None? <==> c !in s
  {
    if |s| > 0 && s[|s| - 1] != c {
      var init := s[..|s| - 1];
      LastIndexFinds(init, c);
      assert s == init + [s[|s| - 1]];
      match LastIndex(init, c)
      case None =>
      case Some(i) => assert s[i + 1..] == init[i + 1..] + [s[|s| - 1]];
    }
  }

  /** `s.split(c)`: the pieces between occurrences of `c`, always at least one. */
  function Split(s: string, c: char): (r: seq<string>)
    ensures |r| >= 1
    decreases |s|
  {
    match FirstIndex(s, c)
    case None => [s]
    case Some(i) => [s[..i]] + Split(s[i + 1..], c)
  }

  /** The inverse of `Split`: the pieces joined by `sep`. */
  function Join(pieces: seq<string>, sep: string): string
  {
    if |pieces| == 0 then ""
    else if |pieces| == 1 then pieces[0]
    else pieces[0] + sep + Join(pieces[1..], sep)
  }

  /** Splitting a string made of pieces free of the separator recovers the pieces. */
  lemma {:induction false} SplitJoin(pieces: seq<string>, c: char)
    requires |pieces| >= 1
    requires forall k | 0 <= k < |pieces| :: c !in pieces[k]
    ensures Split(Join(pieces, [c]), c) == pieces
  {
    if |pieces| == 1 {
      FirstIndexFinds(pieces[0], c);
    } else {
      var s := Join(pieces, [c]);
      var p := pieces[0];
      assert s == p + [c] + Join(pieces[1..], [c]);
      FirstIndexAfterFree(p, c, Join(pieces[1..], [c]));
      assert s[..|p|] == p;
      assert s[|p| + 1..] == Join(pieces[1..], [c]);
      SplitJoin(pieces[1..], c);
    }
  }

  /** The first occurrence of `c` in `p + [c] + q` is right after `p` when `p` is free of `c`. */
  lemma {:induction false} FirstIndexAfterFree(p: string, c: char, q: string)
    requires c !in p
    ensures FirstIndex(p + [c] + q, c) == Some(|p|)
    decreases |p|
  {
    var s := p + [c] + q;
    if |p| > 0 {
      assert s[0] == p[0];
      assert s[1..] == p[1..] + [c] + q;
      FirstIndexAfterFree(p[1..], c, q);
    }
  }

  /** The last occurrence of `c` in `p + [c] + q` is right before `q` when `q` is free of `c`. */
  lemma {:induction false} LastIndexBeforeFree(p: string, c: char, q: string)
    requires c !in q
    ensures LastIndex(p + [c] + q, c) == Some(|p|)
    decreases |q|
  {
    var s := p + [c] + q;
    if |q| > 0 {
      assert s[|s| - 1] == q[|q| - 1];
      assert s[..|s| - 1] == p + [c] + q[..|q| - 1];
      LastIndexBeforeFree(p, c, q[..|q| - 1]);
    }
  }

  // ---------------------------------------------------------------------
  // Python's str.replace

  /** `pat` occurs in `s` starting at position `i`. */
  predicate OccursAt(s: string, pat: string, i: nat)
  {
    i + |pat| <= |s| && s[i..i + |pat|] == pat
  }

  predicate Occurs(s: string, pat: string)
  {
    exists i: nat | i <= |s| :: OccursAt(s, pat, i)
  }

  /**
   * `s.replace(pat, rep)`: every occurrence of `pat`, scanning left to right
   * without overlap, replaced by `rep`.
   */
  function ReplaceAll(s: string, pat: string, rep: string): string
    requires |pat| > 0
    decreases |s|
  {
    if |s| < |pat| then s
    else if s[..|pat|] == pat then rep + ReplaceAll(s[|pat|..], pat, rep)
    else [s[0]] + ReplaceAll(s[1..], pat, rep)
  }

  /** A stretch without the pattern's first character passes through a replacement unchanged. */
  lemma {:induction false} ReplaceSkipsFree(x: string, y: string, pat: string, rep: string)
    requires |pat| > 0 && pat[0] !in x
    ensures ReplaceAll(x + y, pat, rep) == x + ReplaceAll(y, pat, rep)
    decreases |x|
  {
    if |x| > 0 {
      var s := x + y;
      if |s| < |pat| {
        assert |y| < |pat|;
      } else {
        assert s[..|pat|][0] == x[0];
        assert s[1..] == x[1..] + y;
        ReplaceSkipsFree(x[1..], y, pat, rep);
      }
    } else {
      assert x + y == y;
    }
  }

  /**
   * Replacing `pat` in a text made of pieces joined by `pat`, where no piece
   * contains the first character of `pat`, joins the pieces by `rep` instead.
   */
  lemma {:induction false} ReplaceJoin(pieces: seq<string>, pat: string, rep: string)
    requires |pat| > 0
    requires forall k | 0 <= k < |pieces| :: pat[0] !in pieces[k]
    ensures ReplaceAll(Join(pieces, pat), pat, rep) == Join(pieces, rep)
  {
    if |pieces| == 1 {
      ReplaceSkipsFree(pieces[0], "", pat, rep);
      assert pieces[0] + "" == pieces[0];
    } else if |pieces| > 1 {
      var rest := Join(pieces[1..], pat);
      assert Join(pieces, pat) == pieces[0] + (pat + rest);
      ReplaceSkipsFree(pieces[0], pat + rest, pat, rep);
      assert (pat + rest)[..|pat|] == pat;
      assert (pat + rest)[|pat|..] == rest;
      ReplaceJoin(pieces[1..], pat, rep);
    }
  }

  /** No occurrence of `pat` in `x + y` starts inside `x`. */
  predicate NoneStartsIn(x: string, y: string, pat: string)
  {
    forall i | 0 <= i < |x| :: !OccursAt(x + y, pat, i)
  }

  /** A head in which no occurrence of the pattern starts passes through a replacement unchanged. */
  lemma {:induction false} ReplaceSkips(x: string, y: string, pat: string, rep: string)
    requires |pat| > 0 && NoneStartsIn(x, y, pat)
    ensures ReplaceAll(x + y, pat, rep) == x + ReplaceAll(y, pat, rep)
    decreases |x|
  {
    var s := x + y;
    if |x| > 0 && |s| >= |pat| {
      assert !OccursAt(s, pat, 0);
      assert s[1..] == x[1..] + y;
      NoneStartsInTail(x, y, pat);
      ReplaceSkips(x[1..], y, pat, rep);
      assert s == [x[0]] + (x[1..] + y);
    } else if |x| > 0 {
      assert |y| < |pat|;
    } else {
      assert x + y == y;
    }
  }

  /** Dropping the first character of the head keeps occurrences out of it. */
  lemma NoneStartsInTail(x: string, y: string, pat: string)
    requires |x| > 0 && NoneStartsIn(x, y, pat)
    ensures NoneStartsIn(x[1..], y, pat)
  {
    var s := x + y;
    assert s[1..] == x[1..] + y;
    forall i | 0 <= i < |x[1..]|
      ensures !OccursAt(x[1..] + y, pat, i)
    {
      assert !OccursAt(s, pat, i + 1);
      if i + |pat| <= |s[1..]| {
        assert s[1..][i..i + |pat|] == s[i + 1..i + 1 + |pat|];
      }
    }
  }

  /**
   * Replacing `pat` in pieces joined by `pat` joins them by `rep`, provided
   * no occurrence starts inside a piece, whether it would lie within the
   * piece or run on into the separator that follows.
   */
  lemma {:induction false} ReplaceJoinSeparated(pieces: seq<string>, pat: string, rep: string)
    requires |pat| > 0
    requires forall k | 0 <= k < |pieces| - 1 :: NoneStartsIn(pieces[k], pat, pat)
    requires |pieces| > 0 ==> !Occurs(pieces[|pieces| - 1], pat)
    ensures ReplaceAll(Join(pieces, pat), pat, rep) == Join(pieces, rep)
  {
    if |pieces| == 1 {
      ReplaceAbsent(pieces[0], pat, rep);
    } else if |pieces| > 1 {
      var p := pieces[0];
      var rest := Join(pieces[1..], pat);
      assert Join(pieces, pat) == p + (pat + rest);
      assert NoneStartsIn(p, pat, pat);
      forall i | 0 <= i < |p|
        ensures !OccursAt(p + (pat + rest), pat, i)
      {
        assert !OccursAt(p + pat, pat, i);
        assert (p + (pat + rest))[i..i + |pat|] == (p + pat)[i..i + |pat|];
      }
      ReplaceSkips(p, pat + rest, pat, rep);
      assert (pat + rest)[..|pat|] == pat;
      assert (pat + rest)[|pat|..] == rest;
      forall k | 0 <= k < |pieces[1..]| - 1
        ensures NoneStartsIn(pieces[1..][k], pat, pat)
      {
        assert pieces[1..][k] == pieces[k + 1];
      }
      ReplaceJoinSeparated(pieces[1..], pat, rep);
    }
  }

  /** A joined text mentions a character only if a piece or the separator does. */
  lemma {:induction false} JoinFree(pieces: seq<string>, sep: string, c: char)
    requires c !in sep
    requires forall k | 0 <= k < |pieces| :: c !in pieces[k]
    ensures c !in Join(pieces, sep)
  {
    if |pieces| > 1 {
      JoinFree(pieces[1..], sep, c);
    }
  }

  /** A text free of the pattern's first character contains no occurrence of it. */
  lemma FreeHasNoOccurrence(s: string, pat: string)
    requires |pat| > 0 && pat[0] !in s
    ensures !Occurs(s, pat)
  {
    forall i: nat | i <= |s|
      ensures !OccursAt(s, pat, i)
    {
      if i + |pat| <= |s| {
        assert s[i..i + |pat|][0] == s[i];
      }
    }
  }

  /**
   * Once nothing matches, replacing again changes nothing: this is why the
   * placeholder substitution can be repeated safely.
   */
  lemma {:induction false} ReplaceAbsent(s: string, pat: string, rep: string)
    requires |pat| > 0 && !Occurs(s, pat)
    ensures ReplaceAll(s, pat, rep) == s
    decreases |s|
  {
    if |s| >= |pat| {
      assert !OccursAt(s, pat, 0);
      forall i: nat | i <= |s[1..]|
        ensures !OccursAt(s[1..], pat, i)
      {
        assert !OccursAt(s, pat, i + 1);
        if i + |pat| <= |s[1..]| {
          assert s[1..][i..i + |pat|] == s[i + 1..i + 1 + |pat|];
        }
      }
      ReplaceAbsent(s[1..], pat, rep);
    }
  }

  /** When the replacement starts like the pattern, a replaced text starts like the original. */
  lemma ReplaceHead(s: string, pat: string, rep: string)
    requires |pat| > 0 && |rep| > 0 && rep[0] == pat[0] && |s| > 0
    ensures |ReplaceAll(s, pat, rep)| > 0 && ReplaceAll(s, pat, rep)[0] == s[0]
  {
    if |s| >= |pat| && s[..|pat|] == pat {
      assert s[..|pat|][0] == s[0];
    }
  }

  /**
   * A stretch at the start of a replaced text that never mentions the
   * pattern's first character was copied unchanged from the original.
   */
  lemma {:induction false} ReplaceFreePrefix(t: string, pat: string, rep: string, m: nat)
    requires |pat| > 0 && |rep| > 0 && rep[0] == pat[0]
    requires m <= |ReplaceAll(t, pat, rep)|
    requires forall k | 0 <= k < m :: ReplaceAll(t, pat, rep)[k] != pat[0]
    ensures m <= |t| && ReplaceAll(t, pat, rep)[..m] == t[..m]
    decreases m
  {
    if m > 0 {
      ReplaceHead(t, pat, rep);
      var r := ReplaceAll(t, pat, rep);
      assert t[0] != pat[0];
      if |t| >= |pat| {
        assert t[..|pat|][0] != pat[0];
        var r' := ReplaceAll(t[1..], pat, rep);
        assert r == [t[0]] + r';
        forall k | 0 <= k < m - 1
          ensures r'[k] != pat[0]
        {
          assert r'[k] == r[k + 1];
        }
        ReplaceFreePrefix(t[1..], pat, rep, m - 1);
        assert r[..m] == [t[0]] + r'[..m - 1];
        assert t[..m] == [t[0]] + t[1..][..m - 1];
      }
    }
  }

  /** Where the original does not start with the pattern, neither does its replacement. */
  lemma ReplaceNotAtStart(s: string, pat: string, rep: string)
    requires |pat| > 0 && |rep| > 0 && rep[0] == pat[0] && pat[0] !in pat[1..]
    requires |s| >= |pat| && s[..|pat|] != pat && |pat| <= |ReplaceAll(s, pat, rep)|
    ensures ReplaceAll(s, pat, rep)[..|pat|] != pat
  {
    var r := ReplaceAll(s, pat, rep);
    var rest := ReplaceAll(s[1..], pat, rep);
    assert s[..|pat|][0] == s[0];
    assert r == [s[0]] + rest;
    var m := |pat| - 1;
    if exists k | 0 <= k < m :: rest[k] == pat[0] {
      var k :| 0 <= k < m && rest[k] == pat[0];
      assert r[k + 1] == pat[0];
      assert pat[1..][k] == pat[k + 1];
    } else {
      ReplaceFreePrefix(s[1..], pat, rep, m);
      assert r[..|pat|] == [s[0]] + rest[..m];
      assert s[..|pat|] == [s[0]] + s[1..][..m];
    }
  }

  /** No occurrence in `head + rest` when none starts inside `head` and `rest` has none. */
  lemma NoneAfterHead(head: string, rest: string, pat: string)
    requires !Occurs(rest, pat)
    requires forall i | 0 <= i < |head| :: !OccursAt(head + rest, pat, i)
    ensures !Occurs(head + rest, pat)
  {
    var r := head + rest;
    forall i: nat | |head| <= i <= |r|
      ensures !OccursAt(r, pat, i)
    {
      if i + |pat| <= |r| {
        assert r[i..i + |pat|] == rest[i - |head|..i - |head| + |pat|];
        assert !OccursAt(rest, pat, i - |head|);
      }
    }
  }

  /**
   * A replacement of the pattern's length that starts like it but differs
   * from it, and in which the first character appears nowhere else, leaves
   * no occurrence of the pattern behind.
   */
  lemma {:induction false} ReplaceLeavesNone(s: string, pat: string, rep: string)
    requires |pat| == |rep| && |pat| > 0 && rep[0] == pat[0] && rep != pat
    requires pat[0] !in pat[1..] && pat[0] !in rep[1..]
    ensures !Occurs(ReplaceAll(s, pat, rep), pat)
    decreases |s|
  {
    if |s| >= |pat| {
      if s[..|pat|] == pat {
        var rest := ReplaceAll(s[|pat|..], pat, rep);
        ReplaceLeavesNone(s[|pat|..], pat, rep);
        var r := rep + rest;
        forall i | 0 <= i < |rep|
          ensures !OccursAt(r, pat, i)
        {
          if i == 0 {
            assert r[..|pat|] == rep;
          } else if i + |pat| <= |r| {
            assert r[i..i + |pat|][0] == r[i] == rep[1..][i - 1];
          }
        }
        NoneAfterHead(rep, rest, pat);
      } else {
        var rest := ReplaceAll(s[1..], pat, rep);
        ReplaceLeavesNone(s[1..], pat, rep);
        var r := [s[0]] + rest;
        assert ReplaceAll(s, pat, rep) == r;
        if |pat| <= |r| {
          ReplaceNotAtStart(s, pat, rep);
        }
        NoneAfterHead([s[0]], rest, pat);
      }
    }
  }

  // ---------------------------------------------------------------------
  // Python's ordering of str values

  /** `a <= b` for Python strings: lexicographic by character. */
  predicate StrLe(a: string, b: string)
    decreases |a|
  {
    |a| == 0 || (|b| > 0 && (a[0] < b[0] || (a[0] == b[0] && StrLe(a[1..], b[1..]))))
  }

  lemma {:induction false} StrLeTotal(a: string, b: string)
    ensures StrLe(a, b) || StrLe(b, a)
    decreases |a|
  {
    if |a| > 0 && |b| > 0 && a[0] == b[0] {
      StrLeTotal(a[1..], b[1..]);
    }
  }

  lemma {:induction false} StrLeTrans(a: string, b: string, c: string)
    requires StrLe(a, b) && StrLe(b, c)
    ensures StrLe(a, c)
    decreases |a|
  {
    if |a| > 0 && a[0] == b[0] && b[0] == c[0] {
      StrLeTrans(a[1..], b[1..], c[1..]);
    }
  }

  lemma {:induction false} StrLeRefl(a: string)
    ensures StrLe(a, a)
    decreases |a|
  {
    if |a| > 0 {
      StrLeRefl(a[1..]);
    }
  }

  lemma {:induction false} StrLeAntisym(a: string, b: string)
    requires StrLe(a, b) && StrLe(b, a)
    ensures a == b
    decreases |a|
  {
    if |a| > 0 {
      StrLeAntisym(a[1..], b[1..]);
      assert a == [a[0]] + a[1..] && b == [b[0]] + b[1..];
    }
  }

  /** Extending a sliced suffix by one element. */
  lemma SliceSnoc<T>(done: seq<T>, xs: seq<T>, j: int)
    requires 0 <= j < |xs|
    ensures done + xs[..j + 1] == (done + xs[..j]) + [xs[j]]
  {
    assert xs[..j + 1] == xs[..j] + [xs[j]];
  }

  lemma AppendAssoc<T>(a: seq<T>, b: seq<T>, c: seq<T>)
    ensures a + (b + c) == (a + b) + c
  {
  }
}
