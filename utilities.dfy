/**
 * The target parser of utilities.py: recognising IPv4 addresses and the two
 * range notations (CIDR `a.b.c.d/n` and dash `a.b.c.d-n`), and expanding a
 * target into the list of addresses the tool queries.
 *
 * The three fixed regular expressions are written out as predicates: a
 * match of `\d{1,3}` followed by a separator is a maximal run of one to
 * three digits (a longer run cannot be followed by the separator inside the
 * match), so each predicate is deterministic at a given start position and a
 * `re.findall` over the target is non-empty exactly when some start position
 * matches.
 */
module Utilities {
  import opened Common

  // ---------------------------------------------------------------------
  // The fixed patterns

  /** `\d{1,3}` followed by `sep` at the start of `s`: the length of that match. */
  function OctetThen(s: string, sep: char): (r: Option<nat>)
    ensures r.Some? ==> 2 <= r.value <= |s|
  {
    var n := DigitRun(s);
    if 1 <= n <= 3 && n < |s| && s[n] == sep then Some(n + 1) else None
  }

  /** `\d{1,3}\.\d{1,3}\.\d{1,3}\.` at the start of `s`: where the fourth octet begins. */
  function ThreeOctets(s: string): (r: Option<nat>)
    ensures r.Some? ==> r.value <= |s|
  {
    match OctetThen(s, '.')
    case None => None
    case Some(j) =>
      match OctetThen(s[j..], '.')
      case None => None
      case Some(k) =>
        match OctetThen(s[j + k..], '.')
        case None => None
        case Some(l) => Some(j + k + l)
  }

  /** `\d{1,3}\.\d{1,3}\.\d{1,3}\.\d{1,3}` matches at the start of `s`. */
  predicate IPv4Start(s: string)
  {
    match ThreeOctets(s)
    case None => false
    case Some(m) => DigitRun(s[m..]) >= 1
  }

  /** An address whose fourth octet is followed by `sep` and at least one digit. */
  predicate RangeStart(s: string, sep: char)
  {
    match ThreeOctets(s)
    case None => false
    case Some(m) =>
      match OctetThen(s[m..], sep)
      case None => false
      case Some(u) => DigitRun(s[m + u..]) >= 1
  }

  /**
   * re.findall of the address pattern is non-empty: a match starts at some
   * position of `s`.
   */
  predicate HasIPv4(s: string)
    decreases |s|
  {
    IPv4Start(s) || (|s| > 0 && HasIPv4(s[1..]))
  }

  /** Some position of `s` starts a range match with separator `sep`. */
  predicate HasRange(s: string, sep: char)
    decreases |s|
  {
    RangeStart(s, sep) || (|s| > 0 && HasRange(s[1..], sep))
  }

  /** re.findall of the CIDR pattern `...\d{1,3}\/\d{1,2}` is non-empty. */
  predicate HasCidr(s: string) { HasRange(s, '/') }

  /** re.findall of the dash pattern `...\d{1,3}-\d{1,3}` is non-empty. */
  predicate HasDash(s: string) { HasRange(s, '-') }

  /** A range match starts with a plain address match. */
  lemma {:induction false} RangeMatchIsIPv4(s: string, sep: char)
    ensures HasRange(s, sep) ==> HasIPv4(s)
    decreases |s|
  {
    if |s| > 0 {
      RangeMatchIsIPv4(s[1..], sep);
    }
  }

  /** A range match at the start of `t` contains its separator. */
  lemma RangeStartHasSeparator(t: string, sep: char)
    ensures RangeStart(t, sep) ==> sep in t
  {
    if RangeStart(t, sep) {
      var m := ThreeOctets(t).value;
      var n := DigitRun(t[m..]);
      assert t[m..][n] == t[m + n];
    }
  }

  /** A range match needs its separator somewhere in the text. */
  lemma {:induction false} RangeMatchNeedsSeparator(s: string, sep: char)
    ensures HasRange(s, sep) ==> sep in s
    decreases |s|
  {
    RangeStartHasSeparator(s, sep);
    if |s| > 0 {
      RangeMatchNeedsSeparator(s[1..], sep);
      assert forall k | 0 <= k < |s[1..]| :: s[1..][k] == s[k + 1];
    }
  }

  /** A text without digits holds no address. */
  lemma {:induction false} NoDigitsNoIPv4(s: string)
    requires forall k | 0 <= k < |s| :: !IsDigit(s[k])
    ensures !HasIPv4(s)
    decreases |s|
  {
    if |s| > 0 {
      NoDigitsNoIPv4(s[1..]);
    }
  }

  predicate IsOctetText(x: string) { AllDigits(x) && 1 <= |x| <= 3 }

  /** An octet followed by a non-digit separator matches `\d{1,3}` + separator. */
  lemma OctetThenAppend(x: string, sep: char, y: string)
    requires IsOctetText(x) && !IsDigit(sep)
    ensures OctetThen(x + [sep] + y, sep) == Some(|x| + 1)
    ensures (x + [sep] + y)[|x| + 1..] == y
  {
    assert x + [sep] + y == x + ([sep] + y);
    DigitRunAppend(x, [sep] + y);
  }

  /** An octet followed by a dot. */
  lemma OctetThenDot(x: string, y: string)
    requires IsOctetText(x)
    ensures OctetThen(x + "." + y, '.') == Some(|x| + 1)
    ensures (x + "." + y)[|x| + 1..] == y
  {
    OctetThenAppend(x, '.', y);
  }

  /** Three dotted octets found one after the other make up the address prefix. */
  lemma ThreeOctetsChain(s: string, r1: string, r2: string, rest: string, j: nat, k: nat, l: nat)
    requires j <= |s| && s[j..] == r1 && k <= |r1| && r1[k..] == r2 && l <= |r2| && r2[l..] == rest
    requires OctetThen(s, '.') == Some(j) && OctetThen(r1, '.') == Some(k) && OctetThen(r2, '.') == Some(l)
    ensures ThreeOctets(s).Some? && ThreeOctets(s).value == j + k + l
    ensures s[j + k + l..] == rest
  {
    assert s[j + k..] == r2;
  }

  // ---------------------------------------------------------------------
  // isIPorIPList

  /**
   * isIPorIPList as written: the CIDR and dash guards test
   * `found is not None or len(found) != 0`, and `re.findall` always returns
   * a list, so the first guard already holds for every input.
   */
  function IsIPorIPListAsWritten(target: string): (r: bool)
  {
    var cidrFoundIsNotNone := true;
    if cidrFoundIsNotNone || HasCidr(target) then true
    else
      var dashFoundIsNotNone := true;
      if dashFoundIsNotNone || HasDash(target) then true
      else HasIPv4(target)
  }

  /** The guard as evidently intended: some address, CIDR range or dash range occurs. */
  function IsIPorIPList(target: string): (r: bool)
  {
    HasCidr(target) || HasDash(target) || HasIPv4(target)
  }

  /** As written, every target counts as an address or address range. */
  lemma IsIPorIPListAsWrittenAlwaysTrue(target: string)
    ensures IsIPorIPListAsWritten(target)
  {
  }

  /** The discrepancy on a concrete host name: as written true, intended false. */
  lemma IsIPorIPListHostName()
    ensures IsIPorIPListAsWritten("example.com")
    ensures !IsIPorIPList("example.com")
  {
    var s := "example.com";
    assert s == ['e', 'x', 'a', 'm', 'p', 'l', 'e', '.', 'c', 'o', 'm'];
    NoDigitsNoIPv4(s);
    RangeMatchIsIPv4(s, '/');
    RangeMatchIsIPv4(s, '-');
  }

  /** Since both range patterns begin with an address, the intended guard is "contains an address". */
  lemma IsIPorIPListIffIPv4(target: string)
    ensures IsIPorIPList(target) <==> HasIPv4(target)
  {
    RangeMatchIsIPv4(target, '/');
    RangeMatchIsIPv4(target, '-');
  }

  // ---------------------------------------------------------------------
  // getTarget

  function Pow2(n: nat): (r: nat)
    ensures r >= 1
  {
    if n == 0 then 1 else 2 * Pow2(n - 1)
  }

  lemma Pow2Small()
    ensures Pow2(0) == 1 && Pow2(1) == 2 && Pow2(2) == 4 && Pow2(3) == 8
    ensures Pow2(4) == 16 && Pow2(5) == 32 && Pow2(6) == 64 && Pow2(7) == 128 && Pow2(8) == 256
  {
    assert Pow2(1) == 2 * Pow2(0);
    assert Pow2(2) == 2 * Pow2(1);
    assert Pow2(3) == 2 * Pow2(2);
    assert Pow2(4) == 2 * Pow2(3);
    assert Pow2(5) == 2 * Pow2(4);
    assert Pow2(6) == 2 * Pow2(5);
    assert Pow2(7) == 2 * Pow2(6);
    assert Pow2(8) == 2 * Pow2(7);
  }

  /**
   * The range end stored in `bytearr[1]`, as written: a prefix above 32 or
   * equal to 31 gives 0; otherwise the prefix is raised to at least 24 and
   * the end is 2 to the power (32 - prefix). For a prefix of 24 or less
   * that is 256, which a bytearray rejects with ValueError.
   */
  function CidrEndAsWritten(given: int): (r: Result<nat>)
  {
    if given > 32 || given == 31 then Success(0)
    else
      var prefix := if given < 24 then 24 else given;
      var e := Pow2(32 - prefix);
      if e > 255 then Failure("ValueError") else Success(e)
  }

  /** The range end as evidently intended: the same value, kept as an unbounded integer. */
  function CidrEnd(given: int): (r: nat)
    ensures given > 32 || given == 31 ==> r == 0
    ensures given <= 24 ==> r == 256
    ensures 24 < given <= 30 || given == 32 ==> 1 <= r <= 128 && r == Pow2(32 - given)
  {
    if given > 32 || given == 31 then 0
    else
      var prefix := if given < 24 then 24 else given;
      Pow2Small();
      Pow2(32 - prefix)
  }

  /** As written, every prefix of 24 or less raises: a /24 or wider range cannot be expanded. */
  lemma CidrEndAsWrittenRejectsWide(given: int)
    requires given <= 24
    ensures CidrEndAsWritten(given).Failure?
  {
    Pow2Small();
  }

  /** Outside the failing prefixes the corrected end is the value the source stores. */
  lemma CidrEndAgrees(given: int)
    requires given > 24
    ensures CidrEndAsWritten(given) == Success(CidrEnd(given))
  {
  }

  /** Python's `^` on non-negative integers, bit by bit from the lowest. */
  function Xor(a: nat, b: nat): nat
    decreases a + b
  {
    if a == 0 && b == 0 then 0 else 2 * Xor(a / 2, b / 2) + (if a % 2 == b % 2 then 0 else 1)
  }

  /** Exclusive or with 0 keeps a value. */
  lemma {:induction false} XorZero(a: nat)
    ensures Xor(a, 0) == a
    decreases a
  {
    if a > 0 {
      XorZero(a / 2);
    }
  }

  /** Exclusive or with 1 flips the lowest bit. */
  lemma XorOne(a: nat)
    ensures Xor(a, 1) == if a % 2 == 0 then a + 1 else a - 1
  {
    XorZero(a / 2);
  }

  /**
   * The last value of a CIDR expansion: when the octet exceeds the range end
   * it is the octet XOR the end, otherwise the end itself.
   */
  function CidrLast(octet: nat, end: nat): nat
  {
    if octet > end then Xor(octet, end) else end
  }

  /** The addresses `prefix + str(from)`, ..., `prefix + str(from + count - 1)`. */
  function Range(prefix: string, from: int, count: nat): (r: seq<string>)
    ensures |r| == count
  {
    seq(count, k requires 0 <= k < count => prefix + IntToString(from + k))
  }

  /**
   * What the CIDR branch yields from `start` and `last`: one address when they
   * are equal, then either every value from `start` up to `last - 1`, or
   * `start` alone.
   */
  function CidrAddresses(prefix: string, start: nat, last: nat): seq<string>
  {
    (if start == last then [prefix + NatToString(start)] else [])
    + (if start < last then Range(prefix, start, last - start) else [prefix + NatToString(start)])
  }

  /**
   * The pieces the CIDR branch reads from the target before computing the
   * range end: the address prefix up to the last dot, the fourth octet (the
   * first byte of the bytearray) and the prefix length as given.
   */
  datatype CidrPlanned = CidrPlanned(prefix: string, start: nat, given: int)

  /**
   * The texts a range branch cuts from the target: the fourth dotted piece
   * of what precedes the first `sep`, and everything after that `sep`.
   */
  function RangeCut(target: string, sep: char): Result<(string, string)>
  {
    match FirstIndex(target, sep)
    case None => Failure("ValueError")
    case Some(i) =>
      var octets := Split(target[..i], '.');
      if |octets| < 4 then Failure("IndexError") else Success((octets[3], target[i + 1..]))
  }

  function CidrPlan(target: string): Result<CidrPlanned>
  {
    match RangeCut(target, '/')
    case Failure(e) => Failure(e)
    case Success((octetText, givenText)) =>
      match ParseInt(octetText)
      case Failure(e) => Failure(e)
      case Success(octet) =>
        // A bytearray element outside 0..255 raises.
        if octet < 0 || octet > 255 then Failure("ValueError")
        else match ParseInt(givenText)
          case Failure(e) => Failure(e)
          case Success(given) =>
            match LastIndex(target, '.')
            case None => Failure("ValueError")
            case Some(dot) => Success(CidrPlanned(target[..dot + 1], octet, given))
  }

  /** The pieces the dash branch computes: prefix, first and last octet, and the raw first octet. */
  datatype DashPlanned = DashPlanned(prefix: string, first: int, last: int, raw: string)

  function DashPlan(target: string): Result<DashPlanned>
  {
    match RangeCut(target, '-')
    case Failure(e) => Failure(e)
    case Success((firstText, lastText)) =>
      match ParseInt(firstText)
      case Failure(e) => Failure(e)
      case Success(first) =>
        match ParseInt(lastText)
        case Failure(e) => Failure(e)
        case Success(last) =>
          match LastIndex(target, '.')
          case None => Failure("ValueError")
          case Some(dot) => Success(DashPlanned(target[..dot + 1], first, last, firstText))
  }

  /** What the CIDR branch yields, or the exception raised while planning it. */
  function CidrYield(plan: Result<CidrPlanned>): Result<seq<string>>
  {
    if plan.Failure? then Failure(plan.error)
    else
      var p := plan.value;
      Success(CidrAddresses(p.prefix, p.start, CidrLast(p.start, CidrEnd(p.given))))
  }

  /** The CIDR branch as written: storing the range end in the bytearray may raise. */
  function CidrYieldAsWritten(plan: Result<CidrPlanned>): Result<seq<string>>
  {
    if plan.Failure? then Failure(plan.error)
    else
      var p := plan.value;
      match CidrEndAsWritten(p.given)
      case Failure(e) => Failure(e)
      case Success(end) => Success(CidrAddresses(p.prefix, p.start, CidrLast(p.start, end)))
  }

  /**
   * What the dash branch yields: every address from the first octet up to
   * the last inclusive, or, when the range is empty, the prefix followed by
   * the first octet as typed.
   */
  function DashYield(plan: Result<DashPlanned>): Result<seq<string>>
  {
    if plan.Failure? then Failure(plan.error)
    else if plan.value.first < plan.value.last then
      Success(Range(plan.value.prefix, plan.value.first, plan.value.last - plan.value.first + 1))
    else Success([plan.value.prefix + plan.value.raw])
  }

  /**
   * The addresses getTarget yields for a target, or the exception it raises:
   * a CIDR range first, then a dash range, and otherwise the target itself.
   */
  function ExpandTarget(target: string): Result<seq<string>>
  {
    if HasCidr(target) then CidrYield(CidrPlan(target))
    else if HasDash(target) then DashYield(DashPlan(target))
    else Success([target])
  }

  /** getTarget as written, differing from ExpandTarget only in the CIDR range end. */
  function ExpandTargetAsWritten(target: string): Result<seq<string>>
  {
    if HasCidr(target) then CidrYieldAsWritten(CidrPlan(target))
    else ExpandTarget(target)
  }

  /** Extending a range by its next address. */
  lemma RangeSnoc(prefix: string, from: int, count: nat)
    ensures Range(prefix, from, count + 1) == Range(prefix, from, count) + [prefix + IntToString(from + count)]
  {
  }

  /** The yield loops of the CIDR branch, once the plan is made. */
  method YieldCidr(plan: Result<CidrPlanned>) returns (r: Result<seq<string>>)
    ensures r == CidrYield(plan)
  {
    if plan.Failure? {
      return Failure(plan.error);
    }
    var addresses := YieldCidrRange(plan.value.prefix, plan.value.start,
      CidrLast(plan.value.start, CidrEnd(plan.value.given)));
    return Success(addresses);
  }

  /** The two yield steps of the CIDR branch, from `start` towards `last`. */
  method YieldCidrRange(prefix: string, start: nat, last: nat) returns (r: seq<string>)
    ensures r == CidrAddresses(prefix, start, last)
  {
    var equal: seq<string> := [];
    if start == last {
      equal := [prefix + NatToString(start)];
    }
    var rest: seq<string> := [];
    if start < last {
      var octet := start;
      while octet < last
        invariant start <= octet <= last
        invariant rest == Range(prefix, start, octet - start)
      {
        RangeSnoc(prefix, start, octet - start);
        rest := rest + [prefix + IntToString(octet)];
        octet := octet + 1;
      }
    } else {
      rest := [prefix + NatToString(start)];
    }
    return equal + rest;
  }

  /** The yield loop of the dash branch, once the plan is made. */
  method YieldDash(plan: Result<DashPlanned>) returns (r: Result<seq<string>>)
    ensures r == DashYield(plan)
  {
    if plan.Failure? {
      return Failure(plan.error);
    }
    var prefix, first, last := plan.value.prefix, plan.value.first, plan.value.last;
    if first < last {
      var out: seq<string> := [];
      var octet := first;
      while octet < last + 1
        invariant first <= octet <= last + 1
        invariant out == Range(prefix, first, octet - first)
      {
        RangeSnoc(prefix, first, octet - first);
        out := out + [prefix + IntToString(octet)];
        octet := octet + 1;
      }
      return Success(out);
    }
    return Success([prefix + plan.value.raw]);
  }

  /** getTarget: the generator, run to completion into a list. */
  method GetTarget(target: string) returns (r: Result<seq<string>>)
    ensures r == ExpandTarget(target)
  {
    if HasCidr(target) {
      r := YieldCidr(CidrPlan(target));
    } else if HasDash(target) {
      r := YieldDash(DashPlan(target));
    } else {
      r := Success([target]);
    }
  }

  // ---------------------------------------------------------------------
  // Properties of the expansion

  /** A target holding no address is yielded unchanged. */
  lemma ExpandNonAddress(target: string)
    requires !HasIPv4(target)
    ensures ExpandTarget(target) == Success([target])
  {
    RangeMatchIsIPv4(target, '/');
    RangeMatchIsIPv4(target, '-');
  }

  /** Four octets of one to three digits: the address `p[0].p[1].p[2].p[3]` is `Join(p, ".")`. */
  predicate IsQuad(p: seq<string>)
  {
    |p| == 4 && forall k | 0 <= k < 4 :: IsOctetText(p[k])
  }

  /** The first three octets, dotted: the text before the last dot of the address. */
  function Head(p: seq<string>): string
    requires |p| == 4
  {
    Join(p[..3], ".")
  }

  lemma JoinDot(p: seq<string>)
    requires |p| >= 2
    ensures Join(p, ".") == p[0] + "." + Join(p[1..], ".")
  {
  }

  /** A joined list followed by more text, split after its first piece. */
  lemma JoinAppend(p: seq<string>, y: string)
    requires |p| >= 2
    ensures Join(p, ".") + y == p[0] + "." + (Join(p[1..], ".") + y)
  {
  }

  /** The first three octets and their two dots. */
  lemma HeadLength(p: seq<string>)
    requires |p| == 4
    ensures |Head(p)| == |p[0]| + |p[1]| + |p[2]| + 2
  {
    var h := p[..3];
    assert h[1..] == [p[1], p[2]] && h[1..][1..] == [p[2]];
    JoinDot(h);
    JoinDot(h[1..]);
  }

  /** The dotted address followed by `y`, octet by octet. */
  lemma QuadSteps(p: seq<string>, y: string)
    requires IsQuad(p)
    ensures var r1, r2 := Join(p[1..], ".") + y, Join(p[2..], ".") + y;
      && OctetThen(Join(p, ".") + y, '.') == Some(|p[0]| + 1) && (Join(p, ".") + y)[|p[0]| + 1..] == r1
      && OctetThen(r1, '.') == Some(|p[1]| + 1) && r1[|p[1]| + 1..] == r2
      && OctetThen(r2, '.') == Some(|p[2]| + 1) && r2[|p[2]| + 1..] == p[3] + y
  {
    assert IsOctetText(p[0]) && IsOctetText(p[1]) && IsOctetText(p[2]);
    var p1, p2 := p[1..], p[2..];
    assert p1[1..] == p2 && p2[1..] == [p[3]];
    JoinAppend(p, y);
    JoinAppend(p1, y);
    JoinAppend(p2, y);
    OctetThenDot(p[0], Join(p1, ".") + y);
    OctetThenDot(p[1], Join(p2, ".") + y);
    OctetThenDot(p[2], p[3] + y);
  }

  /** The dotted address followed by `y`: three octets match, and the fourth octet and `y` follow. */
  lemma ThreeOctetsQuad(p: seq<string>, y: string)
    requires IsQuad(p)
    ensures ThreeOctets(Join(p, ".") + y).Some?
    ensures ThreeOctets(Join(p, ".") + y).value == |p[0]| + |p[1]| + |p[2]| + 3
    ensures (Join(p, ".") + y)[|p[0]| + |p[1]| + |p[2]| + 3..] == p[3] + y
  {
    var s, r1, r2 := Join(p, ".") + y, Join(p[1..], ".") + y, Join(p[2..], ".") + y;
    QuadSteps(p, y);
    ThreeOctetsChain(s, r1, r2, p[3] + y, |p[0]| + 1, |p[1]| + 1, |p[2]| + 1);
  }

  /** The pieces of a range match found one after the other. */
  lemma RangeStartChain(s: string, m: nat, x: string, sep: char, u: nat, tail: string)
    requires ThreeOctets(s).Some? && ThreeOctets(s).value == m && s[m..] == x
    requires OctetThen(x, sep) == Some(u) && x[u..] == tail && DigitRun(tail) >= 1
    ensures RangeStart(s, sep)
  {
    assert s[m..][u..] == s[m + u..];
  }

  /**
   * Text that `int()` reads as a number and that starts with a digit, as the
   * text after a range match's separator does.
   */
  predicate NumberText(x: string) { |x| > 0 && IsDigit(x[0]) && ParseInt(x).Success? }

  /** A character that `int()` refuses does not occur in a number's text. */
  lemma NumberTextFree(x: string, ch: char)
    requires NumberText(x) && !IsDigit(ch) && !IsSpace(ch) && ch != '+' && ch != '-'
    ensures ch !in x
  {
    forall k | 0 <= k < |x|
      ensures x[k] != ch
    {
      ParseIntChars(x, k);
    }
  }

  /** The range pattern matches at the start of an address, a separator and a number. */
  lemma RangeTextMatches(p: seq<string>, sep: char, tail: string)
    requires IsQuad(p) && !IsDigit(sep) && sep != '.'
    requires |tail| >= 1 && IsDigit(tail[0])
    ensures RangeStart(Join(p, ".") + [sep] + tail, sep)
  {
    assert IsOctetText(p[3]);
    var y := [sep] + tail;
    assert Join(p, ".") + [sep] + tail == Join(p, ".") + y;
    assert p[3] + y == p[3] + [sep] + tail;
    ThreeOctetsQuad(p, y);
    OctetThenAppend(p[3], sep, tail);
    RangeStartChain(Join(p, ".") + y, |p[0]| + |p[1]| + |p[2]| + 3, p[3] + y, sep, |p[3]| + 1, tail);
  }

  /** A digit string holds no non-digit. */
  lemma DigitsFree(x: string, ch: char)
    requires AllDigits(x) && !IsDigit(ch)
    ensures ch !in x
  {
    AllDigitsIndex(x);
  }

  /** A character other than a digit and a dot does not occur in an address. */
  lemma QuadFree(p: seq<string>, ch: char)
    requires IsQuad(p) && !IsDigit(ch) && ch != '.'
    ensures ch !in Join(p, ".")
    ensures ch !in p[3]
  {
    forall k | 0 <= k < |p|
      ensures ch !in p[k]
    {
      DigitsFree(p[k], ch);
    }
    JoinFree(p, ".", ch);
  }

  /** The address is its first three octets, a dot and the fourth. */
  lemma QuadHead(p: seq<string>)
    requires |p| == 4
    ensures Join(p, ".") == Head(p) + "." + p[3]
  {
    assert p[..3] + [p[3]] == p;
    JoinSnoc(p[..3], p[3]);
  }

  /** Joining one more piece adds a dot and the piece at the end. */
  lemma {:induction false} JoinSnoc(p: seq<string>, x: string)
    requires |p| >= 1
    ensures Join(p + [x], ".") == Join(p, ".") + "." + x
    decreases |p|
  {
    if |p| == 1 {
      assert (p + [x])[1..] == [x];
    } else {
      assert (p + [x])[1..] == p[1..] + [x];
      JoinSnoc(p[1..], x);
    }
  }

  /** Where getTarget's string operations land in an address, a separator and a number. */
  lemma RangeTextCuts(p: seq<string>, sep: char, tail: string)
    requires IsQuad(p) && !IsDigit(sep) && sep != '.' && '.' !in tail
    ensures var q := Join(p, ".");
      var s := q + [sep] + tail;
      && FirstIndex(s, sep) == Some(|q|)
      && s[..|q|] == q
      && s[|q| + 1..] == tail
      && LastIndex(s, '.') == Some(|Head(p)|)
      && s[..|Head(p)| + 1] == Head(p) + "."
  {
    var q := Join(p, ".");
    var x := p[3] + [sep] + tail;
    QuadFree(p, sep);
    FirstIndexAfterFree(q, sep, tail);
    QuadHead(p);
    assert q + [sep] + tail == Head(p) + "." + x;
    assert IsOctetText(p[3]);
    DigitsFree(p[3], '.');
    assert '.' !in x;
    LastIndexBeforeFree(Head(p), '.', x);
  }

  /** The octets of the address, as `split('.')` gives them. */
  lemma QuadSplit(p: seq<string>)
    requires IsQuad(p)
    ensures Split(Join(p, "."), '.') == p
  {
    forall k | 0 <= k < |p|
      ensures '.' !in p[k]
    {
      DigitsFree(p[k], '.');
    }
    SplitJoin(p, '.');
  }

  /** Which range pattern a well-formed range target matches. */
  lemma RangeTextKind(p: seq<string>, sep: char, tail: string)
    requires IsQuad(p) && (sep == '-' || sep == '/') && NumberText(tail)
    ensures sep == '/' ==> HasCidr(Join(p, ".") + [sep] + tail)
    ensures sep == '-' ==> HasDash(Join(p, ".") + [sep] + tail) && !HasCidr(Join(p, ".") + [sep] + tail)
  {
    var t := Join(p, ".") + [sep] + tail;
    RangeTextMatches(p, sep, tail);
    if sep == '-' {
      QuadFree(p, '/');
      NumberTextFree(tail, '/');
      assert '/' !in t;
    }
    RangeMatchNeedsSeparator(t, '/');
  }

  /** Where a range branch cuts `a.b.c.d` + separator + `tail`, and where its last dot is. */
  lemma RangeCutOf(p: seq<string>, sep: char, tail: string)
    requires IsQuad(p) && !IsDigit(sep) && sep != '.' && '.' !in tail
    ensures var t := Join(p, ".") + [sep] + tail;
      && RangeCut(t, sep) == Success((p[3], tail))
      && LastIndex(t, '.') == Some(|Head(p)|) && t[..|Head(p)| + 1] == Head(p) + "."
  {
    RangeTextCuts(p, sep, tail);
    QuadSplit(p);
  }

  /** getTarget's dash plan for `a.b.c.d-n`, where `int(d)` is `first` and `int(n)` is `last`. */
  lemma DashPlanOf(p: seq<string>, n: string, first: int, last: int)
    requires IsQuad(p) && ParseInt(p[3]) == Success(first)
    requires NumberText(n) && ParseInt(n) == Success(last)
    ensures DashPlan(Join(p, ".") + "-" + n) == Success(DashPlanned(Head(p) + ".", first, last, p[3]))
  {
    NumberTextFree(n, '.');
    RangeCutOf(p, '-', n);
  }

  /** getTarget's CIDR plan for `a.b.c.d/g`, where `int(d)` is `octet` and `int(g)` is `given`. */
  lemma CidrPlanOf(p: seq<string>, g: string, octet: int, given: int)
    requires IsQuad(p) && ParseInt(p[3]) == Success(octet)
    requires NumberText(g) && ParseInt(g) == Success(given)
    ensures octet > 255 ==> CidrPlan(Join(p, ".") + "/" + g) == Failure("ValueError")
    ensures 0 <= octet <= 255 ==>
      CidrPlan(Join(p, ".") + "/" + g) == Success(CidrPlanned(Head(p) + ".", octet, given))
  {
    NumberTextFree(g, '.');
    RangeCutOf(p, '/', g);
  }

  /** A target matching the dash pattern and not the CIDR pattern takes the dash branch. */
  lemma DashExpandsTo(t: string, prefix: string, first: int, last: int, raw: string)
    requires !HasCidr(t) && HasDash(t)
    requires DashPlan(t) == Success(DashPlanned(prefix, first, last, raw))
    ensures first < last ==> ExpandTarget(t) == Success(Range(prefix, first, last - first + 1))
    ensures first >= last ==> ExpandTarget(t) == Success([prefix + raw])
  {
    DashTargetYields(t);
    DashYieldOf(DashPlanned(prefix, first, last, raw));
  }

  lemma DashTargetYields(t: string)
    requires !HasCidr(t) && HasDash(t)
    ensures ExpandTarget(t) == DashYield(DashPlan(t))
  {
  }

  lemma DashYieldOf(plan: DashPlanned)
    ensures plan.first < plan.last ==>
      DashYield(Success(plan)) == Success(Range(plan.prefix, plan.first, plan.last - plan.first + 1))
    ensures plan.first >= plan.last ==> DashYield(Success(plan)) == Success([plan.prefix + plan.raw])
  {
  }

  /** Exclusive or of two values below a power of two stays below it. */
  lemma {:induction false} XorBound(a: nat, b: nat, n: nat)
    requires a < Pow2(n) && b < Pow2(n)
    ensures Xor(a, b) < Pow2(n)
    decreases n
  {
    if n > 0 && !(a == 0 && b == 0) {
      XorBound(a / 2, b / 2, n - 1);
    }
  }

  /** The last value of a CIDR expansion never passes 256. */
  lemma CidrLastBound(start: nat, end: nat)
    requires start < 256 && end <= 256
    ensures CidrLast(start, end) <= 256
  {
    if start > end {
      Pow2Small();
      XorBound(start, end, 8);
    }
  }

  /** `a` is `prefix` followed by a value from 0 to 255. */
  predicate OctetAfter(a: string, prefix: string)
  {
    exists o: nat | o < 256 :: a == prefix + NatToString(o)
  }

  /** At least one address, each `prefix` followed by a value from 0 to 255. */
  predicate OctetsUnder(r: seq<string>, prefix: string)
  {
    |r| > 0 && forall k | 0 <= k < |r| :: OctetAfter(r[k], prefix)
  }

  /** The addresses of a CIDR expansion: at least one, each a value below 256 after the prefix. */
  lemma CidrAddressesShape(prefix: string, start: nat, last: nat)
    requires start < 256 && last <= 256
    ensures OctetsUnder(CidrAddresses(prefix, start, last), prefix)
  {
    var eq := if start == last then [prefix + NatToString(start)] else [];
    var rest := if start < last then Range(prefix, start, last - start) else [prefix + NatToString(start)];
    var r := eq + rest;
    assert r == CidrAddresses(prefix, start, last);
    assert |rest| > 0;
    forall k | 0 <= k < |r|
      ensures OctetAfter(r[k], prefix)
    {
      if k < |eq| {
        assert r[k] == prefix + NatToString(start);
      } else if start < last {
        var j := k - |eq|;
        assert r[k] == rest[j] == prefix + IntToString(start + j);
        assert r[k] == prefix + NatToString(start + j);
      } else {
        assert r[k] == prefix + NatToString(start);
      }
    }
  }

  /**
   * A target matching the CIDR pattern, when it expands at all, yields at
   * least one address, each the text up to the target's last dot followed
   * by a value from 0 to 255, whether or not the target also holds a dash.
   */
  lemma CidrExpandsTo(t: string)
    requires HasCidr(t) && ExpandTarget(t).Success?
    ensures LastIndex(t, '.').Some?
    ensures OctetsUnder(ExpandTarget(t).value, t[..LastIndex(t, '.').value + 1])
  {
    var plan := CidrPlan(t).value;
    CidrLastBound(plan.start, CidrEnd(plan.given));
    CidrAddressesShape(plan.prefix, plan.start, CidrLast(plan.start, CidrEnd(plan.given)));
  }

  /** Where the as-written expansion succeeds it yields what the corrected one does. */
  lemma ExpandTargetAsWrittenAgrees(t: string)
    requires ExpandTargetAsWritten(t).Success?
    ensures ExpandTargetAsWritten(t) == ExpandTarget(t)
  {
    if HasCidr(t) {
      CidrYieldAgrees(CidrPlan(t));
    }
  }

  lemma CidrYieldAgrees(plan: Result<CidrPlanned>)
    requires CidrYieldAsWritten(plan).Success?
    ensures CidrYieldAsWritten(plan) == CidrYield(plan)
  {
    if plan.Success? {
      var g := plan.value.given;
      if g <= 24 {
        CidrEndAsWrittenRejectsWide(g);
      } else {
        CidrEndAgrees(g);
      }
    }
  }

  /** As written, a CIDR target of /24 or wider that gets as far as the range end raises ValueError. */
  lemma ExpandTargetAsWrittenRejectsWide(t: string)
    requires HasCidr(t) && CidrPlan(t).Success? && CidrPlan(t).value.given <= 24
    ensures ExpandTargetAsWritten(t) == Failure("ValueError")
    ensures ExpandTarget(t).Success?
  {
    Pow2Small();
  }

  /**
   * A dash range `a.b.c.d-n` with int(d) < int(n) yields the addresses
   * `a.b.c.` + str(k) for k from int(d) to int(n) in ascending order;
   * otherwise it yields the single address with the fourth octet as typed.
   * `n` may carry the whitespace `int()` skips.
   */
  lemma DashExpansion(p: seq<string>, n: string, first: int, last: int)
    requires IsQuad(p) && ParseInt(p[3]) == Success(first)
    requires NumberText(n) && ParseInt(n) == Success(last)
    ensures first < last ==>
      ExpandTarget(Join(p, ".") + "-" + n) == Success(Range(Head(p) + ".", first, last - first + 1))
    ensures first >= last ==> ExpandTarget(Join(p, ".") + "-" + n) == Success([Join(p, ".")])
  {
    var t := Join(p, ".") + "-" + n;
    RangeTextKind(p, '-', n);
    DashPlanOf(p, n, first, last);
    DashExpandsTo(t, Head(p) + ".", first, last, p[3]);
    QuadHead(p);
  }

  /**
   * A CIDR range `a.b.c.d/g` yields addresses under `a.b.c.` from the fourth
   * octet towards the range end for `g`; an octet above 255 raises. `g` may
   * carry the whitespace `int()` skips.
   */
  lemma CidrExpansion(p: seq<string>, g: string, octet: int, given: int)
    requires IsQuad(p) && ParseInt(p[3]) == Success(octet)
    requires NumberText(g) && ParseInt(g) == Success(given)
    ensures octet > 255 ==> ExpandTarget(Join(p, ".") + "/" + g) == Failure("ValueError")
    ensures 0 <= octet <= 255 ==>
      ExpandTarget(Join(p, ".") + "/" + g)
        == Success(CidrAddresses(Head(p) + ".", octet, CidrLast(octet, CidrEnd(given))))
  {
    RangeTextKind(p, '/', g);
    CidrPlanOf(p, g, octet, given);
  }

  /** Digits followed by whitespace are a number's text, read as the digits alone. */
  lemma PaddedNumber(d: string, b: string)
    requires |d| > 0 && AllDigits(d)
    requires forall k | 0 <= k < |b| :: IsSpace(b[k])
    ensures NumberText(d) && NumberText(d + b)
    ensures ParseInt(d + b) == ParseInt(d) == Success(DigitsValue(d))
  {
    AllDigitsIndex(d);
    ParseIntDigits(d);
    ParseIntPadded("", d, b);
    assert "" + d + b == d + b;
    assert (d + b)[0] == d[0];
  }

  /**
   * Whitespace after the prefix length of a CIDR range, which `int()`
   * skips, leaves the expansion unchanged: `10.0.0.0/30 ` yields what
   * `10.0.0.0/30` yields.
   */
  lemma CidrTrailingSpace(p: seq<string>, d: string, b: string)
    requires IsQuad(p) && |d| > 0 && AllDigits(d)
    requires forall k | 0 <= k < |b| :: IsSpace(b[k])
    ensures ExpandTarget(Join(p, ".") + "/" + (d + b)) == ExpandTarget(Join(p, ".") + "/" + d)
  {
    PaddedNumber(d, b);
    AllDigitsIndex(p[3]);
    assert IsOctetText(p[3]);
    ParseIntDigits(p[3]);
    var octet := DigitsValue(p[3]);
    CidrExpansion(p, d + b, octet, DigitsValue(d));
    CidrExpansion(p, d, octet, DigitsValue(d));
  }

  /**
   * Whitespace after the last octet of a dash range leaves the expansion
   * unchanged: `10.0.0.1-5 ` yields what `10.0.0.1-5` yields.
   */
  lemma DashTrailingSpace(p: seq<string>, d: string, b: string)
    requires IsQuad(p) && |d| > 0 && AllDigits(d)
    requires forall k | 0 <= k < |b| :: IsSpace(b[k])
    ensures ExpandTarget(Join(p, ".") + "-" + (d + b)) == ExpandTarget(Join(p, ".") + "-" + d)
  {
    PaddedNumber(d, b);
    assert IsOctetText(p[3]);
    ParseIntDigits(p[3]);
    var first := DigitsValue(p[3]);
    var padded, plain := Join(p, ".") + "-" + (d + b), Join(p, ".") + "-" + d;
    RangeTextKind(p, '-', d + b);
    RangeTextKind(p, '-', d);
    DashPlanOf(p, d + b, first, DigitsValue(d));
    DashPlanOf(p, d, first, DigitsValue(d));
    DashTargetYields(padded);
    DashTargetYields(plain);
  }

  /** A /31 range yields its own address twice, whatever the octet (XOR with 0 keeps it). */
  lemma CidrSlash31Twice(prefix: string, octet: nat)
    requires octet < 256
    ensures CidrAddresses(prefix, octet, CidrLast(octet, CidrEnd(31)))
      == [prefix + NatToString(octet), prefix + NatToString(octet)]
  {
    XorZero(octet);
  }

  /** With the corrected end, a /24 or wider range yields the octet up to 255. */
  lemma CidrWideCoversRest(prefix: string, octet: nat, given: int)
    requires octet < 256 && given <= 24
    ensures CidrAddresses(prefix, octet, CidrLast(octet, CidrEnd(given))) == Range(prefix, octet, 256 - octet)
  {
  }

  /**
   * A /32 range has end 1. An octet from 2 to 255 is above the end, so the
   * last value is the octet XOR 1, which differs from the octet: exactly one
   * address, the octet itself, is yielded.
   */
  lemma CidrSlash32(prefix: string, octet: nat)
    requires 1 < octet < 256
    ensures CidrAddresses(prefix, octet, CidrLast(octet, CidrEnd(32))) == [prefix + NatToString(octet)]
  {
    XorOne(octet);
    assert CidrEnd(32) == 1;
    if octet % 2 == 0 {
      assert Range(prefix, octet, 1)[0] == prefix + IntToString(octet);
    }
  }
}
