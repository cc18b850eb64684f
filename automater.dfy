/**
 * Automater.GetResults: the programmatic entry point. It refangs every
 * target, expands address ranges, runs the site automation over the targets
 * and returns one row per result, site by site in target order, dropping a
 * result that repeats the one before it.
 */
module AutomaterClass {
  import opened Common
  import opened Utilities
  import opened SiteInfo
  import opened Flatten

  // ---------------------------------------------------------------------
  // Refanging

  /** `[.]`, `{.}` and `(.)`, the three ways a defanged target writes a dot, each become a dot. */
  function Refang(t: string): string
  {
    ReplaceAll(ReplaceAll(ReplaceAll(t, "[.]", "."), "{.}", "."), "(.)", ".")
  }

  /** A target with no bracket of any kind is left as it is. */
  lemma RefangClean(t: string)
    requires '[' !in t && '{' !in t && '(' !in t
    ensures Refang(t) == t
  {
    FreeHasNoOccurrence(t, "[.]");
    ReplaceAbsent(t, "[.]", ".");
    FreeHasNoOccurrence(t, "{.}");
    ReplaceAbsent(t, "{.}", ".");
    FreeHasNoOccurrence(t, "(.)");
    ReplaceAbsent(t, "(.)", ".");
  }

  /**
   * Refanging undoes defanging: labels without brackets, joined by any one
   * of the three defanged dots, come back joined by plain dots.
   */
  lemma RefangJoin(labels: seq<string>, dot: string)
    requires dot == "[.]" || dot == "{.}" || dot == "(.)"
    requires forall k | 0 <= k < |labels| :: '[' !in labels[k] && '{' !in labels[k] && '(' !in labels[k]
    ensures Refang(Join(labels, dot)) == Join(labels, ".")
  {
    var plain := Join(labels, ".");
    JoinFree(labels, ".", '[');
    JoinFree(labels, ".", '{');
    JoinFree(labels, ".", '(');
    var s := Join(labels, dot);
    if dot == "[.]" {
      ReplaceJoin(labels, dot, ".");
      RefangClean(plain);
      FreeHasNoOccurrence(plain, "{.}");
      ReplaceAbsent(plain, "{.}", ".");
      FreeHasNoOccurrence(plain, "(.)");
      ReplaceAbsent(plain, "(.)", ".");
    } else if dot == "{.}" {
      JoinFree(labels, dot, '[');
      FreeHasNoOccurrence(s, "[.]");
      ReplaceAbsent(s, "[.]", ".");
      ReplaceJoin(labels, dot, ".");
      FreeHasNoOccurrence(plain, "(.)");
      ReplaceAbsent(plain, "(.)", ".");
    } else {
      JoinFree(labels, dot, '[');
      JoinFree(labels, dot, '{');
      FreeHasNoOccurrence(s, "[.]");
      ReplaceAbsent(s, "[.]", ".");
      FreeHasNoOccurrence(s, "{.}");
      ReplaceAbsent(s, "{.}", ".");
      ReplaceJoin(labels, dot, ".");
    }
  }

  // ---------------------------------------------------------------------
  // The target list

  /** One target: refanged, then expanded when it is an address or range, kept otherwise. */
  function Expansion(t: string): Result<seq<string>>
  {
    var tgt := Refang(t);
    if IsIPorIPList(tgt) then ExpandTarget(tgt) else Success([tgt])
  }

  /** The expansion of every target in turn; the first target whose expansion raises ends it. */
  function ExpandAll(targets: seq<string>, expand: string -> Result<seq<string>>): Result<seq<string>>
  {
    if |targets| == 0 then Success([])
    else
      var n := |targets| - 1;
      match ExpandAll(targets[..n], expand)
      case Failure(e) => Failure(e)
      case Success(prev) =>
        match expand(targets[n])
        case Failure(e) => Failure(e)
        case Success(more) => Success(prev + more)
  }

  function TargetList(targets: seq<string>): Result<seq<string>>
  {
    ExpandAll(targets, Expansion)
  }

  /**
   * The guard decides nothing: whether it is the always-true guard as
   * written or the intended "holds an address" test, a target that is not
   * expanded would have expanded to itself.
   */
  lemma ExpansionIgnoresGuard(t: string)
    ensures Expansion(t) == ExpandTarget(Refang(t))
    ensures (if IsIPorIPListAsWritten(Refang(t)) then ExpandTarget(Refang(t)) else Success([Refang(t)])) == Expansion(t)
  {
    var tgt := Refang(t);
    IsIPorIPListIffIPv4(tgt);
    IsIPorIPListAsWrittenAlwaysTrue(tgt);
    if !HasIPv4(tgt) {
      ExpandNonAddress(tgt);
    }
  }

  /** A list whose targets each expand to themselves comes back unchanged. */
  lemma {:induction false} ExpandAllFixed(targets: seq<string>, expand: string -> Result<seq<string>>)
    requires forall k | 0 <= k < |targets| :: expand(targets[k]) == Success([targets[k]])
    ensures ExpandAll(targets, expand) == Success(targets)
  {
    if |targets| > 0 {
      var n := |targets| - 1;
      var init := targets[..n];
      ExpandAllFixed(init, expand);
      var last := targets[n];
      assert expand(last) == Success([last]);
      assert ExpandAll(targets, expand) == Success(init + [last]);
      assert init + [last] == targets;
    }
  }

  /** Once one target raises, the whole list raises. */
  lemma {:induction false} ExpandAllStops(targets: seq<string>, expand: string -> Result<seq<string>>, k: nat)
    requires k < |targets| && expand(targets[k]).Failure?
    ensures ExpandAll(targets, expand).Failure?
    decreases |targets|
  {
    var n := |targets| - 1;
    if k < n {
      assert targets[..n][k] == targets[k];
      ExpandAllStops(targets[..n], expand, k);
    }
  }

  ghost predicate AgreesWithExpansion(expand: string -> Result<seq<string>>)
  {
    forall t {:trigger Expansion(t)} :: expand(t) == Expansion(t)
  }

  /** The body of the first loop for one target. */
  method ExpandOne(t: string, ghost expand: string -> Result<seq<string>>) returns (r: Result<seq<string>>)
    requires AgreesWithExpansion(expand)
    ensures r == expand(t)
  {
    assert expand(t) == Expansion(t);
    var tgt := ReplaceAll(ReplaceAll(ReplaceAll(t, "[.]", "."), "{.}", "."), "(.)", ".");
    if IsIPorIPList(tgt) {
      r := GetTarget(tgt);
    } else {
      r := Success([tgt]);
    }
  }

  /** The first loop of GetResults: the list of refanged, expanded targets. */
  method ExpandTargets(targets: seq<string>) returns (r: Result<seq<string>>)
    ensures r == TargetList(targets)
  {
    assert AgreesWithExpansion(Expansion);
    r := ExpandTargetsWith(targets, Expansion);
  }

  method ExpandTargetsWith(targets: seq<string>, ghost expand: string -> Result<seq<string>>) returns (r: Result<seq<string>>)
    requires AgreesWithExpansion(expand)
    ensures r == ExpandAll(targets, expand)
  {
    var targetlist := [];
    var i := 0;
    while i < |targets|
      invariant 0 <= i <= |targets|
      invariant ExpandAll(targets[..i], expand) == Success(targetlist)
    {
      assert targets[..i + 1][..i] == targets[..i];
      var more := ExpandOne(targets[i], expand);
      if more.Failure? {
        assert ExpandAll(targets[..i + 1], expand) == Failure(more.error);
        ExpandAllStops(targets, expand, i);
        ExpandAllPrefixFails(targets, expand, i + 1);
        return Failure(more.error);
      }
      targetlist := targetlist + more.value;
      i := i + 1;
    }
    assert targets[..i] == targets;
    r := Success(targetlist);
  }

  /** A failing prefix makes the whole list fail with the same error. */
  lemma {:induction false} ExpandAllPrefixFails(targets: seq<string>, expand: string -> Result<seq<string>>, m: nat)
    requires m <= |targets| && ExpandAll(targets[..m], expand).Failure?
    ensures ExpandAll(targets, expand) == ExpandAll(targets[..m], expand)
    decreases |targets| - m
  {
    if m < |targets| {
      assert targets[..m + 1][..m] == targets[..m];
      ExpandAllPrefixFails(targets, expand, m + 1);
    } else {
      assert targets[..m] == targets;
    }
  }

  // ---------------------------------------------------------------------
  // Result rows

  /** One entry of the returned list: target, type, source and the result as found. */
  datatype Row = Row(target: string, targetType: string, source: string, result: Match)

  function ResultLines(u: Unit, ms: seq<Match>): (rows: seq<Row>)
    ensures |rows| == |ms|
  {
    seq(|ms|, k requires 0 <= k < |ms| => Row(u.target, u.targetType, u.source, ms[k]))
  }

  /** A unit's rows: the text, or every result not repeating the one before; nothing for an empty unit. */
  function ResultUnitRows(u: Unit): seq<Row>
  {
    match u.body
    case OneText(s) => [Row(u.target, u.targetType, u.source, Str(s))]
    case Matches(items) => ResultLines(u, Collapse(items, RowKey(u, u.source)))
    case _ => []
  }

  function ResultRows(recs: seq<SiteRecord>): seq<Row>
  {
    FlatMap(AllUnits(recs), ResultUnitRows)
  }

  /**
   * What GetResults returns, with the site automation given as a parameter
   * applied to the targets as the caller passed them.
   */
  function Results(targets: seq<string>, automation: seq<string> -> Option<seq<SiteEntry>>): Result<seq<Row>>
  {
    match TargetList(targets)
    case Failure(e) => Failure(e)
    case Success(_) =>
      match SortedSites(automation(targets))
      case Failure(e) => Failure(e)
      case Success(recs) => Success(ResultRows(recs))
  }

  /** One target as written: the guard that always holds, then getTarget with the bytearray range end. */
  function ExpansionAsWritten(t: string): Result<seq<string>>
  {
    var tgt := Refang(t);
    if IsIPorIPListAsWritten(tgt) then ExpandTargetAsWritten(tgt) else Success([tgt])
  }

  function TargetListAsWritten(targets: seq<string>): Result<seq<string>>
  {
    ExpandAll(targets, ExpansionAsWritten)
  }

  /** Where one target's as-written expansion succeeds it is the corrected one. */
  lemma ExpansionAsWrittenAgrees(t: string)
    requires ExpansionAsWritten(t).Success?
    ensures ExpansionAsWritten(t) == Expansion(t)
  {
    IsIPorIPListAsWrittenAlwaysTrue(Refang(t));
    ExpandTargetAsWrittenAgrees(Refang(t));
    ExpansionIgnoresGuard(t);
  }

  /** Expansions that agree wherever the first succeeds give lists that agree wherever the first succeeds. */
  lemma {:induction false} ExpandAllAgrees(targets: seq<string>, f: string -> Result<seq<string>>, g: string -> Result<seq<string>>)
    requires forall t :: f(t).Success? ==> f(t) == g(t)
    requires ExpandAll(targets, f).Success?
    ensures ExpandAll(targets, f) == ExpandAll(targets, g)
    decreases |targets|
  {
    if |targets| > 0 {
      var n := |targets| - 1;
      ExpandAllAgrees(targets[..n], f, g);
    }
  }

  /** Where the as-written target list is built it is the corrected one. */
  lemma TargetListAsWrittenAgrees(targets: seq<string>)
    requires TargetListAsWritten(targets).Success?
    ensures TargetListAsWritten(targets) == TargetList(targets)
  {
    forall t | ExpansionAsWritten(t).Success?
      ensures ExpansionAsWritten(t) == Expansion(t)
    {
      ExpansionAsWrittenAgrees(t);
    }
    ExpandAllAgrees(targets, ExpansionAsWritten, Expansion);
  }

  /**
   * GetResults as written: the targets are expanded by the as-written
   * getTarget, and then SiteFacade's constructor, which takes no argument,
   * is called with the verbosity flag and raises TypeError.
   */
  function ResultsAsWritten(targets: seq<string>): Result<seq<Row>>
  {
    match TargetListAsWritten(targets)
    case Failure(e) => Failure(e)
    case Success(_) => Failure("TypeError")
  }

  /**
   * As written no target list ever yields rows: an expansion error comes
   * first, and a list that expands, which the corrected expansion expands
   * the same way, meets the TypeError.
   */
  lemma ResultsAsWrittenNeverSucceed(targets: seq<string>)
    ensures ResultsAsWritten(targets).Failure?
    ensures TargetListAsWritten(targets).Success? ==>
      TargetList(targets) == TargetListAsWritten(targets) && ResultsAsWritten(targets) == Failure("TypeError")
  {
    if TargetListAsWritten(targets).Success? {
      TargetListAsWrittenAgrees(targets);
    }
  }

  /**
   * A /24 or wider CIDR target raises ValueError before the facade is
   * reached, while the corrected expansion gets past it.
   */
  lemma ResultsAsWrittenWideCidr(t: string)
    requires HasCidr(Refang(t)) && CidrPlan(Refang(t)).Success? && CidrPlan(Refang(t)).value.given <= 24
    ensures ResultsAsWritten([t]) == Failure("ValueError")
    ensures TargetList([t]).Success?
  {
    var tgt := Refang(t);
    ExpandTargetAsWrittenRejectsWide(tgt);
    IsIPorIPListAsWrittenAlwaysTrue(tgt);
    assert ExpansionAsWritten(t) == Failure("ValueError");
    ExpansionIgnoresGuard(t);
    ExpandAllSingle(t, ExpansionAsWritten);
    ExpandAllSingle(t, Expansion);
  }

  /** A list of one target expands as that target does. */
  lemma ExpandAllSingle(t: string, expand: string -> Result<seq<string>>)
    ensures ExpandAll([t], expand) == expand(t)
  {
    assert [t][..0] == [];
    if expand(t).Success? {
      assert [] + expand(t).value == expand(t).value;
    }
  }

  ghost predicate AgreesWithResultRows(rowsOf: Unit -> seq<Row>)
  {
    forall u {:trigger ResultUnitRows(u)} :: rowsOf(u) == ResultUnitRows(u)
  }

  method ResultUnit(u: Unit, ghost rowsOf: Unit -> seq<Row>) returns (rows: seq<Row>)
    requires AgreesWithResultRows(rowsOf)
    ensures rows == rowsOf(u)
  {
    assert rowsOf(u) == ResultUnitRows(u);
    match u.body
    case OneText(s) =>
      rows := [Row(u.target, u.targetType, u.source, Str(s))];
    case Matches(items) =>
      var kept := KeepChanged(items, RowKey(u, u.source));
      rows := ResultLines(u, kept);
    case _ =>
      rows := [];
  }

  /** The second loop of GetResults: over the sorted sites, then over their patterns. */
  method CollectRows(recs: seq<SiteRecord>) returns (rows: seq<Row>)
    ensures rows == ResultRows(recs)
  {
    UnitsAgree();
    assert AgreesWithResultRows(ResultUnitRows);
    rows := CollectRowsWith(recs, Units, ResultUnitRows);
  }

  method CollectRowsWith(recs: seq<SiteRecord>, ghost unitsOf: SiteRecord -> seq<Unit>, ghost rowsOf: Unit -> seq<Row>)
    returns (rows: seq<Row>)
    requires AgreesWithUnits(unitsOf) && AgreesWithResultRows(rowsOf)
    ensures rows == FlatMap(FlatMap(recs, unitsOf), rowsOf)
  {
    rows := [];
    var i := 0;
    while i < |recs|
      invariant 0 <= i <= |recs|
      invariant rows == FlatMap(FlatMap(recs[..i], unitsOf), rowsOf)
    {
      var units := SiteUnits(recs[i], unitsOf);
      var j := 0;
      while j < |units|
        invariant 0 <= j <= |units|
        invariant rows == FlatMap(FlatMap(recs[..i], unitsOf), rowsOf) + FlatMap(units[..j], rowsOf)
      {
        var more := ResultUnit(units[j], rowsOf);
        FlatMapStep(units, j, rowsOf);
        rows := rows + more;
        j := j + 1;
      }
      assert units[..j] == units;
      FlatMapStep(recs, i, unitsOf);
      FlatMapAppend(FlatMap(recs[..i], unitsOf), units, rowsOf);
      i := i + 1;
    }
    assert recs[..i] == recs;
  }

  /** GetResults, with the site automation as a parameter. */
  method GetResults(targets: seq<string>, automation: seq<string> -> Option<seq<SiteEntry>>) returns (r: Result<seq<Row>>)
    requires Readable(automation(targets))
    ensures r == Results(targets, automation)
  {
    var targetlist := ExpandTargets(targets);
    if targetlist.Failure? {
      return Failure(targetlist.error);
    }
    var sites := SortedSites(automation(targets));
    if sites.Failure? {
      return Failure(sites.error);
    }
    var rows := CollectRows(sites.value);
    r := Success(rows);
  }

  // ---------------------------------------------------------------------
  // Properties of the rows

  function RowTargetOf(row: Row): string { row.target }

  /** The rows come out grouped by target, in ascending target order. */
  lemma ResultsAscending(targets: seq<string>, automation: seq<string> -> Option<seq<SiteEntry>>)
    requires Results(targets, automation).Success?
    ensures Ascending(Results(targets, automation).value, RowTargetOf)
  {
    var recs := SortedSites(automation(targets)).value;
    SortedSitesFacts(automation(targets));
    AllUnitsAscending(recs);
    forall u, row | row in ResultUnitRows(u)
      ensures RowTargetOf(row) == UnitTarget(u)
    {
      if u.body.Matches? {
        var rows := ResultUnitRows(u);
        var k :| 0 <= k < |rows| && rows[k] == row;
      }
    }
    FlatMapAscending(AllUnits(recs), ResultUnitRows, UnitTarget, RowTargetOf);
  }

  /** GetResults raises exactly when the target list or the site list does. */
  lemma ResultsFail(targets: seq<string>, automation: seq<string> -> Option<seq<SiteEntry>>)
    ensures Results(targets, automation).Failure? <==>
      TargetList(targets).Failure? || automation(targets).None? || !AllBuilt(automation(targets).value)
  {
  }

  function Cells(row: Row): seq<string>
  {
    [row.target, row.targetType, row.source, Show(row.result)]
  }

  /**
   * The CSV file and GetResults agree: a unit with something to report has
   * exactly the returned rows, printed, and an empty unit has the sentinel
   * row that GetResults leaves out.
   */
  lemma CsvMatchesResults(u: Unit)
    ensures CsvUnitRows(u) ==
      if u.body.OneText? || u.body.Matches? then seq(|ResultUnitRows(u)|, k requires 0 <= k < |ResultUnitRows(u)| => Cells(ResultUnitRows(u)[k]))
      else [[u.target, u.targetType, u.source, NoResultsFound]]
  {
  }
}
