/**
 * The command-line output class: the lines printed to the screen and the
 * table rows of the HTML file, site after site in target order. The CSV
 * file it writes is Flatten.CsvFile.
 */
module Outputs {
  import opened Common
  import opened SiteInfo
  import opened Flatten

  // ---------------------------------------------------------------------
  // HTML table rows

  /** The cells of each table row of a unit: every result, with no repeat suppressed. */
  function HtmlCells(u: Unit): seq<seq<string>>
  {
    match u.body
    case OneText(s) => [[u.target, u.targetType, u.source, s]]
    case Matches(items) => CsvLines(u, items)
    case _ => [[u.target, u.targetType, u.source, NoResultsFound]]
  }

  function Td(cells: seq<string>): string
  {
    if |cells| == 0 then "" else "<td>" + cells[0] + "</td>" + Td(cells[1..])
  }

  /** `'<tr><td>' + tgt + '</td><td>' + ... + '</td></tr>'`. */
  function TableData(cells: seq<string>): string
  {
    "<tr>" + Td(cells) + "</tr>"
  }

  function HtmlUnitRows(u: Unit): seq<string>
  {
    Map(HtmlCells(u), TableData)
  }

  function HtmlRows(recs: seq<SiteRecord>): seq<string>
  {
    FlatMap(AllUnits(recs), HtmlUnitRows)
  }

  /** The table rows of the HTML file (between its fixed opening and closing). */
  function HtmlFile(sites: Option<seq<SiteEntry>>): Result<seq<string>>
  {
    match SortedSites(ListOfSites(sites))
    case Failure(e) => Failure(e)
    case Success(recs) => Success(HtmlRows(recs))
  }

  /** The compared key of a CSV row: its four cells run together. */
  function CellsKey(cells: seq<string>): string
  {
    if |cells| == 4 then cells[0] + cells[1] + cells[2] + cells[3] else ""
  }

  /**
   * The HTML file has one row per result, and the CSV file is the HTML
   * table with consecutive repeats dropped.
   */
  lemma CsvIsHtmlDeduplicated(u: Unit)
    requires u.body.OneText? ==> u.body.text != ""
    ensures u.body.Matches? ==> |HtmlUnitRows(u)| == |u.body.items|
    ensures !u.body.Matches? ==> |HtmlUnitRows(u)| == 1
    ensures Collapse(HtmlCells(u), CellsKey) == CsvUnitRows(u)
  {
    var cells := HtmlCells(u);
    if u.body.Matches? {
      var items := u.body.items;
      var line := (m: Match) => [u.target, u.targetType, u.source, Show(m)];
      assert CsvLines(u, items) == Map(items, line);
      var kept := Collapse(items, RowKey(u, u.source));
      assert CsvLines(u, kept) == Map(kept, line);
      CollapseMap(items, line, RowKey(u, u.source), CellsKey);
    } else {
      assert cells[..0] == [];
      assert Kept(cells, CellsKey, 0);
      assert Collapse(cells, CellsKey) == cells;
    }
  }

  ghost predicate AgreesWithHtml(rowsOf: Unit -> seq<string>)
  {
    forall u {:trigger HtmlUnitRows(u)} :: rowsOf(u) == HtmlUnitRows(u)
  }

  /** The rows written for one unit: one per result, or one for the text or the sentinel. */
  method WriteHtmlUnit(u: Unit, ghost rowsOf: Unit -> seq<string>) returns (rows: seq<string>)
    requires AgreesWithHtml(rowsOf)
    ensures rows == rowsOf(u)
  {
    assert rowsOf(u) == HtmlUnitRows(u);
    match u.body {
      case OneText(s) =>
        rows := [TableData([u.target, u.targetType, u.source, s])];
      case Matches(items) =>
        rows := [];
        var k := 0;
        while k < |items|
          invariant 0 <= k <= |items|
          invariant rows == Map(CsvLines(u, items)[..k], TableData)
        {
          assert CsvLines(u, items)[..k + 1] == CsvLines(u, items)[..k] + [[u.target, u.targetType, u.source, Show(items[k])]];
          rows := rows + [TableData([u.target, u.targetType, u.source, Show(items[k])])];
          k := k + 1;
        }
        assert CsvLines(u, items)[..k] == CsvLines(u, items);
      case _ =>
        rows := [TableData([u.target, u.targetType, u.source, NoResultsFound])];
    }
  }

  method WriteHtmlWith(recs: seq<SiteRecord>, ghost unitsOf: SiteRecord -> seq<Unit>, ghost rowsOf: Unit -> seq<string>)
    returns (rows: seq<string>)
    requires AgreesWithUnits(unitsOf) && AgreesWithHtml(rowsOf)
    ensures rows == FlatMap(FlatMap(recs, unitsOf), rowsOf)
  {
    rows := [];
    var i := 0;
    while i < |recs|
      invariant 0 <= i <= |recs|
      invariant rows == FlatMap(FlatMap(recs[..i], unitsOf), rowsOf)
    {
      var units := SiteUnits(recs[i], unitsOf);
      var j := 0;
      while j < |units|
        invariant 0 <= j <= |units|
        invariant rows == FlatMap(FlatMap(recs[..i], unitsOf), rowsOf) + FlatMap(units[..j], rowsOf)
      {
        var more := WriteHtmlUnit(units[j], rowsOf);
        FlatMapStep(units, j, rowsOf);
        rows := rows + more;
        j := j + 1;
      }
      assert units[..j] == units;
      FlatMapStep(recs, i, unitsOf);
      FlatMapAppend(FlatMap(recs[..i], unitsOf), units, rowsOf);
      i := i + 1;
    }
    assert recs[..i] == recs;
  }

  /** PrintToHTMLFile: the table rows, site after site. */
  method PrintToHTMLFile(sites: Option<seq<SiteEntry>>) returns (r: Result<seq<string>>)
    requires Readable(ListOfSites(sites))
    ensures r == HtmlFile(sites)
  {
    var sorted := SortedSites(ListOfSites(sites));
    if sorted.Failure? {
      return Failure(sorted.error);
    }
    UnitsAgree();
    assert AgreesWithHtml(HtmlUnitRows);
    var rows := WriteHtmlWith(sorted.value, Units, HtmlUnitRows);
    r := Success(rows);
  }

  // ---------------------------------------------------------------------
  // Screen lines

  /** Printed results are defanged: `www.` becomes `www[.]`, then `http` becomes `hxxp`. */
  function Defang(s: string): string
  {
    ReplaceAll(ReplaceAll(s, "www.", "www[.]"), "http", "hxxp")
  }

  /** No printed result contains `http`, so no printed link is live. */
  lemma DefangLeavesNoHttp(s: string)
    ensures !Occurs(Defang(s), "http")
  {
    var pat := "http";
    var rep := "hxxp";
    assert rep[1] != pat[1];
    assert pat[1..] == "ttp" && rep[1..] == "xxp";
    ReplaceLeavesNone(ReplaceAll(s, "www.", "www[.]"), pat, rep);
  }

  /** A text with no `w` and no `h` is printed as it is. */
  lemma DefangClean(s: string)
    requires 'w' !in s && 'h' !in s
    ensures Defang(s) == s
  {
    FreeHasNoOccurrence(s, "www.");
    ReplaceAbsent(s, "www.", "www[.]");
    FreeHasNoOccurrence(s, "http");
    ReplaceAbsent(s, "http", "hxxp");
  }

  /** The banner printed before the first unit of a new target. */
  function Header(target: string): string
  {
    "\n____________________     Results found for: " + target + "     ____________________"
  }

  /** The line for one result of a unit: its report string, a space, the defanged result. */
  function ResultLine(report: string, m: Match): string
  {
    report + " " + Defang(Show(m))
  }

  /** The lines printed for a unit, after any banner. */
  function ScreenBody(u: Unit): seq<string>
  {
    match u.body
    case NoProperty => ["No results in the " + u.source + " category"]
    case NoSlot => [u.report + " No results found"]
    case NoResults => ["No results found in the " + u.source]
    case OneText(s) => [u.report + " " + Defang(s)]
    case Matches(items) => Map(Collapse(items, Key(u.report + " ")), (m: Match) => ResultLine(u.report, m))
  }

  /** A banner precedes unit `k` when its target differs from the one before (from "" for the first). */
  predicate HeaderAt(units: seq<Unit>, k: nat)
    requires k < |units|
  {
    units[k].target != if k == 0 then "" else units[k - 1].target
  }

  /** The lines for a list of units: for each, a banner if its target changes, then its body. */
  function ScreenLinesOf(units: seq<Unit>, body: Unit -> seq<string>): seq<string>
  {
    if |units| == 0 then []
    else
      var n := |units| - 1;
      ScreenLinesOf(units[..n], body)
      + (if HeaderAt(units, n) then [Header(units[n].target)] else [])
      + body(units[n])
  }

  function ScreenLines(recs: seq<SiteRecord>): seq<string>
  {
    ScreenLinesOf(AllUnits(recs), ScreenBody)
  }

  function ScreenOutput(sites: Option<seq<SiteEntry>>): Result<seq<string>>
  {
    match SortedSites(ListOfSites(sites))
    case Failure(e) => Failure(e)
    case Success(recs) => Success(ScreenLines(recs))
  }

  /** Once units come in target order, no target is announced twice. */
  lemma HeadersDistinct(units: seq<Unit>, i: nat, j: nat)
    requires Ascending(units, UnitTarget) && i < j < |units| && HeaderAt(units, j)
    ensures units[i].target != units[j].target
  {
    if i < j - 1 {
      assert StrLe(UnitTarget(units[i]), UnitTarget(units[j - 1]));
      assert StrLe(UnitTarget(units[j - 1]), UnitTarget(units[j]));
      if units[i].target == units[j].target {
        StrLeAntisym(units[j - 1].target, units[j].target);
      }
    }
  }

  /** Every unit with a non-empty target is announced at or before it. */
  lemma {:induction false} HeaderCovers(units: seq<Unit>, k: nat)
    requires k < |units| && units[k].target != ""
    ensures exists i | 0 <= i <= k :: HeaderAt(units, i) && units[i].target == units[k].target
  {
    if !HeaderAt(units, k) {
      HeaderCovers(units, k - 1);
    }
  }

  /**
   * On the screen every non-empty target of the sorted sites is announced
   * by exactly one banner, before its first line.
   */
  lemma ScreenHeadersOnce(recs: seq<SiteRecord>, k: nat)
    requires SortedByTarget(recs)
    requires k < |AllUnits(recs)| && AllUnits(recs)[k].target != ""
    ensures var units := AllUnits(recs);
      exists i | 0 <= i <= k ::
        (HeaderAt(units, i) && units[i].target == units[k].target
         && forall j | i < j < |units| && HeaderAt(units, j) :: units[j].target != units[k].target)
  {
    var units := AllUnits(recs);
    AllUnitsAscending(recs);
    HeaderCovers(units, k);
    var i :| 0 <= i <= k && HeaderAt(units, i) && units[i].target == units[k].target;
    forall j | i < j < |units| && HeaderAt(units, j)
      ensures units[j].target != units[k].target
    {
      HeadersDistinct(units, i, j);
    }
  }

  /**
   * The screen and the CSV file list the same results of a unit, unless
   * its first result prints as the empty string (the screen compares it
   * behind the report string, the CSV file behind target, type and source).
   */
  lemma ScreenAgreesWithCsv(u: Unit)
    requires u.body.Matches?
    requires |u.body.items| == 0 || Show(u.body.items[0]) != "" || u.target + u.targetType + u.source != ""
    ensures ScreenBody(u) == Map(CsvUnitRows(u), (row: seq<string>) => u.report + " " + Defang(RowResult(row)))
  {
    var items := u.body.items;
    CollapseSamePrefix(items, u.report + " ", u.target + u.targetType + u.source);
    var kept := Collapse(items, RowKey(u, u.source));
    assert Collapse(items, Key(u.report + " ")) == kept;
  }

  function RowResult(row: seq<string>): string
  {
    if |row| == 4 then row[3] else ""
  }

  ghost predicate AgreesWithScreen(bodyOf: Unit -> seq<string>)
  {
    forall u {:trigger ScreenBody(u)} :: bodyOf(u) == ScreenBody(u)
  }

  /** The lines printed for one unit after any banner, with its own laststring loop. */
  method PrintUnit(u: Unit, ghost bodyOf: Unit -> seq<string>) returns (lines: seq<string>)
    requires AgreesWithScreen(bodyOf)
    ensures lines == bodyOf(u)
  {
    assert bodyOf(u) == ScreenBody(u);
    match u.body {
      case NoProperty =>
        lines := ["No results in the " + u.source + " category"];
      case NoSlot =>
        lines := [u.report + " No results found"];
      case NoResults =>
        lines := ["No results found in the " + u.source];
      case OneText(s) =>
        lines := [u.report + " " + Defang(s)];
      case Matches(items) =>
        var kept := KeepChanged(items, Key(u.report + " "));
        lines := Map(kept, (m: Match) => ResultLine(u.report, m));
    }
  }

  function LastTarget(units: seq<Unit>): string
  {
    if |units| == 0 then "" else units[|units| - 1].target
  }

  /** Printing one more unit: a banner if its target differs from the last one printed, then its body. */
  lemma ScreenSnoc(prefix: seq<Unit>, u: Unit, body: Unit -> seq<string>)
    ensures ScreenLinesOf(prefix + [u], body) ==
      ScreenLinesOf(prefix, body) + (if u.target != LastTarget(prefix) then [Header(u.target)] else []) + body(u)
    ensures LastTarget(prefix + [u]) == u.target
  {
    var all := prefix + [u];
    assert all[..|all| - 1] == prefix;
  }

  /** The loop over one site's units: banner on a change of target, then the unit's lines. */
  method PrintUnits(units: seq<Unit>, ghost done: seq<Unit>, lines0: seq<string>, target0: string, ghost bodyOf: Unit -> seq<string>)
    returns (lines: seq<string>, target: string)
    requires AgreesWithScreen(bodyOf)
    requires lines0 == ScreenLinesOf(done, bodyOf) && target0 == LastTarget(done)
    ensures lines == ScreenLinesOf(done + units, bodyOf) && target == LastTarget(done + units)
  {
    lines, target := lines0, target0;
    assert done + units[..0] == done;
    var j := 0;
    while j < |units|
      invariant 0 <= j <= |units|
      invariant lines == ScreenLinesOf(done + units[..j], bodyOf)
      invariant target == LastTarget(done + units[..j])
    {
      SliceSnoc(done, units, j);
      lines, target := PrintNext(lines, target, done + units[..j], units[j], bodyOf);
      j := j + 1;
    }
    assert units[..j] == units;
  }

  /** One unit: its banner when the target changes, then its own lines. */
  method PrintNext(lines0: seq<string>, target0: string, ghost prefix: seq<Unit>, u: Unit, ghost bodyOf: Unit -> seq<string>)
    returns (lines: seq<string>, target: string)
    requires AgreesWithScreen(bodyOf)
    requires lines0 == ScreenLinesOf(prefix, bodyOf) && target0 == LastTarget(prefix)
    ensures lines == ScreenLinesOf(prefix + [u], bodyOf) && target == LastTarget(prefix + [u])
  {
    ScreenSnoc(prefix, u, bodyOf);
    lines, target := lines0, target0;
    if target != u.target {
      lines := lines + [Header(u.target)];
      target := u.target;
    } else {
      assert lines + [] == lines;
    }
    var more := PrintUnit(u, bodyOf);
    lines := lines + more;
  }

  method PrintWith(recs: seq<SiteRecord>, ghost unitsOf: SiteRecord -> seq<Unit>, ghost bodyOf: Unit -> seq<string>)
    returns (lines: seq<string>)
    requires AgreesWithUnits(unitsOf) && AgreesWithScreen(bodyOf)
    ensures lines == ScreenLinesOf(FlatMap(recs, unitsOf), bodyOf)
  {
    lines := [];
    var target := "";
    var i := 0;
    while i < |recs|
      invariant 0 <= i <= |recs|
      invariant lines == ScreenLinesOf(FlatMap(recs[..i], unitsOf), bodyOf)
      invariant target == LastTarget(FlatMap(recs[..i], unitsOf))
    {
      var units := SiteUnits(recs[i], unitsOf);
      lines, target := PrintUnits(units, FlatMap(recs[..i], unitsOf), lines, target, bodyOf);
      FlatMapStep(recs, i, unitsOf);
      i := i + 1;
    }
    assert recs[..i] == recs;
  }

  /** PrintToScreenNormal: the lines printed, site after site. */
  method PrintToScreenNormal(sites: Option<seq<SiteEntry>>) returns (r: Result<seq<string>>)
    requires ScreenReadable(ListOfSites(sites))
    ensures r == ScreenOutput(sites)
  {
    var sorted := SortedSites(ListOfSites(sites));
    if sorted.Failure? {
      return Failure(sorted.error);
    }
    UnitsAgree();
    assert AgreesWithScreen(ScreenBody);
    var lines := PrintWith(sorted.value, Units, ScreenBody);
    r := Success(lines);
  }
}
