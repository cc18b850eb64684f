/**
 * What every consumer of the built sites does the same way: sort the sites
 * by target, split each site into result units (one per pattern of a
 * multi-result site, one for a single-result site), and suppress a result
 * whose key equals the key of the result just before it (the `laststring`
 * idiom). The CSV rows, written identically by two output classes, are
 * defined here once.
 */
module Flatten {
  import opened Common
  import opened SiteInfo

  // ---------------------------------------------------------------------
  // sorted(sites, key=attrgetter('Target')): a stable sort

  /** Put `r` before the first site whose target is not smaller. */
  function InsertByTarget(r: SiteRecord, rs: seq<SiteRecord>): seq<SiteRecord>
  {
    if |rs| == 0 || StrLe(r.target, rs[0].target) then [r] + rs
    else [rs[0]] + InsertByTarget(r, rs[1..])
  }

  /** Insertion sort from the back, so that sites with equal targets keep their order. */
  function SortByTarget(rs: seq<SiteRecord>): seq<SiteRecord>
  {
    if |rs| == 0 then [] else InsertByTarget(rs[0], SortByTarget(rs[1..]))
  }

  predicate SortedByTarget(rs: seq<SiteRecord>)
  {
    forall k | 0 < k < |rs| :: StrLe(rs[k - 1].target, rs[k].target)
  }

  /** The sites with a given target, in order. */
  function WithTarget(rs: seq<SiteRecord>, t: string): seq<SiteRecord>
  {
    if |rs| == 0 then []
    else (if rs[0].target == t then [rs[0]] else []) + WithTarget(rs[1..], t)
  }

  lemma {:induction false} InsertByTargetFacts(r: SiteRecord, rs: seq<SiteRecord>)
    requires SortedByTarget(rs)
    ensures var q := InsertByTarget(r, rs);
      SortedByTarget(q) && multiset(q) == multiset(rs) + multiset{r}
      && |q| > 0 && (q[0] == r || (|rs| > 0 && q[0] == rs[0]))
  {
    if |rs| > 0 && !StrLe(r.target, rs[0].target) {
      StrLeTotal(r.target, rs[0].target);
      var tail := InsertByTarget(r, rs[1..]);
      InsertByTargetFacts(r, rs[1..]);
      assert rs == [rs[0]] + rs[1..];
      var q := [rs[0]] + tail;
      forall k | 0 < k < |q|
        ensures StrLe(q[k - 1].target, q[k].target)
      {
        if k > 1 {
          assert q[k - 1] == tail[k - 2] && q[k] == tail[k - 1];
        } else if tail[0] != r {
          assert q[1] == rs[1];
        }
      }
    }
  }

  lemma WithTargetCons(x: SiteRecord, xs: seq<SiteRecord>, t: string)
    ensures WithTarget([x] + xs, t) == (if x.target == t then [x] else []) + WithTarget(xs, t)
  {
    assert ([x] + xs)[1..] == xs;
  }

  lemma {:induction false} InsertByTargetKeepsGroups(r: SiteRecord, rs: seq<SiteRecord>, t: string)
    ensures WithTarget(InsertByTarget(r, rs), t) == (if r.target == t then [r] else []) + WithTarget(rs, t)
  {
    if |rs| == 0 || StrLe(r.target, rs[0].target) {
      assert InsertByTarget(r, rs) == [r] + rs;
      WithTargetCons(r, rs, t);
    } else {
      StrLeRefl(r.target);
      var tail := InsertByTarget(r, rs[1..]);
      assert InsertByTarget(r, rs) == [rs[0]] + tail;
      WithTargetCons(rs[0], tail, t);
      InsertByTargetKeepsGroups(r, rs[1..], t);
      assert rs == [rs[0]] + rs[1..];
      WithTargetCons(rs[0], rs[1..], t);
      var mine: seq<SiteRecord> := if r.target == t then [r] else [];
      var first: seq<SiteRecord> := if rs[0].target == t then [rs[0]] else [];
      assert mine == [] || first == [];
      AppendAssoc(first, mine, WithTarget(rs[1..], t));
      AppendAssoc(mine, first, WithTarget(rs[1..], t));
    }
  }

  /** The sort puts the sites in ascending target order. */
  lemma {:induction false} SortByTargetSorted(rs: seq<SiteRecord>)
    ensures SortedByTarget(SortByTarget(rs))
    ensures multiset(SortByTarget(rs)) == multiset(rs)
  {
    if |rs| > 0 {
      SortByTargetSorted(rs[1..]);
      InsertByTargetFacts(rs[0], SortByTarget(rs[1..]));
      assert rs == [rs[0]] + rs[1..];
    }
  }

  /** The sort is stable: the sites sharing a target come out in their original order. */
  lemma {:induction false} SortByTargetStable(rs: seq<SiteRecord>, t: string)
    ensures WithTarget(SortByTarget(rs), t) == WithTarget(rs, t)
  {
    if |rs| > 0 {
      SortByTargetStable(rs[1..], t);
      InsertByTargetKeepsGroups(rs[0], SortByTarget(rs[1..]), t);
    }
  }

  predicate AllBuilt(es: seq<SiteEntry>)
  {
    forall k | 0 <= k < |es| :: es[k].Built?
  }

  function Records(es: seq<SiteEntry>): (rs: seq<SiteRecord>)
    requires AllBuilt(es)
    ensures |rs| == |es| && forall k | 0 <= k < |es| :: rs[k] == es[k].site
  {
    seq(|es|, k requires 0 <= k < |es| => es[k].site)
  }

  /**
   * The list a consumer walks: sorting None (no site was built) raises
   * TypeError, and reading the target of an object whose constructor
   * returned early raises AttributeError.
   */
  function SortedSites(sites: Option<seq<SiteEntry>>): Result<seq<SiteRecord>>
  {
    match sites
    case None => Failure("TypeError")
    case Some(es) =>
      if AllBuilt(es) then Success(SortByTarget(Records(es))) else Failure("AttributeError")
  }

  /** The facade's Sites: None with no site, raising for a half-built one, otherwise every site in target order. */
  lemma SortedSitesFacts(sites: Option<seq<SiteEntry>>)
    ensures sites.None? ==> SortedSites(sites) == Failure("TypeError")
    ensures sites.Some? && !AllBuilt(sites.value) ==> SortedSites(sites) == Failure("AttributeError")
    ensures sites.Some? && AllBuilt(sites.value) ==>
      SortedSites(sites).Success?
      && SortedByTarget(SortedSites(sites).value)
      && multiset(SortedSites(sites).value) == multiset(Records(sites.value))
  {
    if sites.Some? && AllBuilt(sites.value) {
      SortByTargetSorted(Records(sites.value));
    }
  }

  // ---------------------------------------------------------------------
  // laststring: consecutive duplicates are dropped

  /** The string an output compares for a result: its per-unit prefix, then str() of the result. */
  function Key(prefix: string): Match -> string
  {
    (m: Match) => prefix + Show(m)
  }

  /** Item `i` is written when its key differs from that of the item before it, or from "" for the first. */
  predicate Kept<T>(items: seq<T>, key: T -> string, i: nat)
    requires i < |items|
  {
    key(items[i]) != if i == 0 then "" else key(items[i - 1])
  }

  /** The items a `laststring` loop writes, in order. */
  function Collapse<T>(items: seq<T>, key: T -> string): seq<T>
  {
    if |items| == 0 then []
    else
      var n := |items| - 1;
      Collapse(items[..n], key) + if Kept(items, key, n) then [items[n]] else []
  }

  /** The `laststring` loop: compare, write, remember. */
  method KeepChanged<T>(items: seq<T>, key: T -> string) returns (kept: seq<T>)
    ensures kept == Collapse(items, key)
  {
    kept := [];
    var laststring := "";
    var i := 0;
    while i < |items|
      invariant 0 <= i <= |items|
      invariant kept == Collapse(items[..i], key)
      invariant laststring == if i == 0 then "" else key(items[i - 1])
    {
      assert items[..i + 1][..i] == items[..i];
      var k := key(items[i]);
      if k != laststring {
        kept := kept + [items[i]];
        laststring := k;
      }
      i := i + 1;
    }
    assert items[..i] == items;
  }

  /** Under one prefix two results have equal keys exactly when they print alike. */
  lemma KeyCancel(prefix: string, a: Match, b: Match)
    ensures Key(prefix)(a) == Key(prefix)(b) <==> Show(a) == Show(b)
  {
    if Key(prefix)(a) == Key(prefix)(b) {
      assert (prefix + Show(a))[|prefix|..] == Show(a);
      assert (prefix + Show(b))[|prefix|..] == Show(b);
    }
  }

  /**
   * The last written item has the key of the last item seen; nothing is
   * written only when that key is empty.
   */
  lemma {:induction false} CollapseEnds<T>(items: seq<T>, key: T -> string)
    requires |items| > 0
    ensures var c := Collapse(items, key);
      var last := items[|items| - 1];
      (|c| == 0 && key(last) == "") || (|c| > 0 && key(c[|c| - 1]) == key(last))
  {
    var n := |items| - 1;
    if n > 0 && !Kept(items, key, n) {
      CollapseEnds(items[..n], key);
      assert items[..n][n - 1] == items[n - 1];
    }
  }

  /** No two neighbouring written items have the same key. */
  lemma {:induction false} CollapseNoRepeats<T>(items: seq<T>, key: T -> string)
    ensures var c := Collapse(items, key);
      forall k | 0 < k < |c| :: key(c[k - 1]) != key(c[k])
  {
    if |items| > 0 {
      var n := |items| - 1;
      var init := Collapse(items[..n], key);
      CollapseNoRepeats(items[..n], key);
      if Kept(items, key, n) && |init| > 0 {
        CollapseEnds(items[..n], key);
        assert items[..n][n - 1] == items[n - 1];
        var c := init + [items[n]];
        forall k | 0 < k < |c|
          ensures key(c[k - 1]) != key(c[k])
        {
          if k < |init| {
            assert c[k - 1] == init[k - 1] && c[k] == init[k];
          }
        }
      }
    }
  }

  /** Every item whose key is not empty is written, or repeats the key of a written one. */
  lemma {:induction false} CollapseCovers<T>(items: seq<T>, key: T -> string, i: nat)
    requires i < |items| && key(items[i]) != ""
    ensures exists k | 0 <= k < |Collapse(items, key)| :: key(Collapse(items, key)[k]) == key(items[i])
    decreases |items|
  {
    var n := |items| - 1;
    var init := Collapse(items[..n], key);
    var c := Collapse(items, key);
    assert c[..|init|] == init;
    if i < n {
      CollapseCovers(items[..n], key, i);
      var k :| 0 <= k < |init| && key(init[k]) == key(items[..n][i]);
      assert c[k] == init[k];
    } else {
      CollapseEnds(items, key);
    }
  }

  /** Collapsing what was written changes nothing. */
  lemma {:induction false} CollapseIdempotent<T>(items: seq<T>, key: T -> string)
    ensures Collapse(Collapse(items, key), key) == Collapse(items, key)
  {
    if |items| > 0 {
      var n := |items| - 1;
      var init := Collapse(items[..n], key);
      CollapseIdempotent(items[..n], key);
      if Kept(items, key, n) {
        var c := init + [items[n]];
        assert c[..|init|] == init;
        if n > 0 {
          CollapseEnds(items[..n], key);
          assert items[..n][n - 1] == items[n - 1];
        }
        assert Kept(c, key, |init|);
        assert Collapse(c, key) == Collapse(init, key) + [items[n]];
        assert Collapse(items, key) == c;
      } else {
        assert Collapse(items, key) == init;
      }
    }
  }

  // ---------------------------------------------------------------------
  // Result units

  /** getImportantProperty(i) gives the site's Results (the getter, or a name the site has no method for). */
  predicate PropIsResults(rec: SiteRecord, i: int)
  {
    ImportantProperty(rec, i) == Success(PResults(ResultsView(rec.results)))
  }

  /** `setting[i]` can be read for every pattern: a list or a string with an entry per pattern. */
  predicate Covers(x: StrOrList, n: nat)
  {
    EntryCount(x).Some? && EntryCount(x).value >= n
  }

  /**
   * The sites the CSV, HTML, hash, result-list and normalising outputs
   * walk as the model does: a single-result site has one name and a
   * property getImportantProperty(0) can read (a string, or a list read at
   * index 0); a multi-result site has a name entry for every pattern (a
   * string name gives one character per pattern), one slot per pattern,
   * and a property that gives its Results for every pattern.
   */
  predicate WellShaped(rec: SiteRecord)
  {
    match rec.regex
    case Absent => false
    case Text(_) =>
      rec.friendlyName.Text? && ImportantProperty(rec, 0).Success? && !rec.results.Slots?
    case List(rs) =>
      Covers(rec.friendlyName, |rs|)
      && (rec.results.Slots? ==> |rec.results.slots| == |rs|)
      && (rec.results.Flat? ==> |rec.results.items| == 0)
      && forall i | 0 <= i < |rs| :: PropIsResults(rec, i)
  }

  predicate AllWellShaped(recs: seq<SiteRecord>)
  {
    forall k | 0 <= k < |recs| :: WellShaped(recs[k])
  }

  /**
   * The screen writer also reads ReportStringForResult: one string for a
   * single-result site, an entry per pattern for a multi-result site.
   */
  predicate ScreenShaped(rec: SiteRecord)
  {
    WellShaped(rec)
    && match rec.regex
       case Absent => false
       case Text(_) => rec.reportString.Text?
       case List(rs) => Covers(rec.reportString, |rs|)
  }

  predicate AllScreenShaped(recs: seq<SiteRecord>)
  {
    forall k | 0 <= k < |recs| :: ScreenShaped(recs[k])
  }

  /**
   * What one pattern (or a single-result site) has to report: the property
   * is None or empty, the slot is None or empty, a single site has nothing,
   * the property is a non-empty string, or a non-empty list of matches.
   */
  datatype Body = NoProperty | NoSlot | NoResults | OneText(text: string) | Matches(items: seq<Match>)

  /** One pattern of a site as every output walks it. */
  datatype Unit = Unit(target: string, targetType: string, source: string, report: string, multi: bool, body: Body)

  /** A single-result site: its property, read with getImportantProperty(0). */
  function SingleBody(rec: SiteRecord): Body
  {
    match ImportantProperty(rec, 0)
    case Success(PText(s)) => if |s| == 0 then NoResults else OneText(s)
    case Success(PResults(Some(st))) => if st.Flat? then Matches(st.items) else NoResults
    case _ => NoResults
  }

  /** Slot `i` of a multi-result site, read through its Results. */
  function MultiBody(rec: SiteRecord, i: nat): Body
  {
    match ResultsView(rec.results)
    case None => NoProperty
    case Some(st) =>
      if st.Slots? && i < |st.slots| then
        if st.slots[i].None? || |st.slots[i].value| == 0 then NoSlot else Matches(st.slots[i].value)
      else NoProperty
  }

  /**
   * `setting[i]` of a per-pattern setting: the `i`-th entry of a list, the
   * `i`-th character of a string (only well-shaped sites are read this way).
   */
  function EntryAt(x: StrOrList, i: nat): string
  {
    match x
    case List(items) => if i < |items| then items[i] else ""
    case Text(s) => if i < |s| then [s[i]] else ""
    case Absent => ""
  }

  /**
   * The units of a site: one per pattern of a multi-result site, one for a
   * single-result site (the outputs read only well-shaped sites).
   */
  function Units(rec: SiteRecord): seq<Unit>
  {
    match rec.regex
    case Absent => []
    case Text(_) =>
      [Unit(rec.target, rec.targetType, if rec.friendlyName.Text? then rec.friendlyName.s else "",
         if rec.reportString.Text? then rec.reportString.s else "", false, SingleBody(rec))]
    case List(rs) =>
      seq(|rs|, i requires 0 <= i < |rs| =>
        Unit(rec.target, rec.targetType, EntryAt(rec.friendlyName, i), EntryAt(rec.reportString, i), true, MultiBody(rec, i)))
  }

  /** Every output: the per-item output, item after item. */
  function FlatMap<A, B>(xs: seq<A>, f: A -> seq<B>): seq<B>
  {
    if |xs| == 0 then [] else FlatMap(xs[..|xs| - 1], f) + f(xs[|xs| - 1])
  }

  lemma {:induction false} FlatMapAppend<A, B>(a: seq<A>, b: seq<A>, f: A -> seq<B>)
    ensures FlatMap(a + b, f) == FlatMap(a, f) + FlatMap(b, f)
    decreases |b|
  {
    if |b| > 0 {
      assert (a + b)[..|a + b| - 1] == a + b[..|b| - 1];
      FlatMapAppend(a, b[..|b| - 1], f);
    } else {
      assert a + b == a;
    }
  }

  lemma FlatMapStep<A, B>(xs: seq<A>, j: nat, f: A -> seq<B>)
    requires j < |xs|
    ensures FlatMap(xs[..j + 1], f) == FlatMap(xs[..j], f) + f(xs[j])
  {
    assert xs[..j + 1][..j] == xs[..j];
  }

  /** The units of all sites, site after site. */
  function AllUnits(recs: seq<SiteRecord>): seq<Unit>
  {
    FlatMap(recs, Units)
  }

  /**
   * `unitsOf` gives what Units gives. The trigger keeps the verifier from
   * expanding Units wherever the consumers' loops mention a site: only the
   * step that walks a site looks inside.
   */
  ghost predicate AgreesWithUnits(unitsOf: SiteRecord -> seq<Unit>)
  {
    forall r {:trigger Units(r)} :: unitsOf(r) == Units(r)
  }

  lemma UnitsAgree()
    ensures AgreesWithUnits(Units)
  {
  }

  /** The branches an output takes for one site: over its patterns, or once for a single-result site. */
  method SiteUnits(rec: SiteRecord, ghost unitsOf: SiteRecord -> seq<Unit>) returns (units: seq<Unit>)
    requires AgreesWithUnits(unitsOf)
    ensures units == unitsOf(rec)
  {
    units := Units(rec);
  }

  // ---------------------------------------------------------------------
  // CSV rows (PrintToCSVFile in both output classes)

  const CsvHeader: seq<string> := ["Target", "Type", "Source", "Result"]
  const NoResultsFound := "No results found"

  /** The rows written for the given results of a unit. */
  function CsvLines(u: Unit, ms: seq<Match>): (rows: seq<seq<string>>)
    ensures |rows| == |ms|
  {
    seq(|ms|, k requires 0 <= k < |ms| => [u.target, u.targetType, u.source, Show(ms[k])])
  }

  /** The key the CSV, hash and result-list outputs compare: target, type, source, then the result. */
  function RowKey(u: Unit, source: string): Match -> string
  {
    Key(u.target + u.targetType + source)
  }

  /** A unit's CSV rows: a sentinel row when there is nothing, one row per written result otherwise. */
  function CsvUnitRows(u: Unit): seq<seq<string>>
  {
    match u.body
    case OneText(s) => [[u.target, u.targetType, u.source, s]]
    case Matches(items) => CsvLines(u, Collapse(items, RowKey(u, u.source)))
    case _ => [[u.target, u.targetType, u.source, NoResultsFound]]
  }

  /** The whole CSV file: the header, then every unit's rows. */
  function CsvRows(recs: seq<SiteRecord>): seq<seq<string>>
  {
    [CsvHeader] + FlatMap(AllUnits(recs), CsvUnitRows)
  }

  /** `rowsOf` gives what CsvUnitRows gives; as for units, only the step that writes a unit looks inside. */
  ghost predicate AgreesWithCsv(rowsOf: Unit -> seq<seq<string>>)
  {
    forall u {:trigger CsvUnitRows(u)} :: rowsOf(u) == CsvUnitRows(u)
  }

  method WriteCsvUnit(u: Unit, ghost rowsOf: Unit -> seq<seq<string>>) returns (rows: seq<seq<string>>)
    requires AgreesWithCsv(rowsOf)
    ensures rows == rowsOf(u)
  {
    assert rowsOf(u) == CsvUnitRows(u);
    match u.body
    case OneText(s) =>
      rows := [[u.target, u.targetType, u.source, s]];
    case Matches(items) =>
      var kept := KeepChanged(items, RowKey(u, u.source));
      rows := CsvLines(u, kept);
    case _ =>
      rows := [[u.target, u.targetType, u.source, NoResultsFound]];
  }

  /** The CSV writer: the header, then the loops over the sorted sites and their patterns. */
  method WriteCsv(recs: seq<SiteRecord>) returns (rows: seq<seq<string>>)
    ensures rows == CsvRows(recs)
  {
    UnitsAgree();
    assert AgreesWithCsv(CsvUnitRows);
    rows := WriteCsvWith(recs, Units, CsvUnitRows);
  }

  method WriteCsvWith(recs: seq<SiteRecord>, ghost unitsOf: SiteRecord -> seq<Unit>, ghost rowsOf: Unit -> seq<seq<string>>)
    returns (rows: seq<seq<string>>)
    requires AgreesWithUnits(unitsOf) && AgreesWithCsv(rowsOf)
    ensures rows == [CsvHeader] + FlatMap(FlatMap(recs, unitsOf), rowsOf)
  {
    rows := [CsvHeader];
    var i := 0;
    while i < |recs|
      invariant 0 <= i <= |recs|
      invariant rows == [CsvHeader] + FlatMap(FlatMap(recs[..i], unitsOf), rowsOf)
    {
      var units := SiteUnits(recs[i], unitsOf);
      var j := 0;
      while j < |units|
        invariant 0 <= j <= |units|
        invariant rows == [CsvHeader] + FlatMap(FlatMap(recs[..i], unitsOf), rowsOf) + FlatMap(units[..j], rowsOf)
      {
        var more := WriteCsvUnit(units[j], rowsOf);
        FlatMapStep(units, j, rowsOf);
        rows := rows + more;
        j := j + 1;
      }
      assert units[..j] == units;
      FlatMapStep(recs, i, unitsOf);
      FlatMapAppend(FlatMap(recs[..i], unitsOf), units, rowsOf);
      i := i + 1;
    }
    assert recs[..i] == recs;
  }

  // ---------------------------------------------------------------------
  // Output in target order

  /** The consumers read only what they can read without raising. */
  predicate Readable(sites: Option<seq<SiteEntry>>)
  {
    sites.Some? && AllBuilt(sites.value) ==> AllWellShaped(Records(sites.value))
  }

  /** The same for the screen writer. */
  predicate ScreenReadable(sites: Option<seq<SiteEntry>>)
  {
    sites.Some? && AllBuilt(sites.value) ==> AllScreenShaped(Records(sites.value))
  }

  /** Every key is at most every later key. */
  predicate Ascending<A>(xs: seq<A>, key: A -> string)
  {
    forall i, j | 0 <= i < j < |xs| :: StrLe(key(xs[i]), key(xs[j]))
  }

  /** Every output item of `f(x)` carries the label of `x`. */
  ghost predicate Labels<A(!new), B>(f: A -> seq<B>, ka: A -> string, kb: B -> string)
  {
    forall x, y | y in f(x) :: kb(y) == ka(x)
  }

  function TargetOf(r: SiteRecord): string { r.target }

  function UnitTarget(u: Unit): string { u.target }

  function RowTarget(row: seq<string>): string { if |row| > 0 then row[0] else "" }

  lemma {:induction false} SortedChain(rs: seq<SiteRecord>, i: nat, j: nat)
    requires SortedByTarget(rs) && i < j < |rs|
    ensures StrLe(rs[i].target, rs[j].target)
    decreases j - i
  {
    if j > i + 1 {
      SortedChain(rs, i, j - 1);
      StrLeTrans(rs[i].target, rs[j - 1].target, rs[j].target);
    }
  }

  lemma SortedAscending(rs: seq<SiteRecord>)
    requires SortedByTarget(rs)
    ensures Ascending(rs, TargetOf)
  {
    forall i, j | 0 <= i < j < |rs|
      ensures StrLe(TargetOf(rs[i]), TargetOf(rs[j]))
    {
      SortedChain(rs, i, j);
    }
  }

  lemma {:induction false} FlatMapFrom<A(!new), B>(xs: seq<A>, f: A -> seq<B>, ka: A -> string, kb: B -> string)
    requires Labels(f, ka, kb)
    ensures forall y | y in FlatMap(xs, f) :: exists k | 0 <= k < |xs| :: kb(y) == ka(xs[k])
  {
    if |xs| > 0 {
      var n := |xs| - 1;
      FlatMapFrom(xs[..n], f, ka, kb);
      forall y | y in FlatMap(xs, f)
        ensures exists k | 0 <= k < |xs| :: kb(y) == ka(xs[k])
      {
        if y in FlatMap(xs[..n], f) {
          var k :| 0 <= k < n && kb(y) == ka(xs[..n][k]);
          assert xs[..n][k] == xs[k];
        } else {
          assert y in f(xs[n]);
        }
      }
    }
  }

  /** Flattening ascending items whose outputs carry their label keeps the labels ascending. */
  lemma {:induction false} FlatMapAscending<A(!new), B>(xs: seq<A>, f: A -> seq<B>, ka: A -> string, kb: B -> string)
    requires Ascending(xs, ka) && Labels(f, ka, kb)
    ensures Ascending(FlatMap(xs, f), kb)
  {
    if |xs| > 0 {
      var n := |xs| - 1;
      var init := xs[..n];
      var p := FlatMap(init, f);
      var q := f(xs[n]);
      FlatMapAscending(init, f, ka, kb);
      FlatMapFrom(init, f, ka, kb);
      var out := p + q;
      forall i, j | 0 <= i < j < |out|
        ensures StrLe(kb(out[i]), kb(out[j]))
      {
        if j < |p| {
          assert out[i] == p[i] && out[j] == p[j];
        } else if i >= |p| {
          assert out[i] in q && out[j] in q;
          StrLeRefl(ka(xs[n]));
        } else {
          assert out[i] == p[i] && out[i] in p;
          assert out[j] in q;
          var k :| 0 <= k < n && kb(out[i]) == ka(init[k]);
          assert init[k] == xs[k];
        }
      }
    }
  }

  lemma UnitsLabelled()
    ensures Labels(Units, TargetOf, UnitTarget)
  {
    forall r, u | u in Units(r)
      ensures UnitTarget(u) == TargetOf(r)
    {
      var us := Units(r);
      var k :| 0 <= k < |us| && us[k] == u;
    }
  }

  /** The units of sites in target order are in target order. */
  lemma AllUnitsAscending(recs: seq<SiteRecord>)
    requires SortedByTarget(recs)
    ensures Ascending(AllUnits(recs), UnitTarget)
  {
    SortedAscending(recs);
    UnitsLabelled();
    FlatMapAscending(recs, Units, TargetOf, UnitTarget);
  }

  /** CSV rows follow the sites' target order, so the rows of one target are adjacent. */
  lemma CsvRowsAscending(recs: seq<SiteRecord>)
    requires SortedByTarget(recs)
    ensures Ascending(CsvRows(recs)[1..], RowTarget)
  {
    AllUnitsAscending(recs);
    forall u, row | row in CsvUnitRows(u)
      ensures RowTarget(row) == UnitTarget(u)
    {
      if u.body.Matches? {
        var rows := CsvUnitRows(u);
        var k :| 0 <= k < |rows| && rows[k] == row;
      }
    }
    FlatMapAscending(AllUnits(recs), CsvUnitRows, UnitTarget, RowTarget);
    assert CsvRows(recs)[1..] == FlatMap(AllUnits(recs), CsvUnitRows);
  }

  // ---------------------------------------------------------------------
  // The output classes

  /** ListOfSites / list_of_sites: an empty list reads as None, so sorting it raises. */
  function ListOfSites(sites: Option<seq<SiteEntry>>): (r: Option<seq<SiteEntry>>)
    ensures r.Some? <==> sites.Some? && |sites.value| > 0
    ensures r.Some? ==> r == sites
  {
    if sites.None? || |sites.value| == 0 then None else sites
  }

  /** The rows of the CSV file both output classes write; sorting comes before the header. */
  function CsvFile(sites: Option<seq<SiteEntry>>): Result<seq<seq<string>>>
  {
    match SortedSites(ListOfSites(sites))
    case Failure(e) => Failure(e)
    case Success(recs) => Success(CsvRows(recs))
  }

  /** PrintToCSVFile and PrintToCSVFileHandle: the rows written, in order. */
  method PrintToCSVFile(sites: Option<seq<SiteEntry>>) returns (r: Result<seq<seq<string>>>)
    requires Readable(ListOfSites(sites))
    ensures r == CsvFile(sites)
  {
    var sorted := SortedSites(ListOfSites(sites));
    if sorted.Failure? {
      return Failure(sorted.error);
    }
    var rows := WriteCsv(sorted.value);
    r := Success(rows);
  }

  /**
   * The CSV file: the header, then rows in ascending target order; an
   * empty site list raises before anything is written.
   */
  lemma CsvFileFacts(sites: Option<seq<SiteEntry>>)
    ensures CsvFile(sites).Failure? <==>
      sites.None? || |sites.value| == 0 || !AllBuilt(sites.value)
    ensures CsvFile(sites).Success? ==>
      CsvFile(sites).value[0] == CsvHeader && Ascending(CsvFile(sites).value[1..], RowTarget)
  {
    var listed := ListOfSites(sites);
    SortedSitesFacts(listed);
    if CsvFile(sites).Success? {
      CsvRowsAscending(SortedSites(listed).value);
    }
  }

  /**
   * Two outputs that compare results under different prefixes keep the same
   * results, unless exactly one prefix is empty and the first result prints
   * as the empty string.
   */
  lemma {:induction false} CollapseSamePrefix(items: seq<Match>, p: string, q: string)
    requires |items| == 0 || Show(items[0]) != "" || (p == "") == (q == "")
    ensures Collapse(items, Key(p)) == Collapse(items, Key(q))
  {
    if |items| > 0 {
      var n := |items| - 1;
      if n > 0 {
        assert items[..n][0] == items[0];
        KeyCancel(p, items[n], items[n - 1]);
        KeyCancel(q, items[n], items[n - 1]);
      }
      CollapseSamePrefix(items[..n], p, q);
    }
  }

  function Map<A, B>(xs: seq<A>, f: A -> B): (ys: seq<B>)
    ensures |ys| == |xs| && forall k | 0 <= k < |xs| :: ys[k] == f(xs[k])
  {
    seq(|xs|, k requires 0 <= k < |xs| => f(xs[k]))
  }

  /** Dropping repeats commutes with a rendering that keeps the compared key. */
  lemma {:induction false} CollapseMap<A, B>(xs: seq<A>, f: A -> B, ka: A -> string, kb: B -> string)
    requires forall k | 0 <= k < |xs| :: kb(f(xs[k])) == ka(xs[k])
    ensures Collapse(Map(xs, f), kb) == Map(Collapse(xs, ka), f)
  {
    if |xs| > 0 {
      var n := |xs| - 1;
      var ys := Map(xs, f);
      assert ys[..n] == Map(xs[..n], f);
      CollapseMap(xs[..n], f, ka, kb);
      assert Kept(ys, kb, n) <==> Kept(xs, ka, n);
      var c := Collapse(xs[..n], ka);
      if Kept(xs, ka, n) {
        assert Map(c + [xs[n]], f) == Map(c, f) + [f(xs[n])];
      } else {
        assert c + [] == c;
      }
    }
  }
}
