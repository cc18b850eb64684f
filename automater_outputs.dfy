/**
 * The programmatic output class: normalize_output turns the sorted sites
 * into one record per site holding one record per source, and hashOutput
 * builds the nested target -> source -> entries table that is encoded as
 * JSON. The CSV rows it writes are Flatten.CsvFile.
 */
module AutomaterOutputs {
  import opened Common
  import opened SiteInfo
  import opened Flatten
  import opened AutomaterClass

  // ---------------------------------------------------------------------
  // normalize_result and the output records

  /** A normalised result: a string, or the list a tuple of groups becomes. */
  datatype Normalized = NText(s: string) | NList(parts: seq<string>)

  /** normalize_result: a tuple becomes the list of its elements, anything else stays as it is. */
  function NormalizeResult(m: Match): (n: Normalized)
  {
    match m
    case Groups(parts) => NList(parts)
    case Str(s) => NText(s)
  }

  /** The result a normalised value stands for. */
  function ResultOf(n: Normalized): Match
  {
    match n
    case NList(parts) => Groups(parts)
    case NText(s) => Str(s)
  }

  /** Normalising loses nothing: the elements of a tuple survive as a list, in order. */
  lemma NormalizeResultInverse(m: Match, n: Normalized)
    ensures ResultOf(NormalizeResult(m)) == m
    ensures NormalizeResult(ResultOf(n)) == n
    ensures m.Groups? ==> NormalizeResult(m).NList? && NormalizeResult(m).parts == m.parts
  {
  }

  /** NormalizedSourceOutput: a source, the site's result type and its results. */
  datatype SourceOutput = SourceOutput(source: string, sourceType: string, results: seq<Normalized>)

  /** NormalizedSiteOutput: a target, its type and one source record per pattern. */
  datatype SiteOutput = SiteOutput(target: string, targetType: string, sources: seq<SourceOutput>)

  // ---------------------------------------------------------------------
  // normalize_output as written

  /**
   * The exception normalize_output as written raises on a site, or None
   * for a site with no patterns (its loop runs zero times). A single-result
   * site reads getImportantProperty(-1); a site whose patterns are not a
   * string takes `len(site.RegEx)` (TypeError for None) and reads
   * getImportantProperty(0) and `FriendlyName[0]`; either then reads
   * `site.ResultType`, which no site class defines.
   */
  function SiteRaisesAsWritten(rec: SiteRecord): Option<string>
  {
    match rec.regex
    case Text(_) =>
      (match ImportantPropertyAsWritten(rec, -1)
       case Failure(e) => Some(e)
       case Success(_) => Some("AttributeError"))
    case Absent => Some("TypeError")
    case List(rs) =>
      if |rs| == 0 then None
      else match ImportantPropertyAsWritten(rec, 0)
        case Failure(e) => Some(e)
        case Success(_) =>
          match EntryCount(rec.friendlyName)
          case None => Some("TypeError")
          case Some(n) => Some(if n == 0 then "IndexError" else "AttributeError")
  }

  /** The sites' loop as written: the first exception stops it. */
  function NormalizeSitesAsWritten(recs: seq<SiteRecord>): Result<seq<SiteOutput>>
  {
    if |recs| == 0 then Success([])
    else match SiteRaisesAsWritten(recs[0])
      case Some(e) => Failure(e)
      case None =>
        match NormalizeSitesAsWritten(recs[1..])
        case Failure(e) => Failure(e)
        case Success(outs) => Success([SiteOutput(recs[0].target, recs[0].targetType, [])] + outs)
  }

  /** normalize_output as written: sorting raises for no sites, then the sites in target order. */
  function NormalizeOutputAsWritten(sites: Option<seq<SiteEntry>>): Result<seq<SiteOutput>>
  {
    match SortedSites(ListOfSites(sites))
    case Failure(e) => Failure(e)
    case Success(recs) => NormalizeSitesAsWritten(recs)
  }

  /** What the loop as written gives back holds no source at all. */
  lemma {:induction false} NormalizeSitesAsWrittenEmpty(recs: seq<SiteRecord>)
    requires NormalizeSitesAsWritten(recs).Success?
    ensures var outs := NormalizeSitesAsWritten(recs).value;
      |outs| == |recs| && forall k | 0 <= k < |outs| :: outs[k].sources == [] && recs[k].regex == List([])
  {
    if |recs| > 0 {
      NormalizeSitesAsWrittenEmpty(recs[1..]);
    }
  }

  /**
   * As written the output class never produces a source record: the call
   * succeeds only when no site has a pattern. With well-shaped sites that
   * all have a pattern and the property `Results`, the first site raises
   * AttributeError on `ResultType`.
   */
  lemma NormalizeOutputAsWrittenRaises(sites: Option<seq<SiteEntry>>)
    ensures NormalizeOutputAsWritten(sites).Success? ==>
      forall o | o in NormalizeOutputAsWritten(sites).value :: o.sources == []
    ensures sites.Some? && |sites.value| > 0 && AllBuilt(sites.value) && Readable(sites)
      && (forall k | 0 <= k < |sites.value| ::
            sites.value[k].site.regex != List([]) && sites.value[k].site.importantProperty == Text("Results"))
      ==> NormalizeOutputAsWritten(sites) == Failure("AttributeError")
  {
    var listed := ListOfSites(sites);
    SortedSitesFacts(listed);
    if NormalizeOutputAsWritten(sites).Success? {
      NormalizeSitesAsWrittenEmpty(SortedSites(listed).value);
    }
    if sites.Some? && |sites.value| > 0 && AllBuilt(sites.value) && Readable(sites)
      && (forall k | 0 <= k < |sites.value| ::
            sites.value[k].site.regex != List([]) && sites.value[k].site.importantProperty == Text("Results"))
    {
      var recs := SortedSites(listed).value;
      var all := Records(sites.value);
      assert |multiset(recs)| == |multiset(all)|;
      assert recs[0] in multiset(all);
      var j :| 0 <= j < |all| && all[j] == recs[0];
      assert WellShaped(all[j]);
    }
  }

  /**
   * A first site (in target order) whose property names no method of the
   * site raises TypeError from getImportantProperty, before the result
   * type is read.
   */
  lemma NormalizeOutputAsWrittenUnknownName(sites: Option<seq<SiteEntry>>)
    requires SortedSites(ListOfSites(sites)).Success?
    requires var recs := SortedSites(ListOfSites(sites)).value;
      |recs| > 0 && recs[0].regex.List? && |recs[0].regex.items| > 0
      && AccessorName(recs[0].importantProperty, 0).Success?
      && Accessor(recs[0], AccessorName(recs[0].importantProperty, 0).value).None?
    ensures NormalizeOutputAsWritten(sites) == Failure("TypeError")
  {
    ImportantPropertyFallback(SortedSites(ListOfSites(sites)).value[0], 0);
  }

  /** A first site with no patterns at all (None) raises TypeError from `len(site.RegEx)`. */
  lemma NormalizeOutputAsWrittenNoRegex(sites: Option<seq<SiteEntry>>)
    requires SortedSites(ListOfSites(sites)).Success?
    requires var recs := SortedSites(ListOfSites(sites)).value;
      |recs| > 0 && recs[0].regex.Absent?
    ensures NormalizeOutputAsWritten(sites) == Failure("TypeError")
  {
  }

  /**
   * `FriendlyName[-1]`: the last character of a string name or the last of
   * a list of names, IndexError when there is none, TypeError for None.
   */
  function LastName(friendlyName: StrOrList): Result<string>
  {
    match friendlyName
    case Text(name) => if |name| == 0 then Failure("IndexError") else Success([name[|name| - 1]])
    case List(names) => if |names| == 0 then Failure("IndexError") else Success(names[|names| - 1])
    case Absent => Failure("TypeError")
  }

  /**
   * The source's `site.FriendlyName` as a source name. A list of names is
   * kept by the source as the list itself, which a string-valued source name
   * cannot hold, so it is written as the empty name here.
   */
  function WholeName(friendlyName: StrOrList): string
  {
    if friendlyName.Text? then friendlyName.s else ""
  }

  /**
   * The entry normalize_source reads for a single-result site as written
   * (index -1, so the last result only): an empty one renames the source
   * to `FriendlyName[-1]`; a string is the one result; a tuple
   * contributes its elements, each not repeating the one before.
   */
  function LastEntryAsWritten(friendlyName: StrOrList, resultType: string, last: Match): Result<SourceOutput>
  {
    var name := WholeName(friendlyName);
    match last
    case Str(x) =>
      if |x| == 0 then
        match LastName(friendlyName)
        case Failure(e) => Failure(e)
        case Success(c) => Success(SourceOutput(c, resultType, []))
      else Success(SourceOutput(name, resultType, [NText(x)]))
    case Groups(parts) =>
      if |parts| == 0 then
        match LastName(friendlyName)
        case Failure(e) => Failure(e)
        case Success(c) => Success(SourceOutput(c, resultType, []))
      else Success(SourceOutput(name, resultType, Map(Collapse(parts, (p: string) => p), (p: string) => NText(p))))
  }

  /**
   * normalize_source for a single-result site as written, with the result
   * type supplied: a non-empty string property raises NameError (the name
   * of the remembered string is misspelt), and only the last of a list of
   * results is looked at.
   */
  function NormalizeSingleAsWritten(rec: SiteRecord, resultType: string): Result<SourceOutput>
  {
    var name := WholeName(rec.friendlyName);
    match ImportantPropertyAsWritten(rec, -1)
    case Failure(e) => Failure(e)
    case Success(PText(s)) =>
      if |s| == 0 then Success(SourceOutput(name, resultType, [])) else Failure("NameError")
    case Success(PResults(None)) => Success(SourceOutput(name, resultType, []))
    case Success(PResults(Some(st))) =>
      match st
      case Nothing => Success(SourceOutput(name, resultType, []))
      case Flat(items) =>
        if |items| == 0 then Success(SourceOutput(name, resultType, []))
        else LastEntryAsWritten(rec.friendlyName, resultType, items[|items| - 1])
      case Slots(slots) =>
        if |slots| == 0 then Success(SourceOutput(name, resultType, []))
        else
          var last := slots[|slots| - 1];
          if last.None? || |last.value| == 0 then
            match LastName(rec.friendlyName)
            case Failure(e) => Failure(e)
            case Success(c) => Success(SourceOutput(c, resultType, []))
          else Success(SourceOutput(name, resultType, Map(Collapse(last.value, Key("")), NormalizeResult)))
  }

  // ---------------------------------------------------------------------
  // normalize_output as intended

  /** The results of one source: the text, or every result not repeating the one before it. */
  function NormalizedResults(b: Body): seq<Normalized>
  {
    match b
    case OneText(s) => [NText(s)]
    case Matches(items) => Map(Collapse(items, Key("")), NormalizeResult)
    case _ => []
  }

  /** normalize_source for one pattern (or a single-result site), reading all of its results. */
  function NormalizedSource(u: Unit, resultType: string): SourceOutput
  {
    SourceOutput(u.source, resultType, NormalizedResults(u.body))
  }

  function NormalizedSite(rec: SiteRecord, resultType: string): SiteOutput
  {
    SiteOutput(rec.target, rec.targetType, Map(Units(rec), (u: Unit) => NormalizedSource(u, resultType)))
  }

  /**
   * normalize_output with the result type of each site supplied: one
   * record per site in target order.
   */
  function NormalizeOutput(sites: Option<seq<SiteEntry>>, resultTypeOf: SiteRecord -> string): Result<seq<SiteOutput>>
  {
    match SortedSites(ListOfSites(sites))
    case Failure(e) => Failure(e)
    case Success(recs) => Success(NormalizedSites(recs, resultTypeOf))
  }

  function NormalizedSites(recs: seq<SiteRecord>, resultTypeOf: SiteRecord -> string): (outs: seq<SiteOutput>)
    ensures |outs| == |recs|
  {
    seq(|recs|, k requires 0 <= k < |recs| => NormalizedSite(recs[k], resultTypeOf(recs[k])))
  }

  /** The number of sources a site contributes: one per pattern, or one. */
  function SlotCount(rec: SiteRecord): nat
  {
    match rec.regex
    case Absent => 0
    case Text(_) => 1
    case List(rs) => |rs|
  }

  function SiteOutputTarget(o: SiteOutput): string { o.target }

  /**
   * One site record per site, in ascending target order, with one source
   * per pattern of a multi-result site and exactly one for a single-result
   * site.
   */
  lemma NormalizeOutputShape(sites: Option<seq<SiteEntry>>, resultTypeOf: SiteRecord -> string)
    requires NormalizeOutput(sites, resultTypeOf).Success?
    ensures var outs := NormalizeOutput(sites, resultTypeOf).value;
      var recs := SortedSites(ListOfSites(sites)).value;
      |outs| == |recs| == |sites.value|
      && Ascending(outs, SiteOutputTarget)
      && forall k | 0 <= k < |outs| ::
           outs[k].target == recs[k].target && |outs[k].sources| == SlotCount(recs[k])
  {
    var listed := ListOfSites(sites);
    SortedSitesFacts(listed);
    var recs := SortedSites(listed).value;
    assert |multiset(recs)| == |multiset(Records(listed.value))|;
    var outs := NormalizeOutput(sites, resultTypeOf).value;
    SortedAscending(recs);
    forall i, j | 0 <= i < j < |outs|
      ensures StrLe(SiteOutputTarget(outs[i]), SiteOutputTarget(outs[j]))
    {
      assert StrLe(TargetOf(recs[i]), TargetOf(recs[j]));
    }
  }

  /**
   * normalize_output and GetResults list the same results for a source,
   * unless its first result prints as the empty string (which only
   * GetResults keeps, behind its target, type and source).
   */
  lemma NormalizedAgreesWithRows(u: Unit)
    requires u.body.Matches? && |u.body.items| > 0 ==> Show(u.body.items[0]) != ""
    ensures Map(NormalizedResults(u.body), ResultOf) == Map(ResultUnitRows(u), (row: Row) => row.result)
  {
    if u.body.Matches? {
      CollapseSamePrefix(u.body.items, u.target + u.targetType + u.source, "");
      var kept := Collapse(u.body.items, Key(""));
      assert RowKey(u, u.source) == Key(u.target + u.targetType + u.source);
      var normalized := Map(kept, NormalizeResult);
      var rows := ResultLines(u, kept);
      assert NormalizedResults(u.body) == normalized && ResultUnitRows(u) == rows;
      var left := Map(normalized, ResultOf);
      var right := Map(rows, (row: Row) => row.result);
      forall k | 0 <= k < |kept|
        ensures left[k] == right[k]
      {
        NormalizeResultInverse(kept[k], NormalizeResult(kept[k]));
      }
      assert left == right;
    }
  }

  /**
   * The as-written single-site path keeps only the last result: with two
   * different non-empty string results the intended output has both, the
   * code as written only the second.
   */
  lemma NormalizeSingleDropsEarlier(rec: SiteRecord, resultType: string, a: string, x: string)
    requires rec.regex.Text? && rec.friendlyName.Text? && rec.importantProperty.Text?
    requires ImportantPropertyAsWritten(rec, 0) == Success(PResults(Some(Flat([Str(a), Str(x)]))))
    requires a != "" && x != "" && a != x
    ensures NormalizeSingleAsWritten(rec, resultType) == Success(SourceOutput(rec.friendlyName.s, resultType, [NText(x)]))
    ensures NormalizedResults(Units(rec)[0].body) == [NText(a), NText(x)]
  {
    assert ImportantPropertyAsWritten(rec, -1) == ImportantPropertyAsWritten(rec, 0) == ImportantProperty(rec, 0);
    var items := [Str(a), Str(x)];
    assert Key("")(items[0]) == a && Key("")(items[1]) == x;
    assert items[..1] == [Str(a)] && items[..1][..0] == [];
    assert Collapse(items[..1], Key("")) == [Str(a)];
    assert Collapse(items, Key("")) == items;
  }

  /** A non-empty string property: the code as written raises NameError, the intended output lists the string. */
  lemma NormalizeSingleTextRaises(rec: SiteRecord, resultType: string, s: string)
    requires rec.regex.Text? && rec.importantProperty.Text?
    requires ImportantPropertyAsWritten(rec, 0) == Success(PText(s)) && s != ""
    ensures NormalizeSingleAsWritten(rec, resultType) == Failure("NameError")
    ensures NormalizedResults(Units(rec)[0].body) == [NText(s)]
  {
    assert ImportantPropertyAsWritten(rec, -1) == ImportantPropertyAsWritten(rec, 0) == ImportantProperty(rec, 0);
  }

  // ---------------------------------------------------------------------
  // The normalize_output loops

  ghost predicate AgreesWithSource(sourceOf: Unit -> SourceOutput, resultType: string)
  {
    forall u {:trigger NormalizedSource(u, resultType)} :: sourceOf(u) == NormalizedSource(u, resultType)
  }

  ghost predicate AgreesWithSite(siteOf: SiteRecord -> SiteOutput, resultTypeOf: SiteRecord -> string)
  {
    forall r {:trigger NormalizedSite(r, resultTypeOf(r))} :: siteOf(r) == NormalizedSite(r, resultTypeOf(r))
  }

  /** normalize_source: the laststring loop over one source's results. */
  /** The loop of normalize_source over the de-duplicated matches. */
  method NormalizeResults(kept: seq<Match>) returns (results: seq<Normalized>)
    ensures results == Map(kept, NormalizeResult)
  {
    results := [];
    var k := 0;
    while k < |kept|
      invariant 0 <= k <= |kept|
      invariant results == Map(kept[..k], NormalizeResult)
    {
      results := results + [NormalizeResult(kept[k])];
      k := k + 1;
    }
    assert kept[..k] == kept;
  }

  method NormalizeSource(u: Unit, resultType: string, ghost sourceOf: Unit -> SourceOutput) returns (so: SourceOutput)
    requires AgreesWithSource(sourceOf, resultType)
    ensures so == sourceOf(u)
  {
    assert sourceOf(u) == NormalizedSource(u, resultType);
    var results: seq<Normalized> := [];
    match u.body {
    case OneText(s) =>
      results := [NText(s)];
    case Matches(items) =>
      var kept := KeepChanged(items, Key(""));
      results := NormalizeResults(kept);
    case _ =>
    }
    so := SourceOutput(u.source, resultType, results);
  }

  /** One site: a source per pattern. */
  method NormalizeSite(rec: SiteRecord, resultType: string, ghost unitsOf: SiteRecord -> seq<Unit>) returns (o: SiteOutput)
    requires AgreesWithUnits(unitsOf)
    ensures o == NormalizedSite(rec, resultType)
  {
    ghost var sourceOf := (u: Unit) => NormalizedSource(u, resultType);
    var units := SiteUnits(rec, unitsOf);
    var sources: seq<SourceOutput> := [];
    var j := 0;
    while j < |units|
      invariant 0 <= j <= |units|
      invariant |sources| == j && forall k | 0 <= k < j :: sources[k] == sourceOf(units[k])
    {
      var so := NormalizeSource(units[j], resultType, sourceOf);
      sources := sources + [so];
      j := j + 1;
    }
    assert units == Units(rec);
    o := SiteOutput(rec.target, rec.targetType, sources);
  }

  method NormalizeSites(recs: seq<SiteRecord>, resultTypeOf: SiteRecord -> string, ghost siteOf: SiteRecord -> SiteOutput)
    returns (outputs: seq<SiteOutput>)
    requires AgreesWithSite(siteOf, resultTypeOf)
    ensures |outputs| == |recs| && forall k | 0 <= k < |recs| :: outputs[k] == siteOf(recs[k])
  {
    UnitsAgree();
    outputs := [];
    var i := 0;
    while i < |recs|
      invariant 0 <= i <= |recs|
      invariant |outputs| == i && forall k | 0 <= k < i :: outputs[k] == siteOf(recs[k])
    {
      var o := NormalizeSite(recs[i], resultTypeOf(recs[i]), Units);
      outputs := outputs + [o];
      i := i + 1;
    }
  }

  /** normalize_output, run when the output class is constructed. */
  method NormalizeOutputRun(sites: Option<seq<SiteEntry>>, resultTypeOf: SiteRecord -> string) returns (r: Result<seq<SiteOutput>>)
    requires Readable(ListOfSites(sites))
    ensures r == NormalizeOutput(sites, resultTypeOf)
  {
    var sorted := SortedSites(ListOfSites(sites));
    if sorted.Failure? {
      return Failure(sorted.error);
    }
    ghost var siteOf := (rec: SiteRecord) => NormalizedSite(rec, resultTypeOf(rec));
    var outputs := NormalizeSites(sorted.value, resultTypeOf, siteOf);
    assert outputs == NormalizedSites(sorted.value, resultTypeOf);
    r := Success(outputs);
  }

  // ---------------------------------------------------------------------
  // hashOutput

  /** One `{'Type': ..., 'Result': ...}` entry. */
  datatype HashEntry = HashEntry(typ: string, result: Match)

  /** An entry and the target and source it is filed under. */
  datatype Placed = Placed(target: string, source: string, entry: HashEntry)

  type TargetHash = map<string, map<string, seq<HashEntry>>>

  /** get_hash: the inner table of a key, a fresh empty one when it is missing. */
  function GetHash(h: TargetHash, k: string): map<string, seq<HashEntry>>
  {
    if k in h then h[k] else map[]
  }

  /** get_array: the entry list of a key, a fresh empty one when it is missing. */
  function GetArray(h: map<string, seq<HashEntry>>, k: string): seq<HashEntry>
  {
    if k in h then h[k] else []
  }

  /** `get_array(get_hash(thash, tgt), source).append(entry)`. */
  function Insert(h: TargetHash, p: Placed): TargetHash
  {
    var inner := GetHash(h, p.target);
    h[p.target := inner[p.source := GetArray(inner, p.source) + [p.entry]]]
  }

  function InsertAll(h: TargetHash, ps: seq<Placed>): TargetHash
  {
    if |ps| == 0 then h else Insert(InsertAll(h, ps[..|ps| - 1]), ps[|ps| - 1])
  }

  /** The entries filed under a target and source, none when either key is missing. */
  function Lookup(h: TargetHash, t: string, s: string): seq<HashEntry>
  {
    if t in h && s in h[t] then h[t][s] else []
  }

  /** The entries of `ps` for one target and source, in order. */
  function EntriesAt(ps: seq<Placed>, t: string, s: string): seq<HashEntry>
  {
    if |ps| == 0 then []
    else
      var n := |ps| - 1;
      EntriesAt(ps[..n], t, s) + if ps[n].target == t && ps[n].source == s then [ps[n].entry] else []
  }

  /**
   * get_hash and get_array only create what is missing: an append keeps
   * every earlier entry and every key, and adds the one entry at its place.
   */
  lemma InsertKeeps(h: TargetHash, p: Placed, t: string, s: string)
    ensures Lookup(Insert(h, p), t, s) ==
      Lookup(h, t, s) + if p.target == t && p.source == s then [p.entry] else []
    ensures t in Insert(h, p) <==> t in h || t == p.target
    ensures t in Insert(h, p) && s in Insert(h, p)[t] <==> (t in h && s in h[t]) || (t == p.target && s == p.source)
  {
  }

  /**
   * The table built from a list of placed entries: a target and source are
   * present exactly when some entry is filed under them, and hold exactly
   * those entries in order.
   */
  lemma {:induction false} InsertAllLookup(ps: seq<Placed>, t: string, s: string)
    ensures Lookup(InsertAll(map[], ps), t, s) == EntriesAt(ps, t, s)
    ensures t in InsertAll(map[], ps) <==> exists k | 0 <= k < |ps| :: ps[k].target == t
    ensures t in InsertAll(map[], ps) && s in InsertAll(map[], ps)[t] <==> EntriesAt(ps, t, s) != []
  {
    if |ps| > 0 {
      var n := |ps| - 1;
      InsertAllLookup(ps[..n], t, s);
      InsertKeeps(InsertAll(map[], ps[..n]), ps[n], t, s);
      if exists k | 0 <= k < n :: ps[..n][k].target == t {
        var k :| 0 <= k < n && ps[..n][k].target == t;
        assert ps[k].target == t;
      }
      if exists k | 0 <= k < |ps| :: ps[k].target == t {
        var k :| 0 <= k < |ps| && ps[k].target == t;
        if k < n {
          assert ps[..n][k].target == t;
        }
      }
    }
  }

  lemma {:induction false} InsertAllAppend(h: TargetHash, a: seq<Placed>, b: seq<Placed>)
    ensures InsertAll(h, a + b) == InsertAll(InsertAll(h, a), b)
    decreases |b|
  {
    if |b| > 0 {
      assert (a + b)[..|a + b| - 1] == a + b[..|b| - 1];
      InsertAllAppend(h, a, b[..|b| - 1]);
    } else {
      assert a + b == a;
    }
  }

  /** The source a single-result site's list results are filed under: "UNK" for an empty name. */
  function HashSource(u: Unit): string
  {
    if !u.multi && u.source == "" then "UNK" else u.source
  }

  /**
   * The entries hashOutput files for one unit: the sentinel for an empty
   * pattern of a multi-result site, nothing for a single-result site without
   * results, the text, or every result not repeating the one before.
   */
  function HashUnitEntries(u: Unit): seq<Placed>
  {
    match u.body
    case NoResults => []
    case OneText(s) => [Placed(u.target, u.source, HashEntry(u.targetType, Str(s)))]
    case Matches(items) =>
      var src := HashSource(u);
      Map(Collapse(items, RowKey(u, src)), (m: Match) => Placed(u.target, src, HashEntry(u.targetType, m)))
    case _ => [Placed(u.target, u.source, HashEntry(u.targetType, Str(NoResultsFound)))]
  }

  function HashOutput(sites: Option<seq<SiteEntry>>): Result<TargetHash>
  {
    match SortedSites(ListOfSites(sites))
    case Failure(e) => Failure(e)
    case Success(recs) => Success(InsertAll(map[], FlatMap(AllUnits(recs), HashUnitEntries)))
  }

  function PlacedCells(p: Placed): seq<string>
  {
    [p.target, p.entry.typ, p.source, Show(p.entry.result)]
  }

  /**
   * The hash and the CSV file hold the same entries, except that a
   * single-result site without results gets no entry (the CSV file writes
   * the sentinel) and its list results are filed under "UNK" when it has
   * no name.
   */
  lemma HashAgreesWithCsv(u: Unit)
    ensures u.body.NoResults? ==> HashUnitEntries(u) == []
    ensures !u.body.NoResults? && (u.multi || !u.body.Matches? || u.source != "") ==>
      Map(HashUnitEntries(u), PlacedCells) == CsvUnitRows(u)
  {
    if u.body.Matches? && (u.multi || u.source != "") {
      assert HashSource(u) == u.source;
      var kept := Collapse(u.body.items, RowKey(u, u.source));
      var placed := HashUnitEntries(u);
      assert |placed| == |kept|;
      forall k | 0 <= k < |kept|
        ensures PlacedCells(placed[k]) == CsvLines(u, kept)[k]
      {
        assert placed[k] == Placed(u.target, u.source, HashEntry(u.targetType, kept[k]));
      }
    }
  }

  ghost predicate AgreesWithHash(entriesOf: Unit -> seq<Placed>)
  {
    forall u {:trigger HashUnitEntries(u)} :: entriesOf(u) == HashUnitEntries(u)
  }

  /** The laststring loop of hashOutput for one unit. */
  method HashUnit(u: Unit, ghost entriesOf: Unit -> seq<Placed>) returns (ps: seq<Placed>)
    requires AgreesWithHash(entriesOf)
    ensures ps == entriesOf(u)
  {
    assert entriesOf(u) == HashUnitEntries(u);
    match u.body
    case NoResults =>
      ps := [];
    case OneText(s) =>
      ps := [Placed(u.target, u.source, HashEntry(u.targetType, Str(s)))];
    case Matches(items) =>
      var src := if !u.multi && u.source == "" then "UNK" else u.source;
      var kept := KeepChanged(items, RowKey(u, src));
      ps := Map(kept, (m: Match) => Placed(u.target, src, HashEntry(u.targetType, m)));
    case _ =>
      ps := [Placed(u.target, u.source, HashEntry(u.targetType, Str(NoResultsFound)))];
  }

  /** Appends each entry through get_hash and get_array. */
  method AddEntries(h: TargetHash, ps: seq<Placed>) returns (h': TargetHash)
    ensures h' == InsertAll(h, ps)
  {
    h' := h;
    var k := 0;
    while k < |ps|
      invariant 0 <= k <= |ps|
      invariant h' == InsertAll(h, ps[..k])
    {
      assert ps[..k + 1][..k] == ps[..k];
      var inner := GetHash(h', ps[k].target);
      var arr := GetArray(inner, ps[k].source);
      h' := h'[ps[k].target := inner[ps[k].source := arr + [ps[k].entry]]];
      k := k + 1;
    }
    assert ps[..k] == ps;
  }

  /** The inner loop of hashOutput over one site's units. */
  method HashUnits(thash0: TargetHash, ghost done: seq<Placed>, units: seq<Unit>, ghost entriesOf: Unit -> seq<Placed>)
    returns (thash: TargetHash)
    requires AgreesWithHash(entriesOf)
    requires thash0 == InsertAll(map[], done)
    ensures thash == InsertAll(map[], done + FlatMap(units, entriesOf))
  {
    thash := thash0;
    assert done + FlatMap(units[..0], entriesOf) == done;
    var j := 0;
    while j < |units|
      invariant 0 <= j <= |units|
      invariant thash == InsertAll(map[], done + FlatMap(units[..j], entriesOf))
    {
      var ps := HashUnit(units[j], entriesOf);
      FlatMapStep(units, j, entriesOf);
      AppendAssoc(done, FlatMap(units[..j], entriesOf), ps);
      InsertAllAppend(map[], done + FlatMap(units[..j], entriesOf), ps);
      thash := AddEntries(thash, ps);
      j := j + 1;
    }
    assert units[..j] == units;
  }

  method HashSites(recs: seq<SiteRecord>, ghost unitsOf: SiteRecord -> seq<Unit>, ghost entriesOf: Unit -> seq<Placed>)
    returns (thash: TargetHash)
    requires AgreesWithUnits(unitsOf) && AgreesWithHash(entriesOf)
    ensures thash == InsertAll(map[], FlatMap(FlatMap(recs, unitsOf), entriesOf))
  {
    thash := map[];
    var i := 0;
    while i < |recs|
      invariant 0 <= i <= |recs|
      invariant thash == InsertAll(map[], FlatMap(FlatMap(recs[..i], unitsOf), entriesOf))
    {
      var units := SiteUnits(recs[i], unitsOf);
      thash := HashUnits(thash, FlatMap(FlatMap(recs[..i], unitsOf), entriesOf), units, entriesOf);
      FlatMapStep(recs, i, unitsOf);
      FlatMapAppend(FlatMap(recs[..i], unitsOf), units, entriesOf);
      i := i + 1;
    }
    assert recs[..i] == recs;
  }

  /** hashOutput: the table over the sorted sites. */
  method HashOutputRun(sites: Option<seq<SiteEntry>>) returns (r: Result<TargetHash>)
    requires Readable(ListOfSites(sites))
    ensures r == HashOutput(sites)
  {
    var sorted := SortedSites(ListOfSites(sites));
    if sorted.Failure? {
      return Failure(sorted.error);
    }
    UnitsAgree();
    assert AgreesWithHash(HashUnitEntries);
    var thash := HashSites(sorted.value, Units, HashUnitEntries);
    r := Success(thash);
  }
}
