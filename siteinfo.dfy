/**
 * siteinfo.py: classifying a target, reading a site definition, the Site
 * object with its placeholder substitutions and result storage, the four
 * site variants, and the facade that builds one site per matching pair of
 * definition and target.
 *
 * Fetching a page, posting to a site and applying a configured regular
 * expression to page content are the `fetch`, `post`, `postShown` and
 * `findall` functions of a `Web` value; none of them is interpreted.
 */
module SiteInfo {
  import opened Common
  import opened Utilities

  // ---------------------------------------------------------------------
  // identifyTargetType

  datatype TargetType = Ip | Md5 | Hostname

  /** The label the tool stores and prints for a target type. */
  function TypeName(t: TargetType): string
  {
    match t
    case Ip => "ip"
    case Md5 => "md5"
    case Hostname => "hostname"
  }

  /** `[a-fA-F0-9]{32}` matches at the start of `s`. */
  predicate Md5Start(s: string)
  {
    |s| >= 32 && forall i | 0 <= i < 32 :: IsHexDigit(s[i])
  }

  /** re.findall of the MD5 pattern is non-empty: a match starts at some position. */
  predicate HasMd5(s: string)
    decreases |s|
  {
    Md5Start(s) || (|s| > 0 && HasMd5(s[1..]))
  }

  /** An address anywhere wins over a hash; anything else is a host name. */
  function IdentifyTargetType(target: string): TargetType
  {
    if HasIPv4(target) then Ip
    else if HasMd5(target) then Md5
    else Hostname
  }

  /** An address match at the start of `s` contains a dot. */
  lemma IPv4StartHasDot(s: string)
    ensures IPv4Start(s) ==> '.' in s
  {
    if IPv4Start(s) {
      var n := DigitRun(s);
      assert OctetThen(s, '.').Some?;
      assert s[n] == '.';
    }
  }

  /** No address can be found in a text without dots. */
  lemma {:induction false} IPv4NeedsDot(s: string)
    ensures HasIPv4(s) ==> '.' in s
    decreases |s|
  {
    IPv4StartHasDot(s);
    if |s| > 0 {
      IPv4NeedsDot(s[1..]);
      assert forall k | 0 <= k < |s[1..]| :: s[1..][k] == s[k + 1];
    }
  }

  /** A CIDR or dash range is classified as an address. */
  lemma RangeTargetIsIp(target: string)
    requires HasCidr(target) || HasDash(target)
    ensures IdentifyTargetType(target) == Ip
  {
    RangeMatchIsIPv4(target, '/');
    RangeMatchIsIPv4(target, '-');
  }

  /** A hash of 32 hexadecimal characters, and nothing else, is classified md5. */
  lemma Md5TargetIsMd5(target: string)
    requires |target| == 32 && forall i | 0 <= i < 32 :: IsHexDigit(target[i])
    ensures IdentifyTargetType(target) == Md5
  {
    IPv4NeedsDot(target);
    assert Md5Start(target);
  }

  /** re.findall finds the MD5 pattern exactly when a match starts at some position. */
  lemma {:induction false} HasMd5Somewhere(s: string)
    ensures HasMd5(s) <==> exists i | 0 <= i <= |s| :: Md5Start(s[i..])
    decreases |s|
  {
    assert s[0..] == s;
    if |s| > 0 {
      HasMd5Somewhere(s[1..]);
      if HasMd5(s) && !Md5Start(s) {
        var i :| 0 <= i <= |s[1..]| && Md5Start(s[1..][i..]);
        assert s[1..][i..] == s[i + 1..];
      }
      if exists i | 0 <= i <= |s| :: Md5Start(s[i..]) {
        var i :| 0 <= i <= |s| && Md5Start(s[i..]);
        if i > 0 {
          assert s[1..][i - 1..] == s[i..];
        }
      }
    }
  }

  /** re.findall finds the address pattern exactly when a match starts at some position. */
  lemma {:induction false} HasIPv4Somewhere(s: string)
    ensures HasIPv4(s) <==> exists i | 0 <= i <= |s| :: IPv4Start(s[i..])
    decreases |s|
  {
    assert s[0..] == s;
    if |s| > 0 {
      HasIPv4Somewhere(s[1..]);
      if HasIPv4(s) && !IPv4Start(s) {
        var i :| 0 <= i <= |s[1..]| && IPv4Start(s[1..][i..]);
        assert s[1..][i..] == s[i + 1..];
      }
      if exists i | 0 <= i <= |s| :: IPv4Start(s[i..]) {
        var i :| 0 <= i <= |s| && IPv4Start(s[i..]);
        if i > 0 {
          assert s[1..][i - 1..] == s[i..];
        }
      }
    }
  }

  /**
   * A target is a host name exactly when neither the address pattern nor
   * the hash pattern matches at any position of it.
   */
  lemma HostnameIffNeither(target: string)
    ensures IdentifyTargetType(target) == Hostname <==>
      forall i | 0 <= i <= |target| :: !IPv4Start(target[i..]) && !Md5Start(target[i..])
  {
    HasIPv4Somewhere(target);
    HasMd5Somewhere(target);
  }

  /** The three labels are distinct, so the label determines the type. */
  lemma TypeNameInjective(a: TargetType, b: TargetType)
    requires TypeName(a) == TypeName(b)
    ensures a == b
  {
  }

  // ---------------------------------------------------------------------
  // Reading a site definition

  /**
   * buildStringOrListfromXML: no entries give None, one entry its text,
   * several entries the list of their texts in document order.
   */
  function BuildStringOrList(entries: seq<string>): StrOrList
  {
    if |entries| == 0 then Absent
    else if |entries| > 1 then List(entries)
    else Text(entries[0])
  }

  /** The entry texts a setting was read from. */
  function Entries(v: StrOrList): seq<string>
  {
    match v
    case Absent => []
    case Text(s) => [s]
    case List(items) => items
  }

  /** A list setting read from XML always has at least two entries. */
  predicate Canonical(v: StrOrList)
  {
    v.List? ==> |v.items| > 1
  }

  /** Building a setting from its entries loses nothing, and every canonical setting is built that way. */
  lemma BuildStringOrListRoundTrip(entries: seq<string>, v: StrOrList)
    ensures Entries(BuildStringOrList(entries)) == entries
    ensures Canonical(BuildStringOrList(entries))
    ensures Canonical(v) ==> BuildStringOrList(Entries(v)) == v
  {
  }

  /** The dictionary the assignments `d[key] = text` build, entry after entry. */
  function DictOf(entries: seq<(string, string)>): map<string, string>
  {
    if |entries| == 0 then map[]
    else DictOf(entries[..|entries| - 1])[entries[|entries| - 1].0 := entries[|entries| - 1].1]
  }

  /** buildDictionaryFromXML: None for no entries, otherwise the dictionary of all of them. */
  function DictionaryFor(entries: seq<(string, string)>): Option<map<string, string>>
  {
    if |entries| > 0 then Some(DictOf(entries)) else None
  }

  method BuildDictionary(entries: seq<(string, string)>) returns (r: Option<map<string, string>>)
    ensures r == DictionaryFor(entries)
  {
    if |entries| == 0 {
      return None;
    }
    var d: map<string, string> := map[];
    var i := 0;
    while i < |entries|
      invariant 0 <= i <= |entries|
      invariant d == DictOf(entries[..i])
    {
      assert entries[..i + 1][..i] == entries[..i];
      d := d[entries[i].0 := entries[i].1];
      i := i + 1;
    }
    assert entries[..i] == entries;
    return Some(d);
  }

  /** Every entry key, and nothing else, becomes a key of the dictionary. */
  lemma {:induction false} DictOfKeys(entries: seq<(string, string)>)
    ensures DictOf(entries).Keys == set e | e in entries :: e.0
  {
    if |entries| > 0 {
      var init := entries[..|entries| - 1];
      DictOfKeys(init);
      assert entries == init + [entries[|entries| - 1]];
    }
  }

  /** A key given more than once keeps the text of its last entry. */
  lemma {:induction false} DictOfLastWins(entries: seq<(string, string)>, i: nat)
    requires i < |entries|
    requires forall j | i < j < |entries| :: entries[j].0 != entries[i].0
    ensures entries[i].0 in DictOf(entries) && DictOf(entries)[entries[i].0] == entries[i].1
  {
    if i < |entries| - 1 {
      var init := entries[..|entries| - 1];
      DictOfLastWins(init, i);
    }
  }

  // ---------------------------------------------------------------------
  // %TARGET% substitution

  const Placeholder: string := "%TARGET%"

  /** The FullURL setter: every placeholder replaced by the target; an empty template stays empty. */
  function FullURLFor(template: string, target: string): string
  {
    if |template| > 0 then ReplaceAll(template, Placeholder, target) else ""
  }

  /**
   * A piece followed by `%` that holds no placeholder cannot start one
   * before the placeholder that follows it: the only `%` inside the
   * placeholder is at its two ends.
   */
  lemma PlaceholderNoOverlap(x: string)
    requires !Occurs(x + "%", Placeholder)
    ensures NoneStartsIn(x, Placeholder, Placeholder)
  {
    forall i | 0 <= i < |x|
      ensures !OccursAt(x + Placeholder, Placeholder, i)
    {
      var s := x + Placeholder;
      if i + |Placeholder| <= |x| + 1 {
        assert !OccursAt(x + "%", Placeholder, i);
        assert (x + "%")[i..i + |Placeholder|] == s[i..i + |Placeholder|];
      } else {
        var j := |x| - i;
        assert s[i..i + |Placeholder|][j] == s[|x|] == '%' != Placeholder[j];
      }
    }
  }

  /**
   * A template made of pieces joined by the placeholder becomes the pieces
   * joined by the target, as long as no piece holds the placeholder or
   * starts one that runs into the placeholder after it.
   */
  lemma FullURLPieces(pieces: seq<string>, target: string)
    requires forall k | 0 <= k < |pieces| - 1 :: !Occurs(pieces[k] + "%", Placeholder)
    requires |pieces| > 0 ==> !Occurs(pieces[|pieces| - 1], Placeholder)
    ensures FullURLFor(Join(pieces, Placeholder), target) == Join(pieces, target)
  {
    var template := Join(pieces, Placeholder);
    if |pieces| > 1 {
      assert |template| >= |Placeholder|;
    }
    if |template| > 0 {
      forall k | 0 <= k < |pieces| - 1
        ensures NoneStartsIn(pieces[k], Placeholder, Placeholder)
      {
        PlaceholderNoOverlap(pieces[k]);
      }
      ReplaceJoinSeparated(pieces, Placeholder, target);
    }
  }

  /**
   * The site variants pass the substituted URL through the setter a second
   * time; when neither the pieces nor the target hold a `%` that second pass
   * changes nothing.
   */
  lemma FullURLResubstituted(pieces: seq<string>, target: string)
    requires forall k | 0 <= k < |pieces| :: '%' !in pieces[k]
    requires '%' !in target
    ensures var once := FullURLFor(Join(pieces, Placeholder), target);
      FullURLFor(once, target) == once
  {
    forall k | 0 <= k < |pieces|
      ensures !Occurs(pieces[k] + "%", Placeholder) && !Occurs(pieces[k], Placeholder)
    {
      FreeHasNoOccurrence(pieces[k], Placeholder);
      NoPlaceholderBeforePercent(pieces[k]);
    }
    FullURLPieces(pieces, target);
    var once := Join(pieces, target);
    JoinFree(pieces, target, '%');
    if |once| > 0 {
      FreeHasNoOccurrence(once, Placeholder);
      ReplaceAbsent(once, Placeholder, target);
    }
  }

  /** A `%`-free text followed by one `%` holds no placeholder, which needs two. */
  lemma NoPlaceholderBeforePercent(x: string)
    requires '%' !in x
    ensures !Occurs(x + "%", Placeholder)
  {
    forall i: nat | i <= |x| + 1
      ensures !OccursAt(x + "%", Placeholder, i)
    {
      if i < |x| {
        assert (x + "%")[i] == x[i] != '%';
        assert (x + "%")[i..][0] == x[i];
      }
    }
  }

  /**
   * Without that restriction the second pass can change the URL: the pieces
   * `%TA` and `ET%` joined by the target `RG` spell the placeholder again.
   */
  lemma ResubstitutionCanChange()
    ensures var once := FullURLFor(Join(["%TA", "ET%"], Placeholder), "RG");
      once == Placeholder && FullURLFor(once, "RG") == "RG"
  {
    var pieces := ["%TA", "ET%"];
    assert !Occurs(pieces[1], Placeholder) by {
      forall i: nat | i <= |pieces[1]|
        ensures !OccursAt(pieces[1], Placeholder, i)
      {
      }
    }
    assert !Occurs(pieces[0] + "%", Placeholder) by {
      forall i: nat | i <= |pieces[0] + "%"|
        ensures !OccursAt(pieces[0] + "%", Placeholder, i)
      {
      }
    }
    FullURLPieces(pieces, "RG");
    assert Join(pieces, "RG") == Placeholder;
    assert OccursAt(Placeholder, Placeholder, 0);
  }

  /** The Params setter's loop: values equal to the placeholder become the target. */
  function SubstituteParams(params: map<string, string>, target: string): map<string, string>
  {
    map k | k in params :: if params[k] == Placeholder then target else params[k]
  }

  /**
   * The substitution keeps every key, replaces exactly the placeholder
   * values, and leaves every other value as it was.
   */
  lemma SubstituteParamsChanges(params: map<string, string>, target: string, k: string)
    requires k in params
    ensures SubstituteParams(params, target).Keys == params.Keys
    ensures params[k] != Placeholder ==> SubstituteParams(params, target)[k] == params[k]
    ensures params[k] == Placeholder ==> SubstituteParams(params, target)[k] == target
  {
  }

  /** Running the setter again on its own output, as the site variants do, changes nothing. */
  lemma SubstituteParamsIdempotent(params: map<string, string>, target: string)
    ensures SubstituteParams(SubstituteParams(params, target), target) == SubstituteParams(params, target)
  {
  }

  /** What the constructor stores for the parameters: None, or the substituted non-empty dictionary. */
  function ParamsFor(params: Option<map<string, string>>, target: string): Option<map<string, string>>
  {
    if params.Some? && |params.value| > 0 then Some(SubstituteParams(params.value, target)) else None
  }

  /** The Params and Headers getters: None for a missing or empty dictionary. */
  function DictView(d: Option<map<string, string>>): Option<map<string, string>>
  {
    if d.Some? && |d.value| > 0 then d else None
  }

  /** The APIKey getter: None for a missing or empty key. */
  function KeyView(k: StrOrList): StrOrList
  {
    match k
    case Absent => Absent
    case Text(s) => if |s| == 0 then Absent else k
    case List(items) => if |items| == 0 then Absent else k
  }

  // ---------------------------------------------------------------------
  // Stored results

  /**
   * The `_results` field: None, a flat list of matches (single-result
   * sites), or one slot per regular expression (multi-result sites), where a
   * slot is None or a list of matches.
   */
  datatype Stored = Nothing | Flat(items: seq<Match>) | Slots(slots: seq<Option<seq<Match>>>)

  function StoredLength(st: Stored): nat
  {
    match st
    case Nothing => 0
    case Flat(items) => |items|
    case Slots(slots) => |slots|
  }

  /** The Results getter: None when nothing or an empty list is stored. */
  function ResultsView(st: Stored): Option<Stored>
  {
    if StoredLength(st) == 0 then None else Some(st)
  }

  /** addResults: an absent or empty list of matches stores None. */
  function ForResults(found: Option<seq<Match>>): Stored
  {
    if found.None? || |found.value| == 0 then Nothing else Flat(found.value)
  }

  /** addResults of a multi-result site: the value stored in one slot. */
  function SlotFor(found: Option<seq<Match>>): Option<seq<Match>>
  {
    if found.None? || |found.value| == 0 then None else found
  }

  /** After addResults, Results gives back exactly a non-empty list, and None otherwise. */
  lemma AddResultsThenRead(found: Option<seq<Match>>)
    ensures ResultsView(ForResults(found)) ==
      if found.Some? && |found.value| > 0 then Some(Flat(found.value)) else None
  {
  }

  /** Results is never an empty list: it is None or what is stored. */
  lemma ResultsViewNeverEmpty(st: Stored)
    ensures ResultsView(st).Some? ==> ResultsView(st).value == st && StoredLength(st) > 0
    ensures ResultsView(st).None? <==> StoredLength(st) == 0
  {
  }

  // ---------------------------------------------------------------------
  // A site as a value

  /** The constructor's arguments. */
  datatype SiteArgs = SiteArgs(
    domainURL: string, targetType: string, reportString: StrOrList, target: string,
    friendlyName: StrOrList, regex: StrOrList, fullURL: string, importantProperty: StrOrList,
    params: Option<map<string, string>>, headers: Option<map<string, string>>, apiKey: StrOrList)

  /**
   * The fields of a Site object that the rest of the tool reads, with two
   * more: `page`, what getWebScrape gives when called (the page at the full
   * URL, None when it cannot be read; the network is a fixed function here,
   * so every call gives the same), and `postCapable`, whether the object is
   * a PostTransactionPositiveCapableSite, the one class with getContent.
   */
  datatype SiteRecord = SiteRecord(
    sourceURL: string, targetType: string, reportString: StrOrList, target: string,
    friendlyName: StrOrList, regex: StrOrList, fullURL: string, importantProperty: StrOrList,
    params: Option<map<string, string>>, headers: Option<map<string, string>>, apiKey: StrOrList,
    results: Stored, page: Option<string>, postCapable: bool)

  /** The fields of a newly constructed Site, for a network that serves `fetch`. */
  function Initial(a: SiteArgs, fetch: string -> Option<string>): SiteRecord
  {
    var fullURL := FullURLFor(a.fullURL, a.target);
    SiteRecord(a.domainURL, a.targetType, a.reportString, a.target, a.friendlyName, a.regex,
      fullURL, a.importantProperty, ParamsFor(a.params, a.target),
      a.headers, a.apiKey, Flat([]), fetch(fullURL), false)
  }

  /**
   * What a site variant passes to its own constructor: the base site's
   * fields as its getters return them, with the regular expressions given.
   */
  function ReinitArgs(base: SiteRecord, regex: StrOrList): SiteArgs
  {
    SiteArgs(base.sourceURL, base.targetType, base.reportString, base.target, base.friendlyName,
      regex, base.fullURL, base.importantProperty, DictView(base.params), DictView(base.headers),
      KeyView(base.apiKey))
  }

  // ---------------------------------------------------------------------
  // getImportantProperty

  /** What an accessor returns: a string (Target, FullURL, a page) or the Results value (None included). */
  datatype Prop = PText(s: string) | PResults(results: Option<Stored>)

  /** A page as an accessor returns it: the page's text, or None. */
  function PageProp(page: Option<string>): Prop
  {
    if page.Some? then PText(page.value) else PResults(None)
  }

  /** Python's `items[index]`, negative indices counting from the end. */
  function PyIndex(items: seq<string>, index: int): Result<string>
  {
    if 0 <= index < |items| then Success(items[index])
    else if -|items| <= index < 0 then Success(items[|items| + index])
    else Failure("IndexError")
  }

  /** The accessor name: the setting itself, or its entry at `index` when it is a list. */
  function AccessorName(prop: StrOrList, index: int): Result<string>
  {
    match prop
    case Absent => Failure("TypeError")
    case Text(s) => Success(s)
    case List(items) => PyIndex(items, index)
  }

  /**
   * The method `get<name>` of a site, called without arguments: None when the
   * object has no such method. getImportantProperty and getContentList need
   * an argument (TypeError); getWebScrape reads the page at the full URL, and
   * so does getContent, which only post-capable sites have.
   */
  function Accessor(rec: SiteRecord, name: string): Option<Result<Prop>>
  {
    if name == "Target" then Some(Success(PText(rec.target)))
    else if name == "Results" then Some(Success(PResults(ResultsView(rec.results))))
    else if name == "FullURL" then Some(Success(PText(rec.fullURL)))
    else if name == "WebScrape" then Some(Success(PageProp(rec.page)))
    else if name == "Content" && rec.postCapable then Some(Success(PageProp(rec.page)))
    else if name == "ImportantProperty" || name == "ContentList" then Some(Failure("TypeError"))
    else None
  }

  /**
   * getImportantProperty as written: an unknown name falls back to the
   * unbound `Site.getResults`, and calling that without an instance raises
   * TypeError.
   */
  function ImportantPropertyAsWritten(rec: SiteRecord, index: int): Result<Prop>
  {
    match AccessorName(rec.importantProperty, index)
    case Failure(e) => Failure(e)
    case Success(name) =>
      match Accessor(rec, name)
      case Some(r) => r
      case None => Failure("TypeError")
  }

  /** getImportantProperty as evidently intended: an unknown name gives the site's Results. */
  function ImportantProperty(rec: SiteRecord, index: int): Result<Prop>
  {
    match AccessorName(rec.importantProperty, index)
    case Failure(e) => Failure(e)
    case Success(name) =>
      match Accessor(rec, name)
      case Some(r) => r
      case None => Success(PResults(ResultsView(rec.results)))
  }

  /** The two readings agree on every name the site has a method for. */
  lemma ImportantPropertyAgrees(rec: SiteRecord, index: int)
    requires AccessorName(rec.importantProperty, index).Success?
    requires Accessor(rec, AccessorName(rec.importantProperty, index).value).Some?
    ensures ImportantPropertyAsWritten(rec, index) == ImportantProperty(rec, index)
  {
  }

  /** On an unknown name the code as written raises, where the fallback was meant to give the Results. */
  lemma ImportantPropertyFallback(rec: SiteRecord, index: int)
    requires AccessorName(rec.importantProperty, index).Success?
    requires Accessor(rec, AccessorName(rec.importantProperty, index).value).None?
    ensures ImportantPropertyAsWritten(rec, index) == Failure("TypeError")
    ensures ImportantProperty(rec, index) == Success(PResults(ResultsView(rec.results)))
  {
  }

  /**
   * The page getters: `WebScrape` gives the page at the full URL, or None
   * when it cannot be read, and so does `Content` on a post-capable site;
   * any other site has no getContent and takes the fallback.
   */
  lemma ImportantPropertyWebScrape(rec: SiteRecord, index: int)
    requires AccessorName(rec.importantProperty, index).Success?
    ensures var name := AccessorName(rec.importantProperty, index).value;
      (name == "WebScrape" || (name == "Content" && rec.postCapable)) ==>
        ImportantPropertyAsWritten(rec, index) == ImportantProperty(rec, index)
        && ImportantProperty(rec, index) == Success(if rec.page.Some? then PText(rec.page.value) else PResults(None))
    ensures var name := AccessorName(rec.importantProperty, index).value;
      (name == "Content" && !rec.postCapable) ==>
        ImportantPropertyAsWritten(rec, index) == Failure("TypeError")
        && ImportantProperty(rec, index) == Success(PResults(ResultsView(rec.results)))
  {
  }

  /** A concrete case: a site whose property names `results` in lower case. */
  lemma ImportantPropertyLowerCase(rec: SiteRecord)
    requires rec.importantProperty == Text("results")
    ensures ImportantPropertyAsWritten(rec, 0).Failure?
    ensures ImportantProperty(rec, 0) == Success(PResults(ResultsView(rec.results)))
  {
    assert "results" != "Results";
  }

  // ---------------------------------------------------------------------
  // The web, the post gate and the variant choice

  /**
   * The network and the regular-expression engine: `fetch` is the page at a
   * URL or None when it cannot be read; `post` is the body of the answer to
   * a POST and `postShown` the str() of the answer object itself (its
   * representation, not the page), both None on any failure; `findall` gives
   * the matches of a configured pattern in a page.
   */
  type Finder = (string, string) -> seq<Match>

  datatype Web = Web(
    fetch: string -> Option<string>,
    post: (string, Option<map<string, string>>, Option<map<string, string>>) -> Option<string>,
    postShown: (string, Option<map<string, string>>, Option<map<string, string>>) -> Option<string>,
    findall: Finder)

  /** getContentList of a single-result site: None when there is no page or the pattern is not a string. */
  function ContentList(regex: StrOrList, content: Option<string>, findall: Finder): Option<seq<Match>>
  {
    if content.Some? && regex.Text? then Some(findall(regex.s, content.value)) else None
  }

  /** getContentList of a multi-result site for one slot: the pattern at `index`, or None. */
  function ContentListAt(regex: StrOrList, index: nat, content: Option<string>, findall: Finder): Option<seq<Match>>
  {
    if content.None? then None
    else match regex
      case Absent => None
      case Text(s) => if index < |s| then Some(findall([s[index]], content.value)) else None
      case List(rs) => if index < |rs| then Some(findall(rs[index], content.value)) else None
  }

  /** `len(RegEx)`: None where Python raises TypeError (no pattern at all). */
  function EntryCount(v: StrOrList): Option<nat>
  {
    match v
    case Absent => None
    case Text(s) => Some(|s|)
    case List(items) => Some(|items|)
  }

  /** postIsNecessary: only when posting is allowed, and then exactly when the probe pattern matches. */
  function PostIsNecessary(postByDefault: bool, probe: string, content: string, findall: Finder): bool
  {
    postByDefault && |findall(probe, content)| > 0
  }

  datatype Variant = ApiKeySite | PositiveCapableSite | SingleResultsSite | MultiResultsSite

  /** The decision runSiteAutomation makes for a base site, from its getters. */
  function ChooseVariant(base: SiteRecord): Variant
  {
    var postable := DictView(base.params).Some? || DictView(base.headers).Some?;
    if postable && !KeyView(base.apiKey).Absent? then ApiKeySite
    else if postable then PositiveCapableSite
    else if base.regex.Text? then SingleResultsSite
    else MultiResultsSite
  }

  /** An API key alone does not make a site post: without parameters or headers it is fetched. */
  lemma ApiKeyNeedsPostData(base: SiteRecord)
    requires DictView(base.params).None? && DictView(base.headers).None?
    ensures ChooseVariant(base) in {SingleResultsSite, MultiResultsSite}
  {
  }

  // ---------------------------------------------------------------------
  // The Site object

  class Site {
    var sourceURL: string
    var targetType: string
    var reportString: StrOrList
    var target: string
    var friendlyName: StrOrList
    var regex: StrOrList
    var fullURL: string
    var importantProperty: StrOrList
    var params: Option<map<string, string>>
    var headers: Option<map<string, string>>
    var apiKey: StrOrList
    var results: Stored
    /** What getWebScrape gives for this object's full URL. */
    var page: Option<string>

    /** The object's fields as a value; the class is a plain Site. */
    function Record(): SiteRecord
      reads this
    {
      SiteRecord(sourceURL, targetType, reportString, target, friendlyName, regex, fullURL,
        importantProperty, params, headers, apiKey, results, page, false)
    }

    /** Site.__init__: the URL and parameters go through their setters, results start empty. */
    constructor (a: SiteArgs, fetch: string -> Option<string>)
      ensures Record() == Initial(a, fetch)
    {
      sourceURL := a.domainURL;
      targetType := a.targetType;
      reportString := a.reportString;
      target := a.target;
      friendlyName := a.friendlyName;
      regex := a.regex;
      fullURL := "";
      importantProperty := a.importantProperty;
      params := None;
      headers := a.headers;
      apiKey := a.apiKey;
      results := Flat([]);
      page := None;
      new;
      SetFullURL(a.fullURL);
      page := fetch(fullURL);
      if a.params.Some? {
        SetParams(a.params.value);
      }
    }

    /** The FullURL setter. */
    method SetFullURL(template: string)
      modifies this`fullURL
      ensures fullURL == FullURLFor(template, target)
    {
      if |template| > 0 {
        fullURL := ReplaceAll(template, Placeholder, target);
      } else {
        fullURL := "";
      }
    }

    /** The Params setter: the placeholder values are replaced one key at a time. */
    method SetParams(p: map<string, string>)
      modifies this`params
      ensures params == ParamsFor(Some(p), target)
    {
      if |p| > 0 {
        var q := p;
        var keys := p.Keys;
        while keys != {}
          invariant keys <= p.Keys && q.Keys == p.Keys
          invariant forall k | k in p :: q[k] == if k in keys then p[k] else SubstituteParams(p, target)[k]
          decreases |keys|
        {
          var k :| k in keys;
          if q[k] == Placeholder {
            q := q[k := target];
          }
          keys := keys - {k};
        }
        assert q.Keys == SubstituteParams(p, target).Keys;
        assert q == SubstituteParams(p, target);
        params := Some(q);
      } else {
        params := None;
      }
    }

    /** addResults of a single-result site. */
    method AddResults(found: Option<seq<Match>>)
      modifies this`results
      ensures results == ForResults(found)
    {
      if found.None? || |found.value| == 0 {
        results := Nothing;
      } else {
        results := Flat(found.value);
      }
    }

    /** `[[] for x in xrange(n)]`: one empty slot per pattern. */
    method SeedSlots(n: nat)
      modifies this`results
      ensures results == Slots(seq(n, _ => Some([])))
    {
      results := Slots(seq(n, _ => Some([])));
    }

    /** addResults of a multi-result site: only slot `index` changes. */
    method AddSlotResults(found: Option<seq<Match>>, index: nat)
      requires results.Slots? && index < |results.slots|
      modifies this`results
      ensures results == Slots(old(results.slots)[index := SlotFor(found)])
    {
      if found.None? || |found.value| == 0 {
        results := Slots(results.slots[index := None]);
      } else {
        results := Slots(results.slots[index := found]);
      }
    }
  }

  // ---------------------------------------------------------------------
  // The four variants

  /** The slots a MultiResultsSite fills: a slot keeps its empty list when there is no page. */
  function MultiSlots(regex: StrOrList, n: nat, content: Option<string>, findall: Finder): seq<Option<seq<Match>>>
  {
    seq(n, i requires 0 <= i < n =>
      var found := ContentListAt(regex, i, content, findall);
      if found.Some? then SlotFor(found) else Some([]))
  }

  /** The slots filled by the post-capable and API-key variants: every slot is assigned. */
  function PostedSlots(regex: StrOrList, n: nat, content: Option<string>, findall: Finder): seq<Option<seq<Match>>>
  {
    seq(n, i requires 0 <= i < n => SlotFor(ContentListAt(regex, i, content, findall)))
  }

  /** SingleResultsSite: fetch the page and store the matches of its one pattern. */
  function SingleRecord(base: SiteRecord, web: Web): SiteRecord
  {
    var s := Initial(ReinitArgs(base, base.regex), web.fetch);
    var found := ContentList(s.regex, web.fetch(s.fullURL), web.findall);
    if found.Some? then s.(results := ForResults(found)) else s
  }

  /** MultiResultsSite: one slot per pattern, each filled from the same page. */
  function MultiRecord(base: SiteRecord, web: Web): Result<SiteRecord>
  {
    var s := Initial(ReinitArgs(base, base.regex), web.fetch);
    match EntryCount(base.regex)
    case None => Failure("TypeError")
    case Some(n) => Success(s.(results := Slots(MultiSlots(s.regex, n, web.fetch(s.fullURL), web.findall))))
  }

  /** After the page, with the results shaped by whether the friendly name is a list. */
  function PostedResults(s: SiteRecord, content: string, findall: Finder): Result<SiteRecord>
  {
    if !s.friendlyName.Text? then
      match EntryCount(s.regex)
      case None => Failure("TypeError")
      case Some(n) => Success(s.(results := Slots(PostedSlots(s.regex, n, Some(content), findall))))
    else Success(s.(results := ForResults(ContentList(s.regex, Some(content), findall))))
  }

  /**
   * PostTransactionPositiveCapableSite: with a single pattern the
   * constructor returns before initialising anything; otherwise the first
   * pattern is the probe, the rest are the site's patterns, and the page is
   * replaced when the probe calls for a POST and both parameters and
   * headers are present. submitPost sends the POST to the site's URL (not
   * the full URL) twice and gives back str() of the answer object, not its
   * body, so the patterns are then matched against that text.
   */
  function PositiveCapableEntry(base: SiteRecord, postByDefault: bool, web: Web): Result<SiteEntry>
  {
    match base.regex
    case Text(_) => Success(Unbuilt)
    case Absent => Failure("TypeError")
    case List(rs) =>
      if |rs| == 0 then Failure("IndexError")
      else
        var s := Initial(ReinitArgs(base, List(rs[1..])), web.fetch).(postCapable := true);
        var fetched := web.fetch(s.fullURL);
        if fetched.None? then Success(Built(s))
        else
          var content :=
            if PostIsNecessary(postByDefault, rs[0], fetched.value, web.findall)
              && DictView(s.params).Some? && DictView(s.headers).Some?
            then web.postShown(s.sourceURL, DictView(s.params), DictView(s.headers))
            else fetched;
          if content.None? then Success(Built(s))
          else match PostedResults(s, content.value, web.findall)
            case Failure(e) => Failure(e)
            case Success(r) => Success(Built(r))
  }

  /**
   * The API-key variant's submitPost: the body of the answer to a POST to
   * the full URL. Without parameters `urlencode` raises, and without headers
   * the request does; the bare `except` turns either into None.
   */
  function ApiKeyPost(url: string, params: Option<map<string, string>>, headers: Option<map<string, string>>, web: Web): Option<string>
  {
    if params.Some? && headers.Some? then web.post(url, params, headers) else None
  }

  /** PostTransactionAPIKeySite: the page is the answer to a POST to the full URL, when the POST can be sent. */
  function ApiKeyRecord(base: SiteRecord, web: Web): Result<SiteRecord>
  {
    var s := Initial(ReinitArgs(base, base.regex), web.fetch);
    var content := ApiKeyPost(s.fullURL, DictView(s.params), DictView(s.headers), web);
    if content.None? then Success(s) else PostedResults(s, content.value, web.findall)
  }

  /**
   * What the facade appends for a base site: a built site, or an object
   * whose constructor returned early (a post-capable site with one pattern).
   */
  datatype SiteEntry = Built(site: SiteRecord) | Unbuilt

  function BuildEntry(base: SiteRecord, postByDefault: bool, web: Web): Result<SiteEntry>
  {
    match ChooseVariant(base)
    case ApiKeySite =>
      (match ApiKeyRecord(base, web) case Failure(e) => Failure(e) case Success(r) => Success(Built(r)))
    case PositiveCapableSite => PositiveCapableEntry(base, postByDefault, web)
    case SingleResultsSite => Success(Built(SingleRecord(base, web)))
    case MultiResultsSite =>
      (match MultiRecord(base, web) case Failure(e) => Failure(e) case Success(r) => Success(Built(r)))
  }

  method NewSingleResultsSite(base: SiteRecord, web: Web) returns (s: Site)
    ensures fresh(s) && s.Record() == SingleRecord(base, web)
  {
    s := new Site(ReinitArgs(base, base.regex), web.fetch);
    var found := ContentList(s.regex, web.fetch(s.fullURL), web.findall);
    if found.Some? {
      s.AddResults(found);
    }
  }

  /** Filling slot `i` of a list whose first `i` slots are final and the rest empty. */
  lemma SlotStep(slots: seq<Option<seq<Match>>>, i: nat)
    requires i < |slots|
    ensures (slots[..i] + seq(|slots| - i, _ => Some([])))[i := slots[i]]
      == slots[..i + 1] + seq(|slots| - (i + 1), _ => Some([]))
  {
  }

  method NewMultiResultsSite(base: SiteRecord, web: Web) returns (r: Result<Site>)
    ensures MultiRecord(base, web).Failure? ==> r == Failure(MultiRecord(base, web).error)
    ensures MultiRecord(base, web).Success? ==>
      r.Success? && fresh(r.value) && r.value.Record() == MultiRecord(base, web).value
  {
    var s := new Site(ReinitArgs(base, base.regex), web.fetch);
    var count := EntryCount(base.regex);
    if count.None? {
      return Failure("TypeError");
    }
    var n := count.value;
    s.SeedSlots(n);
    var content := web.fetch(s.fullURL);
    ghost var slots := MultiSlots(s.regex, n, content, web.findall);
    var index := 0;
    while index < n
      invariant 0 <= index <= n
      invariant s.Record() == Initial(ReinitArgs(base, base.regex), web.fetch).(results := s.results)
      invariant s.results == Slots(slots[..index] + seq(n - index, _ => Some([])))
    {
      var found := ContentListAt(s.regex, index, content, web.findall);
      if found.Some? {
        s.AddSlotResults(found, index);
      }
      SlotStep(slots, index);
      index := index + 1;
    }
    assert slots[..n] == slots;
    return Success(s);
  }

  /** Fill a post-capable or API-key site from the page: per-slot when the friendly name is not a string. */
  method StorePosted(s: Site, content: string, web: Web) returns (err: Option<string>)
    modifies s
    ensures var r := PostedResults(old(s.Record()), content, web.findall);
      if r.Failure? then err == Some(r.error) else err.None? && s.Record() == r.value
  {
    if !s.friendlyName.Text? {
      var count := EntryCount(s.regex);
      if count.None? {
        return Some("TypeError");
      }
      var n := count.value;
      s.SeedSlots(n);
      var index := 0;
      while index < n
        invariant 0 <= index <= n
        invariant s.Record() == old(s.Record()).(results := s.results)
        invariant s.results == Slots(PostedSlots(s.regex, n, Some(content), web.findall)[..index] + seq(n - index, _ => Some([])))
      {
        s.AddSlotResults(ContentListAt(s.regex, index, Some(content), web.findall), index);
        assert PostedSlots(s.regex, n, Some(content), web.findall)[..index + 1] ==
          PostedSlots(s.regex, n, Some(content), web.findall)[..index] + [PostedSlots(s.regex, n, Some(content), web.findall)[index]];
        index := index + 1;
      }
      assert PostedSlots(s.regex, n, Some(content), web.findall)[..n] == PostedSlots(s.regex, n, Some(content), web.findall);
    } else {
      s.AddResults(ContentList(s.regex, Some(content), web.findall));
    }
    return None;
  }

  method NewPositiveCapableSite(base: SiteRecord, postByDefault: bool, web: Web) returns (r: Result<SiteEntry>)
    ensures r == PositiveCapableEntry(base, postByDefault, web)
  {
    if base.regex.Text? {
      return Success(Unbuilt);
    } else if base.regex.Absent? {
      return Failure("TypeError");
    } else if |base.regex.items| == 0 {
      return Failure("IndexError");
    }
    var probe := base.regex.items[0];
    var s := new Site(ReinitArgs(base, List(base.regex.items[1..])), web.fetch);
    var content := web.fetch(s.fullURL);
    if content.Some? {
      if PostIsNecessary(postByDefault, probe, content.value, web.findall)
        && DictView(s.params).Some? && DictView(s.headers).Some?
      {
        content := web.postShown(s.sourceURL, DictView(s.params), DictView(s.headers));
      }
      if content.Some? {
        // The patterns are a list here, so storing cannot fail.
        var _ := StorePosted(s, content.value, web);
      }
    }
    return Success(Built(s.Record().(postCapable := true)));
  }

  method NewApiKeySite(base: SiteRecord, web: Web) returns (r: Result<SiteRecord>)
    ensures r == ApiKeyRecord(base, web)
  {
    var s := new Site(ReinitArgs(base, base.regex), web.fetch);
    var content := ApiKeyPost(s.fullURL, DictView(s.params), DictView(s.headers), web);
    if content.Some? {
      var err := StorePosted(s, content.value, web);
      if err.Some? {
        return Failure(err.value);
      }
    }
    return Success(s.Record());
  }

  /** The branch of runSiteAutomation that picks and builds the variant for a base site. */
  method BuildVariant(base: SiteRecord, postByDefault: bool, web: Web) returns (r: Result<SiteEntry>)
    ensures r == BuildEntry(base, postByDefault, web)
  {
    var postable := DictView(base.params).Some? || DictView(base.headers).Some?;
    if postable && !KeyView(base.apiKey).Absent? {
      var a := NewApiKeySite(base, web);
      r := if a.Failure? then Failure(a.error) else Success(Built(a.value));
    } else if postable {
      r := NewPositiveCapableSite(base, postByDefault, web);
    } else if base.regex.Text? {
      var s := NewSingleResultsSite(base, web);
      r := Success(Built(s.Record()));
    } else {
      var m := NewMultiResultsSite(base, web);
      r := if m.Failure? then Failure(m.error) else Success(Built(m.value.Record()));
    }
  }

  // ---------------------------------------------------------------------
  // Properties of the variants

  /**
   * A multi-result site has one slot per pattern; with a page, slot `i` is
   * None exactly when pattern `i` finds nothing, and otherwise its matches.
   */
  lemma MultiRecordSlots(base: SiteRecord, web: Web, i: nat)
    requires base.regex.List? && i < |base.regex.items|
    ensures MultiRecord(base, web).Success?
    ensures var r := MultiRecord(base, web).value;
      r.results.Slots? && |r.results.slots| == |base.regex.items|
      && var page := web.fetch(r.fullURL);
      && (page.None? ==> r.results.slots[i] == Some([]))
      && (page.Some? ==>
            var found := web.findall(base.regex.items[i], page.value);
            r.results.slots[i] == if |found| == 0 then None else Some(found))
  {
  }

  /** The probe pattern is dropped: a built post-capable site keeps the remaining patterns. */
  lemma PositiveCapableDropsProbe(base: SiteRecord, postByDefault: bool, web: Web)
    requires base.regex.List? && |base.regex.items| > 0
    requires PositiveCapableEntry(base, postByDefault, web).Success?
    ensures var e := PositiveCapableEntry(base, postByDefault, web).value;
      e.Built? && e.site.regex == List(base.regex.items[1..])
  {
  }

  /**
   * A post-capable site never reads the body of a POST answer: whatever the
   * network answers, only the str() of the answer object is matched.
   */
  lemma PositiveCapableIgnoresBody(base: SiteRecord, postByDefault: bool, web: Web, post: (string, Option<map<string, string>>, Option<map<string, string>>) -> Option<string>)
    ensures PositiveCapableEntry(base, postByDefault, web) == PositiveCapableEntry(base, postByDefault, web.(post := post))
  {
  }

  /**
   * Without the post option a post-capable site never posts: its result
   * does not depend on what a POST would give.
   */
  lemma PositiveCapableNeverPostsByDefault(base: SiteRecord, web: Web, postShown: (string, Option<map<string, string>>, Option<map<string, string>>) -> Option<string>)
    ensures PositiveCapableEntry(base, false, web) == PositiveCapableEntry(base, false, web.(postShown := postShown))
  {
  }

  /** Nor does it post when parameters or headers are missing, whatever the probe finds. */
  lemma PositiveCapableNeedsPostData(base: SiteRecord, postByDefault: bool, web: Web, postShown: (string, Option<map<string, string>>, Option<map<string, string>>) -> Option<string>)
    requires DictView(base.params).None? || DictView(base.headers).None?
    ensures PositiveCapableEntry(base, postByDefault, web) == PositiveCapableEntry(base, postByDefault, web.(postShown := postShown))
  {
    var s := Initial(ReinitArgs(base, base.regex), web.fetch);
    if base.params.Some? && |base.params.value| > 0 {
      assert |SubstituteParams(base.params.value, base.target)| > 0 by {
        var k :| k in base.params.value;
        assert k in SubstituteParams(base.params.value, base.target);
      }
    }
  }

  /**
   * The API-key variant with a missing parameters or headers dictionary
   * cannot send its POST: it keeps no results, whatever the answer would be.
   */
  lemma ApiKeyNeedsBothPostData(base: SiteRecord, web: Web, post: (string, Option<map<string, string>>, Option<map<string, string>>) -> Option<string>)
    requires DictView(base.params).None? || DictView(base.headers).None?
    ensures ApiKeyRecord(base, web) == ApiKeyRecord(base, web.(post := post))
    ensures ApiKeyRecord(base, web) == Success(Initial(ReinitArgs(base, base.regex), web.fetch))
  {
    var s := Initial(ReinitArgs(base, base.regex), web.fetch);
    if base.params.Some? && |base.params.value| > 0 {
      assert |SubstituteParams(base.params.value, base.target)| > 0 by {
        var k :| k in base.params.value;
        assert k in SubstituteParams(base.params.value, base.target);
      }
    }
    assert ApiKeyPost(s.fullURL, DictView(s.params), DictView(s.headers), web) == None;
  }

  /**
   * The API-key variant never scrapes: its results come from the POST's
   * answer alone, whatever the page at the full URL holds.
   */
  lemma ApiKeyIgnoresPage(base: SiteRecord, web: Web, fetch: string -> Option<string>)
    ensures ApiKeyRecord(base, web).Success? <==> ApiKeyRecord(base, web.(fetch := fetch)).Success?
    ensures ApiKeyRecord(base, web).Success? ==>
      ApiKeyRecord(base, web).value.results == ApiKeyRecord(base, web.(fetch := fetch)).value.results
  {
    var w := web.(fetch := fetch);
    var s, t := Initial(ReinitArgs(base, base.regex), web.fetch), Initial(ReinitArgs(base, base.regex), fetch);
    assert t == s.(page := t.page);
    var content := ApiKeyPost(s.fullURL, DictView(s.params), DictView(s.headers), web);
    assert content == ApiKeyPost(t.fullURL, DictView(t.params), DictView(t.headers), w);
  }

  /**
   * Every variant keeps the base site's target, type, names and URL (up to
   * a second substitution), reads its page from that URL, and is a
   * post-capable site exactly when the decision chose that class.
   */
  lemma BuildEntryKeeps(base: SiteRecord, postByDefault: bool, web: Web)
    requires BuildEntry(base, postByDefault, web).Success? && BuildEntry(base, postByDefault, web).value.Built?
    ensures var s := BuildEntry(base, postByDefault, web).value.site;
      s.target == base.target && s.targetType == base.targetType
      && s.friendlyName == base.friendlyName && s.reportString == base.reportString
      && s.importantProperty == base.importantProperty && s.sourceURL == base.sourceURL
      && s.fullURL == FullURLFor(base.fullURL, base.target)
      && s.page == web.fetch(s.fullURL)
      && (s.postCapable <==> ChooseVariant(base) == PositiveCapableSite)
  {
    var s := BuildEntry(base, postByDefault, web).value.site;
    match ChooseVariant(base) {
      case ApiKeySite => ApiKeyRecordKeeps(base, web);
      case PositiveCapableSite => PositiveCapableEntryKeeps(base, postByDefault, web);
      case SingleResultsSite =>
      case MultiResultsSite =>
    }
    assert s == Initial(ReinitArgs(base, s.regex), web.fetch).(results := s.results, postCapable := s.postCapable);
  }

  /** The API-key variant's record is its initial record with the results stored. */
  lemma ApiKeyRecordKeeps(base: SiteRecord, web: Web)
    requires ApiKeyRecord(base, web).Success?
    ensures var s := ApiKeyRecord(base, web).value;
      s == Initial(ReinitArgs(base, base.regex), web.fetch).(results := s.results)
  {
    var i := Initial(ReinitArgs(base, base.regex), web.fetch);
    var content := ApiKeyPost(i.fullURL, DictView(i.params), DictView(i.headers), web);
    if content.Some? {
      PostedResultsRefills(i, content.value, web.findall);
    }
  }

  /** A built post-capable site is its initial record, marked post-capable, with the results stored. */
  lemma PositiveCapableEntryKeeps(base: SiteRecord, postByDefault: bool, web: Web)
    requires PositiveCapableEntry(base, postByDefault, web).Success?
    requires PositiveCapableEntry(base, postByDefault, web).value.Built?
    ensures var s := PositiveCapableEntry(base, postByDefault, web).value.site;
      s == Initial(ReinitArgs(base, s.regex), web.fetch).(results := s.results, postCapable := true)
  {
    var i := Initial(ReinitArgs(base, List(base.regex.items[1..])), web.fetch).(postCapable := true);
    var fetched := web.fetch(i.fullURL);
    if fetched.Some? {
      var content :=
        if PostIsNecessary(postByDefault, base.regex.items[0], fetched.value, web.findall)
          && DictView(i.params).Some? && DictView(i.headers).Some?
        then web.postShown(i.sourceURL, DictView(i.params), DictView(i.headers))
        else fetched;
      if content.Some? {
        PostedResultsRefills(i, content.value, web.findall);
      }
    }
  }

  /** Storing the page's matches changes only the results. */
  lemma PostedResultsRefills(s: SiteRecord, content: string, findall: Finder)
    requires PostedResults(s, content, findall).Success?
    ensures PostedResults(s, content, findall).value == s.(results := PostedResults(s, content, findall).value.results)
  {
  }

  // ---------------------------------------------------------------------
  // The facade

  /** A `site` element of the definitions file, as entry lists. */
  datatype Definition = Definition(
    name: string, siteTypes: seq<string>, domainURL: string, fullURL: string,
    reportString: seq<string>, friendlyName: seq<string>, regex: seq<string>,
    importantProperty: seq<string>, params: seq<(string, string)>, headers: seq<(string, string)>,
    apiKey: seq<string>)

  /** buildSiteFromXML: the constructor arguments read from a definition. */
  function DefinitionArgs(d: Definition, targetType: string, target: string): SiteArgs
  {
    SiteArgs(d.domainURL, targetType, BuildStringOrList(d.reportString), target,
      BuildStringOrList(d.friendlyName), BuildStringOrList(d.regex), d.fullURL,
      BuildStringOrList(d.importantProperty), DictionaryFor(d.params), DictionaryFor(d.headers),
      BuildStringOrList(d.apiKey))
  }

  method BuildSiteFromXML(d: Definition, targetType: string, target: string, fetch: string -> Option<string>) returns (s: Site)
    ensures fresh(s) && s.Record() == Initial(DefinitionArgs(d, targetType, target), fetch)
  {
    var params := BuildDictionary(d.params);
    var headers := BuildDictionary(d.headers);
    s := new Site(SiteArgs(d.domainURL, targetType, BuildStringOrList(d.reportString), target,
      BuildStringOrList(d.friendlyName), BuildStringOrList(d.regex), d.fullURL,
      BuildStringOrList(d.importantProperty), params, headers, BuildStringOrList(d.apiKey)), fetch);
  }

  /** The sites appended so far, and the exception that stopped the run, if any. */
  datatype Outcome = Outcome(entries: seq<SiteEntry>, error: Option<string>)

  /** The site a definition gives for one target: none unless the target's type is listed. */
  function TargetEntry(d: Definition, target: string, postByDefault: bool, web: Web): Option<Result<SiteEntry>>
  {
    var typ := TypeName(IdentifyTargetType(target));
    if typ in d.siteTypes then Some(BuildEntry(Initial(DefinitionArgs(d, typ, target), web.fetch), postByDefault, web))
    else None
  }

  /** What one definition gives for one target: nothing, a site, or an exception. */
  type EntryFor = (Definition, string) -> Option<Result<SiteEntry>>

  /** The builder runSiteAutomation uses, for a post option and a network. */
  function Builds(postByDefault: bool, web: Web): EntryFor
  {
    (d: Definition, t: string) => TargetEntry(d, t, postByDefault, web)
  }

  /**
   * `build` gives what TargetEntry gives. The trigger keeps the verifier from
   * expanding the builder wherever it is applied: the facade's loops reason
   * about the builder abstractly and only the step that builds a site looks inside.
   */
  ghost predicate AgreesWithTargetEntry(build: EntryFor, postByDefault: bool, web: Web)
  {
    forall d, t {:trigger TargetEntry(d, t, postByDefault, web)} :: build(d, t) == TargetEntry(d, t, postByDefault, web)
  }

  lemma BuildsAgrees(postByDefault: bool, web: Web)
    ensures AgreesWithTargetEntry(Builds(postByDefault, web), postByDefault, web)
  {
  }

  /** The inner loop of runSiteAutomation: one definition over the targets, in order, stopping at an exception. */
  function TargetsRun(d: Definition, targets: seq<string>, build: EntryFor): Outcome
  {
    if |targets| == 0 then Outcome([], None)
    else
      var o := TargetsRun(d, targets[..|targets| - 1], build);
      if o.error.Some? then o
      else match build(d, targets[|targets| - 1])
        case None => o
        case Some(Failure(e)) => Outcome(o.entries, Some(e))
        case Some(Success(entry)) => Outcome(o.entries + [entry], None)
  }

  predicate SourceSelects(source: string, d: Definition)
  {
    source == "allsources" || source == d.name
  }

  /** runSiteAutomation: the definitions in file order, each selected one over all targets. */
  function Run(defs: seq<Definition>, targets: seq<string>, source: string, build: EntryFor): Outcome
  {
    if |defs| == 0 then Outcome([], None)
    else
      var o := Run(defs[..|defs| - 1], targets, source, build);
      var d := defs[|defs| - 1];
      if o.error.Some? || !SourceSelects(source, d) then o
      else
        var p := TargetsRun(d, targets, build);
        Outcome(o.entries + p.entries, p.error)
  }

  /** Once an exception is raised the inner loop adds nothing more. */
  lemma {:induction false} TargetsRunAfterError(d: Definition, targets: seq<string>, j: nat, build: EntryFor)
    requires j <= |targets| && TargetsRun(d, targets[..j], build).error.Some?
    ensures TargetsRun(d, targets, build) == TargetsRun(d, targets[..j], build)
    decreases |targets| - j
  {
    if j < |targets| {
      var n := |targets|;
      assert targets[..n - 1][..j] == targets[..j];
      TargetsRunAfterError(d, targets[..n - 1], j, build);
    } else {
      assert targets[..j] == targets;
    }
  }

  /** Once an exception is raised the outer loop adds nothing more. */
  lemma RunStep(defs: seq<Definition>, i: nat, targets: seq<string>, source: string, build: EntryFor)
    requires i < |defs|
    ensures var o := Run(defs[..i], targets, source, build);
      Run(defs[..i + 1], targets, source, build) ==
        if o.error.Some? || !SourceSelects(source, defs[i]) then o
        else Outcome(o.entries + TargetsRun(defs[i], targets, build).entries, TargetsRun(defs[i], targets, build).error)
  {
    assert defs[..i + 1][..i] == defs[..i];
  }

  lemma {:induction false} RunAfterError(defs: seq<Definition>, i: nat, targets: seq<string>, source: string, build: EntryFor)
    requires i <= |defs| && Run(defs[..i], targets, source, build).error.Some?
    ensures Run(defs, targets, source, build) == Run(defs[..i], targets, source, build)
    decreases |defs| - i
  {
    if i < |defs| {
      var n := |defs|;
      assert defs[..n - 1][..i] == defs[..i];
      RunAfterError(defs[..n - 1], i, targets, source, build);
    } else {
      assert defs[..i] == defs;
    }
  }

  class SiteFacade {
    var sites: seq<SiteEntry>

    constructor ()
      ensures sites == []
    {
      sites := [];
    }

    /** The Sites property: None while no site has been built. */
    function Sites(): Option<seq<SiteEntry>>
      reads this
    {
      if |sites| == 0 then None else Some(sites)
    }

    method RunSiteAutomation(defs: seq<Definition>, targets: seq<string>, source: string, postByDefault: bool, web: Web)
      returns (error: Option<string>)
      modifies this
      ensures var o := Run(defs, targets, source, Builds(postByDefault, web));
        sites == old(sites) + o.entries && error == o.error
    {
      BuildsAgrees(postByDefault, web);
      error := RunDefinitions(defs, targets, source, postByDefault, web, Builds(postByDefault, web));
    }

    /** The outer loop, proved for any builder that agrees with TargetEntry. */
    method RunDefinitions(defs: seq<Definition>, targets: seq<string>, source: string, postByDefault: bool, web: Web, ghost build: EntryFor)
      returns (error: Option<string>)
      requires AgreesWithTargetEntry(build, postByDefault, web)
      modifies this
      ensures var o := Run(defs, targets, source, build);
        sites == old(sites) + o.entries && error == o.error
    {
      var i := 0;
      while i < |defs|
        invariant 0 <= i <= |defs|
        invariant var o := Run(defs[..i], targets, source, build);
          o.error.None? && sites == old(sites) + o.entries
      {
        RunStep(defs, i, targets, source, build);
        if SourceSelects(source, defs[i]) {
          ghost var before := sites;
          error := AddDefinition(defs[i], targets, postByDefault, web, build);
          AppendAssoc(old(sites), Run(defs[..i], targets, source, build).entries, sites[|before|..]);
          if error.Some? {
            RunAfterError(defs, i + 1, targets, source, build);
            return;
          }
        }
        i := i + 1;
      }
      assert defs[..i] == defs;
      return None;
    }

    /** The inner loop of runSiteAutomation for one selected definition. */
    method AddDefinition(d: Definition, targets: seq<string>, postByDefault: bool, web: Web, ghost build: EntryFor)
      returns (error: Option<string>)
      requires AgreesWithTargetEntry(build, postByDefault, web)
      modifies this
      ensures var o := TargetsRun(d, targets, build);
        sites == old(sites) + o.entries && error == o.error
    {
      var j := 0;
      while j < |targets|
        invariant 0 <= j <= |targets|
        invariant var o := TargetsRun(d, targets[..j], build);
          o.error.None? && sites == old(sites) + o.entries
      {
        assert targets[..j + 1][..j] == targets[..j];
        var entry := BuildForTarget(d, targets[j], postByDefault, web, build);
        if entry.Some? {
          if entry.value.Failure? {
            TargetsRunAfterError(d, targets, j + 1, build);
            return Some(entry.value.error);
          }
          sites := sites + [entry.value.value];
        }
        j := j + 1;
      }
      assert targets[..j] == targets;
      return None;
    }
  }

  /** One step of the inner loop: the site a definition gives for a target, built as an object. */
  method BuildForTarget(d: Definition, target: string, postByDefault: bool, web: Web, ghost build: EntryFor)
    returns (r: Option<Result<SiteEntry>>)
    requires AgreesWithTargetEntry(build, postByDefault, web)
    ensures r == build(d, target)
  {
    assert build(d, target) == TargetEntry(d, target, postByDefault, web);
    var typ := TypeName(IdentifyTargetType(target));
    var matched := SiteTypeMatches(d.siteTypes, typ);
    if !matched {
      return None;
    }
    var base := BuildSiteFromXML(d, typ, target, web.fetch);
    var entry := BuildVariant(base.Record(), postByDefault, web);
    return Some(entry);
  }

  /** The scan over a definition's site types for the target's type. */
  method SiteTypeMatches(siteTypes: seq<string>, typ: string) returns (matched: bool)
    ensures matched <==> typ in siteTypes
  {
    matched := false;
    var k := 0;
    while k < |siteTypes|
      invariant 0 <= k <= |siteTypes|
      invariant matched <==> typ in siteTypes[..k]
    {
      assert siteTypes[..k + 1] == siteTypes[..k] + [siteTypes[k]];
      if siteTypes[k] == typ {
        matched := true;
      }
      k := k + 1;
    }
    assert siteTypes[..k] == siteTypes;
  }

  // ---------------------------------------------------------------------
  // Properties of the facade

  /** A source that names no definition builds nothing. */
  lemma {:induction false} RunUnknownSource(defs: seq<Definition>, targets: seq<string>, source: string, build: EntryFor)
    requires source != "allsources" && forall k | 0 <= k < |defs| :: defs[k].name != source
    ensures Run(defs, targets, source, build) == Outcome([], None)
  {
    if |defs| > 0 {
      RunUnknownSource(defs[..|defs| - 1], targets, source, build);
    }
  }

  /** Each built site in `es` is for one of the targets and carries that target's type. */
  predicate Typed(es: seq<SiteEntry>, targets: seq<string>)
  {
    forall k | 0 <= k < |es| && es[k].Built? ::
      es[k].site.target in targets && es[k].site.targetType == TypeName(IdentifyTargetType(es[k].site.target))
  }

  lemma TypedAppend(a: seq<SiteEntry>, b: seq<SiteEntry>, targets: seq<string>)
    requires Typed(a, targets) && Typed(b, targets)
    ensures Typed(a + b, targets)
  {
    forall k | 0 <= k < |a + b| && (a + b)[k].Built?
      ensures (a + b)[k].site.target in targets
      ensures (a + b)[k].site.targetType == TypeName(IdentifyTargetType((a + b)[k].site.target))
    {
      if k >= |a| {
        assert (a + b)[k] == b[k - |a|];
      }
    }
  }

  /** A builder is typed when every site it builds is for the target it was given, labelled with that target's type. */
  ghost predicate TypedBuilder(build: EntryFor)
  {
    forall d, t :: build(d, t).Some? && build(d, t).value.Success? && build(d, t).value.value.Built? ==>
      build(d, t).value.value.site.target == t
      && build(d, t).value.value.site.targetType == TypeName(IdentifyTargetType(t))
  }

  /** The site one definition builds for one target is for that target and carries its type. */
  lemma BuildsTyped(postByDefault: bool, web: Web)
    ensures TypedBuilder(Builds(postByDefault, web))
  {
    forall d, t | TargetEntry(d, t, postByDefault, web).Some? && TargetEntry(d, t, postByDefault, web).value.Success?
      && TargetEntry(d, t, postByDefault, web).value.value.Built?
      ensures TargetEntry(d, t, postByDefault, web).value.value.site.target == t
      ensures TargetEntry(d, t, postByDefault, web).value.value.site.targetType == TypeName(IdentifyTargetType(t))
    {
      var typ := TypeName(IdentifyTargetType(t));
      BuildEntryKeeps(Initial(DefinitionArgs(d, typ, t), web.fetch), postByDefault, web);
    }
  }

  /** With a typed builder, each built site of one definition is for one of the targets, labelled with its type. */
  lemma {:induction false} TargetsRunTyped(d: Definition, targets: seq<string>, build: EntryFor)
    requires TypedBuilder(build)
    ensures Typed(TargetsRun(d, targets, build).entries, targets)
  {
    if |targets| > 0 {
      var init := targets[..|targets| - 1];
      var t := targets[|targets| - 1];
      var o := TargetsRun(d, init, build);
      TargetsRunTyped(d, init, build);
      assert Typed(o.entries, targets) by {
        assert forall x | x in init :: x in targets;
      }
      var r := build(d, t);
      if o.error.None? && r.Some? && r.value.Success? {
        TypedAppend(o.entries, [r.value.value], targets);
      }
    }
  }

  /** Every site runSiteAutomation builds is for one of the targets and carries that target's type. */
  lemma {:induction false} RunTyped(defs: seq<Definition>, targets: seq<string>, source: string, build: EntryFor)
    requires TypedBuilder(build)
    ensures Typed(Run(defs, targets, source, build).entries, targets)
  {
    if |defs| > 0 {
      var init := defs[..|defs| - 1];
      RunTyped(init, targets, source, build);
      TargetsRunTyped(defs[|defs| - 1], targets, build);
      TypedAppend(Run(init, targets, source, build).entries, TargetsRun(defs[|defs| - 1], targets, build).entries, targets);
    }
  }
}
