# Automater in Dafny

A model of the core of TekDefense Automater, an OSINT tool. Automater takes
IP addresses, MD5 hashes and host names as targets. It asks a set of
configured web sites about each target and reports what the sites' patterns
found, as a result list, a nested hash, CSV, HTML or screen text.

The model covers:

- **Targets** (module `Utilities`, `utilities.py`).
  - `isIPorIPList` as written (always true) and as intended.
  - `getTarget`, a loop that builds what the generator yields. It covers:
    - CIDR expansion, including the end value clamped to the last octet, the
      XOR end value, and the address yielded twice when start equals end;
    - dash expansion;
    - a plain target passed through unchanged.
- **Sites** (module `SiteInfo`, `siteinfo.py`).
  - `identifyTargetType`.
  - The XML entry helpers.
  - A `Site` class whose setters and `addResults` update its fields:
    - `%TARGET%` substituted in the URL and the parameters;
    - the empty-to-None rule for results;
    - per-pattern result slots.
  - The four site variants as constructors over a record:
    - single-result;
    - multi-result;
    - post-capable, which splits off its probe pattern and has a post gate;
    - API-key.
  - `getImportantProperty`.
  - The facade's `runSiteAutomation`: filtering by source and site type,
    choosing the variant, and appending sites to the facade's list.
- **Shared fan-out** (module `Flatten`), the walk every consumer shares:
  - sites sorted stably by target;
  - one unit per pattern of a multi-result site, one for a single-result site;
  - the `laststring` rule, which drops a result only when it repeats the one
    just written;
  - the CSV rows, written the same way in both output classes.
- **Results** (module `AutomaterClass`, `AutomaterClass.py`). `GetResults`:
  refanging, target expansion, and rows of target, type, source and result.
- **Structured outputs** (module `AutomaterOutputs`, `automater_outputs.py`):
  - `normalize_result`;
  - `normalize_output`;
  - `hashOutput`, with its `get_hash`/`get_array` container helpers.
- **Printed outputs** (module `Outputs`, `outputs.py`). Each writer yields the
  sequence of lines or rows it produces:
  - HTML rows, with no deduplication;
  - screen lines, with a banner per target and `www.`/`http` defanged.

**How the model is built.**

- Every loop of the source is a `method` with a loop. It is proved equal to a
  function that specifies it. The properties the source promises are lemmas
  about those functions.
- The network is a `Web` value, so pages, POST answers and the matches of the
  configured patterns are inputs. It holds four functions:
  - `fetch`: the page at a URL, or None;
  - `post`: the body of the answer to a POST, which the API-key variant reads;
  - `postShown`: `str()` of the answer object itself, which is what the
    post-capable variant matches its patterns against;
  - `findall`: the matches of a pattern in a page.
- Python 2's `int()` on a string is `ParseInt`. It skips whitespace around
  the digits and accepts a sign.
- A Python exception is a `Failure` carrying the exception's name.
- The fixed address, MD5, CIDR and dash patterns are written out as character
  predicates.

**Where the code disagrees with its own comments or docstrings, the model
follows the code.** Examples:

- `isIPorIPList` accepts every string.
- A `/31` range yields its address twice.
- `GetResults` hands the unexpanded target list to the facade.

The defects listed under "## Findings" are each modelled twice. The code as
written gets a member that shows the failure. The evidently intended
behaviour is what the rest of the model uses.

## Model

| member | source | states |
|---|---|---|
| Utilities.IsIPorIPListAsWrittenAlwaysTrue | utilities.py:474-488 | isIPorIPList as written answers True for every target, because its first test joins "not None" with `or` |
| Utilities.IsIPorIPListHostName | utilities.py:474-488 | "example.com" is accepted as written but rejected by the intended test |
| Utilities.IsIPorIPListIffIPv4 | utilities.py:474-488 | the intended test (a CIDR, dash or plain address match) holds exactly when a plain address match occurs |
| Utilities.RangeMatchIsIPv4 | utilities.py:475-483 | every CIDR or dash match contains a plain address match |
| Utilities.RangeTextKind | utilities.py:508-514 | `a.b.c.d/p` is a CIDR target; `a.b.c.d-n` is a dash target and not a CIDR one |
| Utilities.QuadSplit | utilities.py:518-524 | splitting a dotted quad at "." gives back its four octets, so `iplist[3]` is the last octet |
| Utilities.CidrEnd | utilities.py:526-532 | end value: 0 for prefix 31 or above 32; the whole last octet (256) for prefix 24 or below; otherwise 2^(32-p), between 1 and 128 |
| Utilities.CidrEndAsWrittenRejectsWide | utilities.py:523-532 | as written, a prefix of 24 or below stores 256 in a byte, so the expansion raises ValueError |
| Utilities.CidrEndAgrees | utilities.py:526-532 | above prefix 24 the code as written and the corrected end value agree |
| Utilities.XorZero | utilities.py:534-536 | XOR with end 0 keeps the octet |
| Utilities.XorOne | utilities.py:534-536 | XOR with end 1 flips the lowest bit of the octet |
| Utilities.YieldCidr | utilities.py:534-546 | the CIDR loop yields exactly the addresses of the CIDR plan, or its error |
| Utilities.YieldDash | utilities.py:549-555 | the dash loop yields exactly the addresses of the dash plan, or its error |
| Utilities.GetTarget | utilities.py:507-558 | getTarget's loop yields exactly the target's expansion: CIDR first, then dash, then the target itself |
| Utilities.CidrExpandsTo | utilities.py:514-546 | every address a CIDR target expands to is the target's text up to its last dot followed by a value from 0 to 255, and there is at least one |
| Utilities.CidrPlanOf | utilities.py:518-525 | for `a.b.c.d/p`: ValueError when d exceeds 255 (the byte store), otherwise start d, prefix `a.b.c.` and the given prefix p |
| Utilities.DashPlanOf | utilities.py:549-551 | for `a.b.c.d-n`: first value d, last value n, prefix `a.b.c.` and the raw text of d |
| Utilities.CidrTrailingSpace | utilities.py:519-529 | `int()` ignores whitespace after the prefix length, so `a.b.c.d/p ` expands like `a.b.c.d/p` |
| Utilities.DashTrailingSpace | utilities.py:550-552 | `int()` ignores whitespace after the last value, so `a.b.c.d-n ` expands like `a.b.c.d-n` |
| Utilities.ExpandTargetAsWrittenAgrees | utilities.py:514-558 | whenever the expansion as written succeeds, it gives exactly the corrected expansion |
| Utilities.ExpandTargetAsWrittenRejectsWide | utilities.py:523-532 | a CIDR target with prefix 24 or below raises ValueError as written, where the corrected expansion succeeds |
| Common.ParseIntPadded | utilities.py:524-529 | `int()` reads digits with whitespace before and after as the digits' value |
| Common.ParseIntSigned | utilities.py:524-529 | `int()` reads a leading `-` as a negative value and a leading `+` as the value itself |
| Common.ParseIntChars | utilities.py:524-529 | a string `int()` accepts holds only digits, whitespace and signs |
| Common.ParseNatToString | utilities.py:541-546 | `int(str(n))` is n for every non-negative n |
| Utilities.CidrExpansion | utilities.py:514-546 | for `a.b.c.d/p`: ValueError when d exceeds 255, otherwise the addresses from d to the XOR-or-end value with prefix `a.b.c.` |
| Utilities.CidrWideCoversRest | utilities.py:526-544 | with the corrected end value, a prefix of 24 or below yields `a.b.c.d` through `a.b.c.255` in order |
| Utilities.CidrSlash31Twice | utilities.py:528-546 | prefix 31 makes start equal end, so the same address is yielded twice |
| Utilities.CidrSlash32 | utilities.py:532-546 | prefix 32 yields the address itself, once, for octets 2 to 255 |
| Utilities.DashExpandsTo | utilities.py:548-555 | a dash plan with start d and end n yields n-d+1 addresses d..n when d < n, else the single address ending in d |
| Utilities.DashExpansion | utilities.py:548-555 | for `a.b.c.d-n` with d < n: exactly n-d+1 addresses `a.b.c.d` .. `a.b.c.n`, ascending; with n <= d: only `a.b.c.d` |
| Utilities.ExpandNonAddress | utilities.py:556-558 | a target with no address in it is yielded unchanged, exactly once |
| SiteInfo.IPv4NeedsDot | siteinfo.py:155-157 | an address match needs a dot, so a dot-free string is never `ip` |
| SiteInfo.RangeTargetIsIp | siteinfo.py:155-158 | every CIDR or dash target is labelled `ip` |
| SiteInfo.Md5TargetIsMd5 | siteinfo.py:155-163 | a 32-character hex string is labelled `md5` |
| SiteInfo.HasIPv4Somewhere | siteinfo.py:155-157 | `re.findall` of the address pattern is non-empty exactly when a match starts at some index |
| SiteInfo.HasMd5Somewhere | siteinfo.py:159-161 | `re.findall` of the MD5 pattern is non-empty exactly when a match starts at some index |
| SiteInfo.HostnameIffNeither | siteinfo.py:155-165 | the label is `hostname` exactly when no index of the target starts a dotted quad or a run of 32 hex characters |
| SiteInfo.TypeNameInjective | siteinfo.py:155-165 | the three labels are distinct strings |
| SiteInfo.BuildStringOrListRoundTrip | siteinfo.py:355-366 | 0 entries give None, 1 gives the string, more give the list in order; the entries are recovered from the value and back |
| SiteInfo.BuildDictionary | siteinfo.py:391-398 | the loop gives None for no entries, otherwise the map of the entries |
| SiteInfo.DictOfKeys | siteinfo.py:392-395 | the map's keys are exactly the entries' keys |
| SiteInfo.DictOfLastWins | siteinfo.py:394-395 | for a repeated key, the last entry's value wins |
| SiteInfo.Site.constructor | siteinfo.py:265-291 | a new site holds its arguments, a substituted URL and parameters, and no results |
| SiteInfo.Site.SetFullURL | siteinfo.py:610-614 | the URL setter stores the template with every `%TARGET%` replaced by the target, and "" for an empty template |
| SiteInfo.FullURLPieces | siteinfo.py:610-612 | every `%TARGET%` occurrence in the template becomes the target, and nothing else changes; the pieces between occurrences may hold `%`, but not a `%TARGET%` of their own or one that overlaps the next occurrence |
| SiteInfo.FullURLResubstituted | siteinfo.py:610-612 | substituting again changes nothing when neither the pieces nor the target hold a `%` |
| SiteInfo.ResubstitutionCanChange | siteinfo.py:610-612 | with `%` in the pieces, a second substitution can change the URL: `%TA` and `ET%` joined by the target `RG` spell `%TARGET%` again |
| SiteInfo.Site.SetParams | siteinfo.py:676-682 | the parameter setter replaces values equal to `%TARGET%` and stores None for an empty map |
| SiteInfo.SubstituteParamsChanges | siteinfo.py:676-680 | keys are kept; only values exactly `%TARGET%` change, and they become the target |
| SiteInfo.SubstituteParamsIdempotent | siteinfo.py:676-680 | substituting twice gives the same parameters as once |
| SiteInfo.Site.AddResults | siteinfo.py:806-809 | addResults stores None for a missing or empty list, otherwise the list |
| SiteInfo.AddResultsThenRead | siteinfo.py:787-809 | after addResults, Results is None for a missing or empty list, otherwise exactly that list |
| SiteInfo.ResultsViewNeverEmpty | siteinfo.py:787-789 | Results never returns an empty value, and returns the stored value whenever it is non-empty |
| SiteInfo.Site.SeedSlots | siteinfo.py:1030 | a multi-result site starts with one empty slot per pattern |
| SiteInfo.Site.AddSlotResults | siteinfo.py:1056-1059 | addResults(r, i) sets slot i, to None when r is empty, and leaves every other slot unchanged |
| SiteInfo.ImportantPropertyAgrees | siteinfo.py:848-852 | when the named getter exists (Target, Results, FullURL, WebScrape, and Content on a post-capable site), getImportantProperty returns that getter's value |
| SiteInfo.ImportantPropertyWebScrape | siteinfo.py:848-852 | the property `WebScrape` gives the page at the full URL, or None when it cannot be read; `Content` gives the same on a post-capable site and takes the fallback on any other |
| SiteInfo.ImportantPropertyFallback | siteinfo.py:848-852 | with no such getter, the fallback raises TypeError as written; the corrected lookup gives the results |
| SiteInfo.ImportantPropertyLowerCase | siteinfo.py:848-852 | a property spelled `results` misses `getResults`, so it takes the fallback |
| SiteInfo.ApiKeyNeedsPostData | siteinfo.py:107-114 | without parameters and headers a site is single- or multi-result, whatever its API key |
| SiteInfo.BuildSiteFromXML | siteinfo.py:317-327 | a site built from a definition holds the definition's settings for the given type and target |
| SiteInfo.NewSingleResultsSite | siteinfo.py:960-970 | a single-result site holds the matches of its pattern on the fetched page |
| SiteInfo.NewMultiResultsSite | siteinfo.py:1022-1037 | a multi-result site fills slot i from pattern i; a non-list pattern raises TypeError |
| SiteInfo.MultiRecordSlots | siteinfo.py:1030-1037 | one slot per pattern; with no page a slot stays empty, otherwise it holds pattern i's matches or None |
| SiteInfo.StorePosted | siteinfo.py:1145-1151 | a posted page fills one slot per pattern for a list of names, or one result list for a single name |
| SiteInfo.NewPositiveCapableSite | siteinfo.py:1119-1151 | the post-capable constructor: early return for one pattern; probe, optional POST to the site's URL and storage otherwise |
| SiteInfo.PositiveCapableIgnoresBody | siteinfo.py:1296-1301 | a post-capable site never reads the body of a POST answer, only `str()` of the answer object |
| SiteInfo.PositiveCapableDropsProbe | siteinfo.py:1123-1136 | the first pattern is the probe, and the site keeps `RegEx[1:]` |
| SiteInfo.PositiveCapableNeverPostsByDefault | siteinfo.py:1251-1252 | without postbydefault the outcome does not depend on what a POST would give |
| SiteInfo.PositiveCapableNeedsPostData | siteinfo.py:1140-1142 | without both parameters and headers the outcome does not depend on what a POST would give |
| SiteInfo.NewApiKeySite | siteinfo.py:1333-1348 | the API-key site posts to its full URL when it has both parameters and headers, and stores the answer's matches; a failed or unsendable POST stores nothing |
| SiteInfo.ApiKeyNeedsBothPostData | siteinfo.py:1436-1445 | without parameters or without headers, submitPost raises inside its `try` and gives None, so the site keeps no results whatever the server would answer |
| SiteInfo.ApiKeyIgnoresPage | siteinfo.py:1333-1348 | the API-key site's results depend only on the POST's answer, never on the page at the full URL |
| SiteInfo.BuildVariant | siteinfo.py:106-114 | the facade builds the variant the decision table names |
| SiteInfo.BuildEntryKeeps | siteinfo.py:961-965 | every variant keeps the base site's target, type, names, report strings, property and URLs; its page is the one at its full URL, and it is a post-capable site exactly when the decision chose that class |
| SiteInfo.BuildForTarget | siteinfo.py:100-114 | a target gets a site only when its type is among the site types |
| SiteInfo.SiteTypeMatches | siteinfo.py:100-104 | the site-type loop finds a match exactly when the type is listed |
| SiteInfo.SiteFacade.constructor | siteinfo.py:66 | a new facade has no sites |
| SiteInfo.SiteFacade.AddDefinition | siteinfo.py:99-114 | one definition appends the sites of its targets in target order, stopping at the first exception |
| SiteInfo.SiteFacade.RunDefinitions | siteinfo.py:97-114 | the definitions loop appends the sites of each selected definition in order |
| SiteInfo.SiteFacade.RunSiteAutomation | siteinfo.py:95-114 | runSiteAutomation appends exactly the facade run's sites to the list, and reports its exception |
| SiteInfo.RunUnknownSource | siteinfo.py:98 | a source that is neither `allsources` nor a site's name builds nothing |
| SiteInfo.TargetsRunAfterError | siteinfo.py:99-106 | after an exception, the remaining targets add nothing |
| SiteInfo.RunAfterError | siteinfo.py:97-106 | after an exception, the remaining definitions add nothing |
| SiteInfo.BuildsTyped | siteinfo.py:101-106 | a built site carries its target and the type identified for it |
| SiteInfo.TargetsRunTyped | siteinfo.py:99-106 | every site of one definition is for one of the targets, with that target's type |
| SiteInfo.RunTyped | siteinfo.py:97-106 | every site the facade appends is for one of the targets, with that target's type |
| Flatten.SortByTargetSorted | AutomaterClass.py:39 | sorting by target gives ascending targets and a permutation of the sites |
| Flatten.SortByTargetStable | AutomaterClass.py:39 | the sort is stable: sites sharing a target keep their order |
| Flatten.SortedSitesFacts | AutomaterClass.py:39 | sorting None raises TypeError, a half-built site raises AttributeError, otherwise the sites come out sorted and permuted |
| Flatten.SortedAscending | AutomaterClass.py:39 | sorted sites have every target at most every later target |
| Flatten.ListOfSites | outputs.py:66-68 | the list of sites is None exactly when there is none or it is empty |
| Flatten.KeepChanged | AutomaterClass.py:64-72 | the laststring loop writes exactly the items whose key differs from the previous item's |
| Flatten.KeyCancel | AutomaterClass.py:70-72 | with the same target, type and source, two rows compare equal exactly when their results print the same |
| Flatten.CollapseEnds | AutomaterClass.py:64-72 | the last item written has the key of the last item seen, so laststring is always the previous item's key |
| Flatten.CollapseNoRepeats | AutomaterClass.py:64-72 | no two consecutive written results share a key |
| Flatten.CollapseCovers | AutomaterClass.py:64-72 | every result with a non-empty key is written at least once, so only consecutive repeats are dropped |
| Flatten.CollapseIdempotent | AutomaterClass.py:64-72 | deduplicating the written results again changes nothing |
| Flatten.CollapseSamePrefix | automater_outputs.py:244-247 | comparing with or without the target, type and source prefix drops the same results |
| Flatten.SiteUnits | AutomaterClass.py:42-44 | a site is walked per pattern when multi-result, once when single-result |
| Flatten.WriteCsvUnit | outputs.py:478-544 | one pattern's CSV rows: a "No results found" row when empty, otherwise one row per result kept by laststring |
| Flatten.WriteCsv | outputs.py:476-546 | the rows after the header are every unit's rows, site after site |
| Flatten.WriteCsvWith | outputs.py:476-546 | the CSV loop writes the header, then every unit's rows, site after site |
| Flatten.AllUnitsAscending | outputs.py:470-479 | units come out in ascending target order |
| Flatten.CsvRowsAscending | outputs.py:470-546 | the CSV rows after the header are in ascending target order |
| Flatten.PrintToCSVFile | outputs.py:456-547 | PrintToCSVFile writes exactly the CSV file's rows; it raises for no sites or a half-built one. PrintToCSVFileHandle in automater_outputs.py (lines 515-605) writes the same rows and is modelled by this member too |
| Flatten.CsvFileFacts | automater_outputs.py:529-534 | the CSV fails exactly for no sites or a half-built one; otherwise the header comes first, then rows in ascending target order |
| AutomaterClass.RefangClean | AutomaterClass.py:28 | a target without brackets is unchanged by refanging |
| AutomaterClass.RefangJoin | AutomaterClass.py:28 | labels joined by `[.]`, `{.}` or `(.)` come back joined by `.` |
| AutomaterClass.ExpansionIgnoresGuard | AutomaterClass.py:28-33 | expanding through the always-true guard equals the intended guard's result, so the guard bug is harmless |
| AutomaterClass.ExpandAllFixed | AutomaterClass.py:27-33 | targets that expand to themselves are listed one for one, in order |
| AutomaterClass.ExpandAllStops | AutomaterClass.py:27-33 | an exception while expanding any target aborts GetResults |
| AutomaterClass.ExpandAllPrefixFails | AutomaterClass.py:27-33 | once a target's expansion raises, later targets change nothing |
| AutomaterClass.ExpandOne | AutomaterClass.py:28-33 | one target: refang, then getTarget |
| AutomaterClass.ExpandTargets | AutomaterClass.py:27-33 | the expansion loop builds exactly the target list |
| AutomaterClass.ExpandTargetsWith | AutomaterClass.py:27-33 | the expansion loop appends each target's addresses in order |
| AutomaterClass.ExpansionAsWrittenAgrees | AutomaterClass.py:28-33 | when one target's expansion as written succeeds, it equals the corrected expansion |
| AutomaterClass.TargetListAsWrittenAgrees | AutomaterClass.py:27-33 | when the target list as written is built, it equals the corrected target list |
| AutomaterClass.ResultsAsWrittenNeverSucceed | AutomaterClass.py:27-37 | as written, GetResults always raises; once the targets are expanded (the same list as corrected), the facade call raises TypeError |
| AutomaterClass.ResultsAsWrittenWideCidr | AutomaterClass.py:27-33 | a CIDR target with prefix 24 or below makes GetResults as written raise ValueError while expanding, although the corrected expansion succeeds |
| AutomaterClass.ResultUnit | AutomaterClass.py:43-97 | one pattern's rows: none when empty, the text, or one row per result kept by laststring |
| AutomaterClass.CollectRows | AutomaterClass.py:41-97 | the row loop gives every unit's rows, site after site |
| AutomaterClass.CollectRowsWith | AutomaterClass.py:41-97 | the row loop gives every unit's rows, site after site |
| AutomaterClass.GetResults | AutomaterClass.py:24-98 | GetResults gives the result rows of the original target list's sites, or the exception raised |
| AutomaterClass.ResultsAscending | AutomaterClass.py:39-98 | the rows are grouped by target, in ascending target order |
| AutomaterClass.ResultsFail | AutomaterClass.py:27-41 | GetResults fails exactly when expansion fails, no site is built, or a site is half-built |
| AutomaterClass.CsvMatchesResults | AutomaterClass.py:46-97 | a unit's CSV rows are its result rows as cells; where GetResults writes nothing, the CSV has the sentinel row |
| AutomaterOutputs.NormalizeResultInverse | automater_outputs.py:210-214 | normalize_result turns a tuple into a list of its parts and keeps a string; it is invertible both ways |
| AutomaterOutputs.NormalizeOutputAsWrittenRaises | automater_outputs.py:216-262 | as written normalize_output never produces a source record: it succeeds only when no site has a pattern; for well-shaped sites with patterns and the property `Results` it raises AttributeError on `ResultType` |
| AutomaterOutputs.NormalizeSitesAsWrittenEmpty | automater_outputs.py:250-262 | the site loop as written, when it finishes, has seen only sites without patterns and gives one source-free record per site |
| AutomaterOutputs.NormalizeOutputAsWrittenUnknownName | automater_outputs.py:216-224 | a first site whose property names no method raises TypeError in getImportantProperty, before the result type is read |
| AutomaterOutputs.NormalizeOutputAsWrittenNoRegex | automater_outputs.py:256-257 | a first site with no patterns at all raises TypeError from `len(site.RegEx)` |
| AutomaterOutputs.NormalizeSingleDropsEarlier | automater_outputs.py:223-242 | as written, a single-result site keeps only its last result; the corrected one keeps both |
| AutomaterOutputs.NormalizeSingleTextRaises | automater_outputs.py:232-235 | as written, a string property raises NameError; the corrected one gives that string |
| AutomaterOutputs.NormalizedAgreesWithRows | automater_outputs.py:244-247 | a unit's normalized results, turned back, are GetResults' results for that unit |
| AutomaterOutputs.NormalizeResults | automater_outputs.py:244-247 | the result loop normalizes every kept result in order |
| AutomaterOutputs.NormalizeSource | automater_outputs.py:216-248 | normalize_source gives the unit's name, the result type and its normalized results |
| AutomaterOutputs.NormalizeSite | automater_outputs.py:252-261 | one site output: target, type and one source per unit |
| AutomaterOutputs.NormalizeSites | automater_outputs.py:250-262 | one site output per site, in order |
| AutomaterOutputs.NormalizeOutputRun | automater_outputs.py:207-262 | normalize_output gives exactly the corrected normalized output, or the sorting exception |
| AutomaterOutputs.NormalizeOutputShape | automater_outputs.py:250-262 | one output per site, ascending by target, with one source per pattern or exactly one for a single-result site |
| AutomaterOutputs.InsertKeeps | automater_outputs.py:281-292 | appending through get_hash/get_array adds the entry at its target and source and changes no other list |
| AutomaterOutputs.InsertAllLookup | automater_outputs.py:281-292 | after all appends, each target and source holds exactly its entries, in order; keys exist exactly when used |
| AutomaterOutputs.InsertAllAppend | automater_outputs.py:293-362 | appending two batches equals appending them one after the other |
| AutomaterOutputs.HashAgreesWithCsv | automater_outputs.py:293-362 | a single-result site with no results adds no entry, although the CSV writes a sentinel row; every other unit adds exactly its CSV rows, placed under its target and source |
| AutomaterOutputs.HashUnit | automater_outputs.py:295-362 | one unit's entries: the sentinel, the text, or one per kept result; the name becomes "UNK" when empty |
| AutomaterOutputs.AddEntries | automater_outputs.py:281-292 | the append loop gives the hash with every entry added in order |
| AutomaterOutputs.HashUnits | automater_outputs.py:296-333 | one site's loop adds its units' entries in order |
| AutomaterOutputs.HashSites | automater_outputs.py:293-362 | the site loop adds every unit's entries, site after site |
| AutomaterOutputs.HashOutputRun | automater_outputs.py:272-364 | hashOutput gives exactly the hash of every unit's entries, or the sorting exception |
| Outputs.CsvIsHtmlDeduplicated | outputs.py:570-631 | HTML writes one row per result with no deduplication; deduplicating its rows gives the CSV rows |
| Outputs.WriteHtmlUnit | outputs.py:570-631 | one unit's HTML table rows |
| Outputs.WriteHtmlWith | outputs.py:568-632 | the HTML loop writes every unit's rows, site after site |
| Outputs.PrintToHTMLFile | outputs.py:550-635 | PrintToHTMLFile writes exactly the HTML rows; it raises for no sites or a half-built one |
| Outputs.DefangLeavesNoHttp | outputs.py:252-255 | a printed result never contains `http` |
| Outputs.DefangClean | outputs.py:252-255 | a result with no `w` or `h` prints unchanged |
| Outputs.HeadersDistinct | outputs.py:206-239 | with units in ascending target order, a unit that prints a banner has a target different from every earlier unit's |
| Outputs.HeaderCovers | outputs.py:213-239 | every target printed has a banner at or before its first line |
| Outputs.ScreenHeadersOnce | outputs.py:206-239 | each target's banner is printed exactly once, before its results |
| Outputs.ScreenAgreesWithCsv | outputs.py:252-255 | a unit's printed results are its CSV results, defanged, after the report string |
| Outputs.PrintUnit | outputs.py:216-255 | one unit's lines: the empty-property, empty-slot or no-results message, or the defanged results |
| Outputs.PrintNext | outputs.py:236-255 | one unit: a banner when the target changes, then its lines |
| Outputs.PrintUnits | outputs.py:210-234 | the per-pattern loop prints every unit in order |
| Outputs.PrintWith | outputs.py:208-255 | the site loop prints every unit, site after site |
| Outputs.PrintToScreenNormal | outputs.py:192-257 | PrintToScreenNormal prints exactly the screen lines; it raises for no sites or a half-built one |

## Left out

- Network I/O is not modelled. This covers fetching and posting, proxies,
  openers, the user agent and `time.sleep` delays. The `Web` functions give
  a page or answer, or None for a failed connection.
- getWebScrape fetches the full URL again on every call. The model fetches it
  once, into the site record's `page`. The network is a fixed function of the
  URL, so every call would give the same page.
- The post-capable variant's `submitPost` sends its POST twice and matches the
  patterns against `str()` of the answer object, not the page body. The model
  follows the code: `postShown` is that text, and the first POST is visible
  only through a failure (None). The page body that was evidently meant (the
  API-key variant reads it with `page.read()`) is not what this variant
  stores.
- Matching of the configured site patterns is not modelled. The `Web`
  function `findall` is a parameter. A pattern that fails to compile is not
  modelled.
- The `postMessage` console messages and every other `print` outside the
  screen writer are left out.
- `inputs.py` (XML and target-file loading) is not part of this model.
  - Site definitions are already-parsed `Definition` records.
  - The facade does nothing when the sites file is missing, and that case is
    not modelled.
- `Automater.py` (the command line) is not part of this model. Nor are the
  argument parser in `utilities.py` and the unused `threading` import.
- CEF output, the text-file and bot screen writers, `PrintToScreen` in
  `automater_outputs.py`, the HTML template strings and `json.dumps` are not
  modelled. Each is a formatting variant of the same walk.
- `GetResults` takes the facade run as the parameter `automation`, applied to
  the original target list. The call in the source does not match the
  facade's signatures (see Findings).
- `AutomaterOutputs.NormalizeOutputRun` reads the result type of each site
  from the parameter `resultTypeOf`, because no site class defines
  `ResultType`.
- `Flatten.PrintToCSVFile`, `Outputs.PrintToHTMLFile`,
  `AutomaterClass.GetResults`, `AutomaterOutputs.HashOutputRun` and
  `AutomaterOutputs.NormalizeOutputRun` require every built site to be
  well-shaped (`Flatten.WellShaped`):
  - a single-result site has one name and a property that
    getImportantProperty(0) can read;
  - a multi-result site has a name entry for every pattern (a list, or a
    string read one character per pattern) and one slot per pattern;
  - on a multi-result site, every pattern's property gives the site's Results.

  `Outputs.PrintToScreenNormal` also needs a report string for each site
  (`Flatten.ScreenShaped`), since it is the only writer that reads
  ReportStringForResult. Other sites are not modelled. A missing name or
  report entry makes the source raise (IndexError, or TypeError for None or
  a list where a string is concatenated). A multi-result site whose property
  is a non-empty string (Target, FullURL or a page) takes the writers'
  string branch, which writes the whole name and not its entry for the
  pattern:
  - with a list of names, `"" + tgt + typ + source` raises TypeError;
  - with one string name, a pattern index at or past the property's length
    raises IndexError (`siteimpprop[index]`);
  - otherwise each pattern writes one row with the whole name and the whole
    string, and the model does not describe those rows.
- `AutomaterOutputs.HashAgreesWithCsv` does not relate a single-result site
  that has matches but an empty source name. There the hash files the entries
  under "UNK", while the CSV keeps the empty name.
- FullURLResubstituted covers only templates and targets without `%`.
  `SiteInfo.ResubstitutionCanChange` shows that, with `%` in the pieces, the
  second pass of the variants can change the URL. The general case is not
  stated.
- Python dictionaries and lists are values in the model. The in-place
  aliasing of `get_hash`/`get_array` is modelled by writing the updated inner
  list back into the map.
- Python 2 `str()` of a result is `Show`. It prints a tuple match in a fixed
  format, not byte for byte as Python does.

## Findings

| source | as written | input that shows it | evidently intended | confidence | as-written member | corrected member |
|---|---|---|---|---|---|---|
| utilities.py:477-482 | the CIDR and dash tests use `is not None or len(...) != 0`, so the method returns True for every string | `example.com` | True only for an address, CIDR or dash target | not executed | Utilities.IsIPorIPListAsWritten, Utilities.IsIPorIPListHostName | Utilities.IsIPorIPList, Utilities.IsIPorIPListIffIPv4 |
| utilities.py:523-532 | a prefix of 24 or below stores `pow(2, 8)` = 256 in a `bytearray`, which raises ValueError | `10.0.0.5/24` | the whole last octet from d up to 255 | not executed | Utilities.CidrEndAsWritten, Utilities.CidrEndAsWrittenRejectsWide, Utilities.ExpandTargetAsWrittenRejectsWide, AutomaterClass.ResultsAsWrittenWideCidr | Utilities.CidrEnd, Utilities.CidrWideCoversRest |
| siteinfo.py:849-852 | the getattr fallback is the unbound `Site.getResults`; calling it with no instance raises TypeError in Python 2 | importantproperty `results` (there is no `getresults`) | fall back to the site's own results | not executed | SiteInfo.ImportantPropertyAsWritten, SiteInfo.ImportantPropertyLowerCase | SiteInfo.ImportantProperty, SiteInfo.ImportantPropertyFallback |
| AutomaterClass.py:35-37 | `SiteFacade(self.Verbose)` passes an argument to a constructor that takes none, so the call raises TypeError | any target, e.g. `8.8.8.8` | run the facade on the targets and collect the rows | not executed | AutomaterClass.ResultsAsWritten, AutomaterClass.ResultsAsWrittenNeverSucceed | AutomaterClass.Results, AutomaterClass.GetResults |
| automater_outputs.py:221-225 | `site.ResultType` is read, but no site class defines it, so AttributeError is raised | a built site with a pattern and importantproperty `Results`, e.g. a single-result site for `8.8.8.8` | a result type for each source | not executed | AutomaterOutputs.NormalizeOutputAsWritten, AutomaterOutputs.NormalizeOutputAsWrittenRaises, AutomaterOutputs.NormalizeSitesAsWrittenEmpty | AutomaterOutputs.NormalizeOutput, AutomaterOutputs.NormalizeOutputRun |
| automater_outputs.py:223-242 | a single-result site uses index -1, so only `siteimpprop[-1]`, the last result, is normalized | results `["a", "x"]` | every result, deduplicated as in the other outputs | not executed | AutomaterOutputs.NormalizeSingleAsWritten, AutomaterOutputs.NormalizeSingleDropsEarlier | AutomaterOutputs.NormalizedResults, AutomaterOutputs.NormalizedAgreesWithRows |
| automater_outputs.py:235 | `siteimprop` is misspelled, so a string property raises NameError | importantproperty `Target` with target `8.8.8.8` | the string as the one result | not executed | AutomaterOutputs.NormalizeSingleAsWritten, AutomaterOutputs.NormalizeSingleTextRaises | AutomaterOutputs.NormalizedResults, AutomaterOutputs.NormalizeSource |
