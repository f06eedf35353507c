/** Sitemap discovery (src/services/SitemapDiscoveryService.ts): URL
    normalisation, `Sitemap:` extraction from robots.txt, the classification
    inside `validateSitemap`, and the staged `discover` run (direct, robots.txt,
    common paths, one level of index expansion).

    The `URL` constructor is the parameter `parseUrl` (`None` where it throws,
    otherwise the serialised URL); the proxied fetch is `fetch` (`None` where it
    throws); the XML parser's output is an `XmlParseOutcome`. */
module SitemapDiscovery {
  import opened Wrappers
  import opened Text

  datatype SitemapKind = Single | Index

  datatype SitemapSource = Robots | Direct | Discovered

  /** `children` is present exactly on index locations. */
  datatype SitemapLocation = SitemapLocation(
    url: string,
    kind: SitemapKind,
    source: SitemapSource,
    children: Option<seq<string>>)

  const COMMON_SITEMAP_PATHS: seq<string> := [
    "/sitemap.xml",
    "/sitemap_index.xml",
    "/sitemaps/sitemap.xml",
    "/wp-sitemap.xml",
    "/sitemap.php",
    "/sitemap.txt"
  ]

  // ---------------------------------------------------------------------------
  // URL normalisation

  predicate HasScheme(s: string) {
    StartsWith(s, "http://") || StartsWith(s, "https://")
  }

  /** `normalizeUrl`: trim; a URL with a scheme is parsed as it is, otherwise
      `https://` is tried before `http://`. `None` is the thrown
      "Invalid URL format" error. */
  function NormalizeUrl(url: string, parseUrl: string -> Option<string>): Option<string> {
    var normalized := Trim(url);
    if HasScheme(normalized) then parseUrl(normalized)
    else match parseUrl("https://" + normalized)
      case Some(u) => Some(u)
      case None => parseUrl("http://" + normalized)
  }

  /** Normalisation parses the trimmed URL as it is when it has a scheme;
      otherwise `https://` wins over `http://`, and the URL is rejected only
      when both parses fail. */
  lemma NormalizeUrlCases(url: string, parseUrl: string -> Option<string>)
    ensures HasScheme(Trim(url)) ==> NormalizeUrl(url, parseUrl) == parseUrl(Trim(url))
    ensures !HasScheme(Trim(url)) && parseUrl("https://" + Trim(url)).Some? ==>
              NormalizeUrl(url, parseUrl) == parseUrl("https://" + Trim(url))
    ensures NormalizeUrl(url, parseUrl).None? <==>
              if HasScheme(Trim(url)) then parseUrl(Trim(url)).None?
              else parseUrl("https://" + Trim(url)).None? && parseUrl("http://" + Trim(url)).None?
  {
  }

  /** `urls.map(normalizeUrl)`: one normalised URL per input, in order, or
      `None` (the exception) as soon as one of them cannot be normalised. */
  function NormalizeAll(urls: seq<string>, parseUrl: string -> Option<string>): (r: Option<seq<string>>)
    ensures r.Some? <==> forall i :: 0 <= i < |urls| ==> NormalizeUrl(urls[i], parseUrl).Some?
    ensures r.Some? ==> |r.value| == |urls|
    ensures r.Some? ==> forall i :: 0 <= i < |urls| ==> r.value[i] == NormalizeUrl(urls[i], parseUrl).value
  {
    if urls == [] then Some([])
    else match NormalizeUrl(urls[0], parseUrl)
      case None => None
      case Some(u) =>
        match NormalizeAll(urls[1..], parseUrl)
        case None =>
          assert forall i :: 1 <= i < |urls| ==> urls[1..][i - 1] == urls[i];
          None
        case Some(rest) =>
          assert forall i :: 1 <= i < |urls| ==> urls[1..][i - 1] == urls[i];
          Some([u] + rest)
  }

  // ---------------------------------------------------------------------------
  // robots.txt

  /** A robots.txt line announces a sitemap when, lower-cased and trimmed, it
      starts with `sitemap:`. */
  predicate IsSitemapLine(line: string) {
    StartsWith(Trim(ToLower(line)), "sitemap:")
  }

  /** `line.split(':').slice(1).join(':').trim()` */
  function SitemapLineValue(line: string): string {
    Trim(Join(Split(line, ':')[1..], ':'))
  }

  /** What one robots.txt line contributes: its announced value, if it
      announces a non-empty one. */
  function LineValue(line: string): (r: Option<string>)
    ensures r.Some? ==> |r.value| > 0
  {
    if IsSitemapLine(line) && |SitemapLineValue(line)| > 0 then Some(SitemapLineValue(line)) else None
  }

  /** The `Some` results of `f` over `xs`, in order. */
  function KeepSome<T, U>(xs: seq<T>, f: T -> Option<U>): (r: seq<U>)
    ensures |r| <= |xs|
  {
    if xs == [] then []
    else match f(xs[0])
      case Some(y) => [y] + KeepSome(xs[1..], f)
      case None => KeepSome(xs[1..], f)
  }

  /** `KeepSome` distributes over concatenation: output order is input order. */
  lemma {:induction false} KeepSomeAppend<T, U>(a: seq<T>, b: seq<T>, f: T -> Option<U>)
    ensures KeepSome(a + b, f) == KeepSome(a, f) + KeepSome(b, f)
  {
    if a == [] {
      assert a + b == b;
    } else {
      assert (a + b)[1..] == a[1..] + b;
      KeepSomeAppend(a[1..], b, f);
    }
  }

  /** A value is kept exactly when `f` yields it for some element. */
  lemma {:induction false} KeepSomeMembers<T, U>(xs: seq<T>, f: T -> Option<U>, y: U)
    ensures y in KeepSome(xs, f) <==> exists k :: 0 <= k < |xs| && f(xs[k]) == Some(y)
  {
    if xs != [] {
      KeepSomeMembers(xs[1..], f, y);
      if y in KeepSome(xs, f) && f(xs[0]) != Some(y) {
        var k :| 0 <= k < |xs[1..]| && f(xs[1..][k]) == Some(y);
        assert xs[k + 1] == xs[1..][k];
      }
      if exists k :: 0 <= k < |xs| && f(xs[k]) == Some(y) {
        var k :| 0 <= k < |xs| && f(xs[k]) == Some(y);
        if k > 0 {
          assert xs[1..][k - 1] == xs[k];
        }
      }
    }
  }

  /** The announced values of a robots.txt's lines, in line order, empty
      values dropped. */
  function ExtractSitemapValues(lines: seq<string>): (r: seq<string>)
    ensures |r| <= |lines|
  {
    KeepSome(lines, LineValue)
  }

  /** The sitemap URLs announced by a robots.txt body, before normalisation. */
  function RobotsSitemapValues(robotsTxt: string): seq<string> {
    ExtractSitemapValues(Split(robotsTxt, '\n'))
  }

  /** `checkRobotsTxt`: the normalised announced URLs in robots.txt order; any
      failure (fetch or normalisation) yields the empty list. */
  function CheckRobotsTxt(baseDomain: string, fetch: string -> Option<string>,
                          parseUrl: string -> Option<string>): (r: seq<string>)
    ensures fetch(baseDomain + "/robots.txt").None? ==> r == []
    ensures fetch(baseDomain + "/robots.txt").Some? ==>
              var values := RobotsSitemapValues(fetch(baseDomain + "/robots.txt").value);
              && (NormalizeAll(values, parseUrl).None? ==> r == [])
              && (NormalizeAll(values, parseUrl).Some? ==>
                    |r| == |values| &&
                    forall i :: 0 <= i < |r| ==> r[i] == NormalizeUrl(values[i], parseUrl).value)
  {
    match fetch(baseDomain + "/robots.txt")
    case None => []
    case Some(robotsTxt) =>
      match NormalizeAll(RobotsSitemapValues(robotsTxt), parseUrl)
      case None => []
      case Some(urls) => urls
  }

  /** A line that announces a sitemap contains a colon. */
  lemma SitemapLineHasColon(line: string)
    requires IsSitemapLine(line)
    ensures IndexOf(line, [':']).Some?
  {
    var lower := ToLower(line);
    assert Trim(lower)[..8][7] == ':';
    TrimmedCharFrom(lower, 7);
    var j :| 0 <= j < |lower| && lower[j] == ':';
    assert line[j..j + 1] == [':'];
    assert OccursAt(line, [':'], j);
  }

  /** An announcing line always has a colon, and its value is the trimmed text
      after the first colon; later colons (as in `https://`) are kept. */
  lemma SitemapLineValueAfterColon(line: string)
    ensures IsSitemapLine(line) ==> IndexOf(line, [':']).Some?
    ensures IndexOf(line, [':']).Some? ==>
              SitemapLineValue(line) == Trim(line[IndexOf(line, [':']).value + 1..])
  {
    AfterFirstSeparator(line, ':');
    if IsSitemapLine(line) {
      SitemapLineHasColon(line);
    }
  }

  /** Extraction works line by line: it distributes over concatenation, so the
      values keep robots.txt order. */
  lemma ExtractSitemapValuesAppend(a: seq<string>, b: seq<string>)
    ensures ExtractSitemapValues(a + b) == ExtractSitemapValues(a) + ExtractSitemapValues(b)
  {
    KeepSomeAppend(a, b, LineValue);
  }

  /** A value is extracted exactly when some line announces it and it is not
      empty. */
  lemma ExtractSitemapValuesMembers(lines: seq<string>, v: string)
    ensures v in ExtractSitemapValues(lines) <==>
              |v| > 0 && exists k :: 0 <= k < |lines| && IsSitemapLine(lines[k]) && SitemapLineValue(lines[k]) == v
  {
    KeepSomeMembers(lines, LineValue, v);
  }

  // ---------------------------------------------------------------------------
  // validateSitemap

  /** A `loc` value as the XML parser delivers it: a string, or anything else
      (absent, a number, an element). */
  datatype LocValue = LocText(text: string) | LocOther

  datatype SitemapEntry = SitemapEntry(loc: LocValue)

  /** The parser gives one `<sitemap>` as an object and several as an array. */
  datatype SitemapEntries = OneEntry(entry: SitemapEntry) | EntryArray(entries: seq<SitemapEntry>)

  /** `parsed.sitemapindex`; `sitemap` is `None` where the property is falsy. */
  datatype SitemapIndexNode = SitemapIndexNode(sitemap: Option<SitemapEntries>)

  /** The parts of a parsed document the classifier reads: `sitemapindex`
      (`None` where falsy) and whether `urlset` is truthy. */
  datatype XmlDocument = XmlDocument(sitemapindex: Option<SitemapIndexNode>, urlset: bool)

  datatype XmlParseOutcome = Parsed(doc: XmlDocument) | ParseError

  /** `Array.isArray(x) ? x : [x]` */
  function EntryList(e: SitemapEntries): seq<SitemapEntry> {
    match e
    case OneEntry(entry) => [entry]
    case EntryArray(entries) => entries
  }

  /** The string, non-empty `loc`s of the entries, in document order. */
  function IndexLocs(entries: seq<SitemapEntry>): (r: seq<string>)
    ensures |r| <= |entries|
    ensures forall k :: 0 <= k < |r| ==> |r[k]| > 0
  {
    if entries == [] then []
    else
      var rest := IndexLocs(entries[1..]);
      match entries[0].loc
      case LocText(t) => if |t| > 0 then [t] + rest else rest
      case LocOther => rest
  }

  /** The plain-text test: some line of the trimmed content starts, once
      trimmed, with `http`. */
  predicate LooksLikeTextSitemap(content: string) {
    var lines := Split(Trim(content), '\n');
    exists k :: 0 <= k < |lines| && StartsWith(Trim(lines[k]), "http")
  }

  /** How the inner `try` block of `validateSitemap` ends. */
  datatype Attempt = Returned(loc: SitemapLocation) | FellThrough | Threw

  /** The inner `try` block: an index (children normalised, which may throw),
      else a urlset, else nothing. */
  function ClassifyParsed(url: string, outcome: XmlParseOutcome,
                          parseUrl: string -> Option<string>): Attempt
  {
    match outcome
    case ParseError => Threw
    case Parsed(doc) =>
      if doc.sitemapindex.Some? && doc.sitemapindex.value.sitemap.Some? then
        match NormalizeAll(IndexLocs(EntryList(doc.sitemapindex.value.sitemap.value)), parseUrl)
        case None => Threw
        case Some(children) => Returned(SitemapLocation(url, Index, Discovered, Some(children)))
      else if doc.urlset then Returned(SitemapLocation(url, Single, Discovered, None))
      else FellThrough
  }

  /** The shape every location found by a validator has: it is the URL asked
      about, tagged `discovered`, with children exactly when it is an index. */
  predicate WellShaped(loc: SitemapLocation, url: string) {
    loc.url == url && loc.source == Discovered && (loc.kind == Index <==> loc.children.Some?)
  }

  /** The classification inside `validateSitemap`, as written: the plain-text
      fallback runs only when the inner block throws, that is when the parse
      throws or when a child `loc` of an index cannot be normalised. */
  function ClassifySitemap(url: string, content: string, outcome: XmlParseOutcome,
                           parseUrl: string -> Option<string>): (r: Option<SitemapLocation>)
    ensures r.Some? ==> WellShaped(r.value, url)
    ensures outcome.Parsed? && outcome.doc.sitemapindex.Some? && outcome.doc.sitemapindex.value.sitemap.Some? ==>
              var locs := IndexLocs(EntryList(outcome.doc.sitemapindex.value.sitemap.value));
              NormalizeAll(locs, parseUrl).Some? ==>
                r == Some(SitemapLocation(url, Index, Discovered, NormalizeAll(locs, parseUrl)))
    ensures outcome.Parsed? && !(outcome.doc.sitemapindex.Some? && outcome.doc.sitemapindex.value.sitemap.Some?) ==>
              r == (if outcome.doc.urlset then Some(SitemapLocation(url, Single, Discovered, None)) else None)
    ensures outcome.ParseError? ==>
              (r.Some? <==> LooksLikeTextSitemap(content)) && (r.Some? ==> r.value.kind == Single)
    ensures outcome.Parsed? && outcome.doc.sitemapindex.Some? && outcome.doc.sitemapindex.value.sitemap.Some? ==>
              var locs := IndexLocs(EntryList(outcome.doc.sitemapindex.value.sitemap.value));
              NormalizeAll(locs, parseUrl).None? ==>
                (r.Some? <==> LooksLikeTextSitemap(content)) && (r.Some? ==> r.value.kind == Single)
  {
    match ClassifyParsed(url, outcome, parseUrl)
    case Returned(loc) => Some(loc)
    case FellThrough => None
    case Threw =>
      if LooksLikeTextSitemap(content) then Some(SitemapLocation(url, Single, Discovered, None)) else None
  }

  /** The classification with the plain-text fallback also applied when the
      parsed document is neither an index nor a urlset (a plain-text list
      parses without error but has neither shape). */
  function ClassifySitemapCorrected(url: string, content: string, outcome: XmlParseOutcome,
                                    parseUrl: string -> Option<string>): (r: Option<SitemapLocation>)
    ensures r.Some? ==> WellShaped(r.value, url)
    ensures ClassifyParsed(url, outcome, parseUrl).Returned? ==> r == Some(ClassifyParsed(url, outcome, parseUrl).loc)
  {
    match ClassifyParsed(url, outcome, parseUrl)
    case Returned(loc) => Some(loc)
    case _ =>
      if LooksLikeTextSitemap(content) then Some(SitemapLocation(url, Single, Discovered, None)) else None
  }

  /** With the correction, content is recognised exactly when it has an XML
      sitemap shape or is a plain-text URL list; the two classifiers differ
      only on documents that parse but have neither shape. */
  lemma TextFallbackCorrected(url: string, content: string, outcome: XmlParseOutcome,
                              parseUrl: string -> Option<string>)
    ensures var a := ClassifyParsed(url, outcome, parseUrl);
            ClassifySitemapCorrected(url, content, outcome, parseUrl).Some? <==> a.Returned? || LooksLikeTextSitemap(content)
    ensures !ClassifyParsed(url, outcome, parseUrl).FellThrough? ==>
              ClassifySitemapCorrected(url, content, outcome, parseUrl) == ClassifySitemap(url, content, outcome, parseUrl)
    ensures ClassifyParsed(url, outcome, parseUrl).FellThrough? ==>
              ClassifySitemap(url, content, outcome, parseUrl).None?
  {
  }

  /** A one-line body starting with `http` is a plain-text sitemap. */
  lemma HttpLineIsTextSitemap()
    ensures LooksLikeTextSitemap("http")
  {
    var content := "http";
    assert Trim(content) == content;
    assert IndexOf(content, ['\n']).None? by {
      forall j ensures !OccursAt(content, ['\n'], j) {
        if 0 <= j && j + 1 <= |content| {
          assert content[j..j + 1] == [content[j]];
        }
      }
    }
    assert Split(content, '\n')[0] == content;
  }

  /** As written, a plain-text sitemap that the XML parser reads without error
      (as a document with neither `sitemapindex` nor `urlset`) is rejected,
      although it is a text sitemap; the corrected classifier accepts it. */
  lemma TextSitemapMissedAsWritten(parseUrl: string -> Option<string>)
    ensures var outcome := Parsed(XmlDocument(None, false));
            && LooksLikeTextSitemap("http")
            && ClassifySitemap("u", "http", outcome, parseUrl).None?
            && ClassifySitemapCorrected("u", "http", outcome, parseUrl).Some?
  {
    HttpLineIsTextSitemap();
    TextFallbackCorrected("u", "http", Parsed(XmlDocument(None, false)), parseUrl);
  }

  /** `validateSitemap` as written: fetch, then classify; never throws. */
  function ValidateSitemap(url: string, fetch: string -> Option<string>,
                           parseXml: string -> XmlParseOutcome,
                           parseUrl: string -> Option<string>): (r: Option<SitemapLocation>)
    ensures fetch(url).None? ==> r.None?
    ensures r.Some? ==> WellShaped(r.value, url)
  {
    match fetch(url)
    case None => None
    case Some(content) => ClassifySitemap(url, content, parseXml(content), parseUrl)
  }

  /** `validateSitemap` with the plain-text fallback corrected: it finds
      everything the code as written finds, the same way, and in addition the
      plain-text lists that parse with neither XML shape. */
  function ValidateSitemapCorrected(url: string, fetch: string -> Option<string>,
                                    parseXml: string -> XmlParseOutcome,
                                    parseUrl: string -> Option<string>): (r: Option<SitemapLocation>)
    ensures fetch(url).None? ==> r.None?
    ensures r.Some? ==> WellShaped(r.value, url)
    ensures ValidateSitemap(url, fetch, parseXml, parseUrl).Some? ==> r == ValidateSitemap(url, fetch, parseXml, parseUrl)
  {
    match fetch(url)
    case None => None
    case Some(content) =>
      TextFallbackCorrected(url, content, parseXml(content), parseUrl);
      ClassifySitemapCorrected(url, content, parseXml(content), parseUrl)
  }

  /** The loc values an index lists are exactly its non-empty string locs. */
  lemma {:induction false} IndexLocsMembers(entries: seq<SitemapEntry>, t: string)
    ensures t in IndexLocs(entries) <==> |t| > 0 && exists k :: 0 <= k < |entries| && entries[k].loc == LocText(t)
  {
    if entries != [] {
      IndexLocsMembers(entries[1..], t);
      if t in IndexLocs(entries) && !(entries[0].loc == LocText(t) && |t| > 0) {
        var k :| 0 <= k < |entries[1..]| && entries[1..][k].loc == LocText(t);
        assert entries[k + 1].loc == LocText(t);
      }
      if |t| > 0 && exists k :: 0 <= k < |entries| && entries[k].loc == LocText(t) {
        var k :| 0 <= k < |entries| && entries[k].loc == LocText(t);
        if k > 0 {
          assert entries[1..][k - 1].loc == LocText(t);
        }
      }
    }
  }

  /** A single `<sitemap>` entry, parsed as an object, classifies exactly as a
      one-element array would. */
  lemma SingleEntryLikeArray(url: string, e: SitemapEntry, urlset: bool, parseUrl: string -> Option<string>)
    ensures ClassifyParsed(url, Parsed(XmlDocument(Some(SitemapIndexNode(Some(OneEntry(e)))), urlset)), parseUrl)
         == ClassifyParsed(url, Parsed(XmlDocument(Some(SitemapIndexNode(Some(EntryArray([e])))), urlset)), parseUrl)
  {
  }

  // ---------------------------------------------------------------------------
  // discover

  /** The collaborators of `discover`: the `URL` constructor, the origin
      (`protocol//host`) of a parsed URL, the proxied fetch, and the sitemap
      validator. */
  datatype DiscoveryEnv = DiscoveryEnv(
    parseUrl: string -> Option<string>,
    origin: string -> string,
    fetch: string -> Option<string>,
    validate: string -> Option<SitemapLocation>)

  datatype DiscoveryError = InvalidUrlFormat(url: string)

  /** The direct stage applies when the normalised URL mentions "sitemap" in
      any letter case. */
  predicate IsDirectCandidate(url: string) {
    Contains(ToLower(url), "sitemap")
  }

  /** The robots stage: each announced URL that validates, tagged `robots`. */
  function RobotsStage(env: DiscoveryEnv, urls: seq<string>): seq<SitemapLocation> {
    if urls == [] then []
    else
      var rest := RobotsStage(env, urls[1..]);
      match env.validate(urls[0])
      case Some(loc) => [loc.(source := Robots)] + rest
      case None => rest
  }

  /** The common-path stage: validate the paths in order, keeping every hit and
      stopping right after the first `single` hit. */
  function CommonScan(env: DiscoveryEnv, baseDomain: string, paths: seq<string>): seq<SitemapLocation> {
    if paths == [] then []
    else
      match env.validate(baseDomain + paths[0])
      case Some(loc) => [loc] + (if loc.kind == Single then [] else CommonScan(env, baseDomain, paths[1..]))
      case None => CommonScan(env, baseDomain, paths[1..])
  }

  /** The locations found before index expansion: robots.txt's, or, when there
      are none, the common-path scan's. */
  function FoundBeforeExpansion(env: DiscoveryEnv, baseDomain: string): seq<SitemapLocation> {
    var robots := RobotsStage(env, CheckRobotsTxt(baseDomain, env.fetch, env.parseUrl));
    if |robots| == 0 then CommonScan(env, baseDomain, COMMON_SITEMAP_PATHS) else robots
  }

  function IndexesOf(locs: seq<SitemapLocation>): (r: seq<SitemapLocation>)
    ensures forall k :: 0 <= k < |r| ==> r[k].kind == Index && r[k] in locs
  {
    if locs == [] then []
    else (if locs[0].kind == Index then [locs[0]] else []) + IndexesOf(locs[1..])
  }

  /** `indexSitemap.children`, with a missing list read as empty (the `continue`). */
  function ChildrenOf(loc: SitemapLocation): seq<string> {
    match loc.children
    case None => []
    case Some(cs) => cs
  }

  function Prepend<E>(found: seq<SitemapLocation>, r: Result<seq<SitemapLocation>, E>): Result<seq<SitemapLocation>, E> {
    match r
    case Success(more) => Success(found + more)
    case Failure(e) => Failure(e)
  }

  /** What validating one normalised child contributes: the location, if any. */
  function ValidChild(env: DiscoveryEnv, u: string): seq<SitemapLocation> {
    match env.validate(u)
    case Some(loc) => [loc]
    case None => []
  }

  /** The number of children that normalise to a URL that validates. */
  function ValidChildCount(env: DiscoveryEnv, children: seq<string>): nat {
    if children == [] then 0
    else
      (match NormalizeUrl(children[0], env.parseUrl)
       case Some(u) => |ValidChild(env, u)|
       case None => 0)
      + ValidChildCount(env, children[1..])
  }

  /** The valid children of all the indexes together. */
  function ValidChildTotal(env: DiscoveryEnv, indexes: seq<SitemapLocation>): nat {
    if indexes == [] then 0
    else ValidChildCount(env, ChildrenOf(indexes[0])) + ValidChildTotal(env, indexes[1..])
  }

  /** Expanding one index: each child is normalised again (a failure aborts the
      whole run) and validated; valid children are kept in child order. */
  function ExpandChildren(env: DiscoveryEnv, children: seq<string>): Result<seq<SitemapLocation>, DiscoveryError> {
    if children == [] then Success([])
    else
      match NormalizeUrl(children[0], env.parseUrl)
      case None => Failure(InvalidUrlFormat(children[0]))
      case Some(u) => Prepend(ValidChild(env, u), ExpandChildren(env, children[1..]))
  }

  /** One step of `ExpandChildren` from position `c`. */
  lemma ExpandChildrenAt(env: DiscoveryEnv, children: seq<string>, c: nat)
    requires c < |children|
    ensures NormalizeUrl(children[c], env.parseUrl).None? ==>
              ExpandChildren(env, children[c..]) == Failure(InvalidUrlFormat(children[c]))
    ensures NormalizeUrl(children[c], env.parseUrl).Some? ==>
              ExpandChildren(env, children[c..])
              == Prepend(ValidChild(env, NormalizeUrl(children[c], env.parseUrl).value), ExpandChildren(env, children[c + 1..]))
  {
    assert children[c..][0] == children[c];
    assert children[c..][1..] == children[c + 1..];
  }

  function ExpandAll(env: DiscoveryEnv, indexes: seq<SitemapLocation>): Result<seq<SitemapLocation>, DiscoveryError> {
    if indexes == [] then Success([])
    else
      match ExpandChildren(env, ChildrenOf(indexes[0]))
      case Failure(e) => Failure(e)
      case Success(found) => Prepend(found, ExpandAll(env, indexes[1..]))
  }

  /** The index-expansion stage: only the locations present before it are
      expanded, and what it finds is appended. */
  function ExpandIndexes(env: DiscoveryEnv, locs: seq<SitemapLocation>): Result<seq<SitemapLocation>, DiscoveryError> {
    Prepend(locs, ExpandAll(env, IndexesOf(locs)))
  }

  /** What `discover` returns, stage by stage. */
  function DiscoverSpec(env: DiscoveryEnv, input: string): Result<seq<SitemapLocation>, DiscoveryError> {
    match NormalizeUrl(input, env.parseUrl)
    case None => Failure(InvalidUrlFormat(input))
    case Some(normalizedUrl) =>
      if IsDirectCandidate(normalizedUrl) && env.validate(normalizedUrl).Some? then
        Success([env.validate(normalizedUrl).value.(source := Direct)])
      else
        ExpandIndexes(env, FoundBeforeExpansion(env, env.origin(normalizedUrl)))
  }

  lemma PrependTwice<E>(a: seq<SitemapLocation>, b: seq<SitemapLocation>, r: Result<seq<SitemapLocation>, E>)
    ensures Prepend(a, Prepend(b, r)) == Prepend(a + b, r)
  {
    match r
    case Success(more) => assert a + (b + more) == (a + b) + more;
    case Failure(_) =>
  }

  lemma PrependNothing<E>(r: Result<seq<SitemapLocation>, E>)
    ensures Prepend([], r) == r
  {
    match r
    case Success(more) => assert [] + more == more;
    case Failure(_) =>
  }

  /** The robots loop of `discover`: validate each announced URL in order and
      keep the valid ones, tagged `robots`. */
  method ValidateRobotsSitemaps(env: DiscoveryEnv, robotsSitemaps: seq<string>) returns (sitemaps: seq<SitemapLocation>)
    ensures sitemaps == RobotsStage(env, robotsSitemaps)
  {
    sitemaps := [];
    for i := 0 to |robotsSitemaps|
      invariant RobotsStage(env, robotsSitemaps) == sitemaps + RobotsStage(env, robotsSitemaps[i..])
    {
      assert robotsSitemaps[i..][1..] == robotsSitemaps[i + 1..];
      var sitemap := env.validate(robotsSitemaps[i]);
      if sitemap.Some? {
        sitemaps := sitemaps + [sitemap.value.(source := Robots)];
      }
    }
    assert robotsSitemaps[|robotsSitemaps|..] == [];
  }

  /** One step of the common-path scan, from path `k` on. */
  lemma CommonScanAt(env: DiscoveryEnv, baseDomain: string, paths: seq<string>, k: nat)
    requires k < |paths|
    ensures env.validate(baseDomain + paths[k]).None? ==>
              CommonScan(env, baseDomain, paths[k..]) == CommonScan(env, baseDomain, paths[k + 1..])
    ensures env.validate(baseDomain + paths[k]).Some? && env.validate(baseDomain + paths[k]).value.kind == Single ==>
              CommonScan(env, baseDomain, paths[k..]) == [env.validate(baseDomain + paths[k]).value]
    ensures env.validate(baseDomain + paths[k]).Some? && env.validate(baseDomain + paths[k]).value.kind != Single ==>
              CommonScan(env, baseDomain, paths[k..])
              == [env.validate(baseDomain + paths[k]).value] + CommonScan(env, baseDomain, paths[k + 1..])
  {
    assert paths[k..][0] == paths[k] && paths[k..][1..] == paths[k + 1..];
  }

  /** The common-locations loop of `discover` over a list of paths, with its
      `break` after the first `single` hit. */
  method ScanPaths(env: DiscoveryEnv, baseDomain: string, paths: seq<string>) returns (sitemaps: seq<SitemapLocation>)
    ensures sitemaps == CommonScan(env, baseDomain, paths)
  {
    sitemaps := [];
    var k := 0;
    assert paths[0..] == paths;
    while k < |paths|
      invariant 0 <= k <= |paths|
      invariant CommonScan(env, baseDomain, paths) == sitemaps + CommonScan(env, baseDomain, paths[k..])
    {
      CommonScanAt(env, baseDomain, paths, k);
      ghost var rest := CommonScan(env, baseDomain, paths[k + 1..]);
      var sitemap := env.validate(baseDomain + paths[k]);
      if sitemap.Some? {
        if sitemap.value.kind == Single {
          assert CommonScan(env, baseDomain, paths[k..]) == [sitemap.value];
          sitemaps := sitemaps + [sitemap.value];
          break;
        }
        assert sitemaps + CommonScan(env, baseDomain, paths[k..]) == (sitemaps + [sitemap.value]) + rest;
        sitemaps := sitemaps + [sitemap.value];
      }
      k := k + 1;
    }
    assert k == |paths| ==> paths[k..] == [];
  }

  /** The inner index loop of `discover`: the children of one index, each
      normalised again and validated; valid ones are kept in order. */
  method ValidateChildren(env: DiscoveryEnv, children: seq<string>)
    returns (r: Result<seq<SitemapLocation>, DiscoveryError>)
    ensures r == ExpandChildren(env, children)
  {
    var found: seq<SitemapLocation> := [];
    assert children[0..] == children;
    PrependNothing(ExpandChildren(env, children));
    for c := 0 to |children|
      invariant ExpandChildren(env, children) == Prepend(found, ExpandChildren(env, children[c..]))
    {
      ExpandChildrenAt(env, children, c);
      var normalizedChild := NormalizeUrl(children[c], env.parseUrl);
      if normalizedChild.None? {
        return Failure(InvalidUrlFormat(children[c]));
      }
      var childSitemap := env.validate(normalizedChild.value);
      var here := if childSitemap.Some? then [childSitemap.value] else [];
      assert here == ValidChild(env, normalizedChild.value);
      PrependTwice(found, here, ExpandChildren(env, children[c + 1..]));
      found := found + here;
    }
    assert children[|children|..] == [];
    assert found + [] == found;
    return Success(found);
  }

  /** The index loop of `discover`: only the indexes present on entry are
      expanded (one level deep); what their children yield is appended. */
  method ExpandIndexSitemaps(env: DiscoveryEnv, sitemaps: seq<SitemapLocation>)
    returns (r: Result<seq<SitemapLocation>, DiscoveryError>)
    ensures r == ExpandIndexes(env, sitemaps)
  {
    var added: seq<SitemapLocation> := [];
    var indexSitemaps := IndexesOf(sitemaps);
    assert indexSitemaps[0..] == indexSitemaps;
    PrependNothing(ExpandAll(env, indexSitemaps));
    for j := 0 to |indexSitemaps|
      invariant ExpandAll(env, indexSitemaps) == Prepend(added, ExpandAll(env, indexSitemaps[j..]))
    {
      assert indexSitemaps[j..][1..] == indexSitemaps[j + 1..];
      var children := ValidateChildren(env, ChildrenOf(indexSitemaps[j]));
      if children.Failure? {
        return Failure(children.error);
      }
      PrependTwice(added, children.value, ExpandAll(env, indexSitemaps[j + 1..]));
      added := added + children.value;
    }
    assert indexSitemaps[|indexSitemaps|..] == [];
    assert added + [] == added;
    return Success(sitemaps + added);
  }

  /** `discover`, stage by stage as the service runs it. */
  method Discover(env: DiscoveryEnv, input: string) returns (r: Result<seq<SitemapLocation>, DiscoveryError>)
    ensures r == DiscoverSpec(env, input)
  {
    var normalized := NormalizeUrl(input, env.parseUrl);
    if normalized.None? {
      return Failure(InvalidUrlFormat(input));
    }
    var normalizedUrl := normalized.value;
    var sitemaps: seq<SitemapLocation> := [];

    // Step 1: the input may already be a sitemap URL.
    if IsDirectCandidate(normalizedUrl) {
      var sitemap := env.validate(normalizedUrl);
      if sitemap.Some? {
        sitemaps := sitemaps + [sitemap.value.(source := Direct)];
        assert sitemaps == [sitemap.value.(source := Direct)];
        return Success(sitemaps);
      }
    }

    // Step 2: robots.txt.
    var baseDomain := env.origin(normalizedUrl);
    var robotsSitemaps := CheckRobotsTxt(baseDomain, env.fetch, env.parseUrl);
    sitemaps := ValidateRobotsSitemaps(env, robotsSitemaps);
    assert sitemaps == RobotsStage(env, robotsSitemaps);

    // Step 3: the common locations, only when robots.txt gave nothing.
    if |sitemaps| == 0 {
      sitemaps := ScanPaths(env, baseDomain, COMMON_SITEMAP_PATHS);
    }

    assert sitemaps == FoundBeforeExpansion(env, baseDomain);
    // Step 4: expand the indexes found so far, one level deep.
    r := ExpandIndexSitemaps(env, sitemaps);
  }

  // ---------------------------------------------------------------------------
  // Properties of discover

  /** What a validator promises: a location it finds is the URL asked about,
      tagged `discovered`, with children exactly when it is an index. */
  ghost predicate ValidatorShape(env: DiscoveryEnv) {
    forall u :: env.validate(u).Some? ==> WellShaped(env.validate(u).value, u)
  }

  /** `validateSitemap`, as written or corrected, keeps that promise. */
  lemma ValidateSitemapShape(env: DiscoveryEnv, fetch: string -> Option<string>, parseXml: string -> XmlParseOutcome)
    requires || (forall u :: env.validate(u) == ValidateSitemap(u, fetch, parseXml, env.parseUrl))
             || (forall u :: env.validate(u) == ValidateSitemapCorrected(u, fetch, parseXml, env.parseUrl))
    ensures ValidatorShape(env)
  {
    forall u | env.validate(u).Some? ensures WellShaped(env.validate(u).value, u) {
      if forall u :: env.validate(u) == ValidateSitemap(u, fetch, parseXml, env.parseUrl) {
        assert env.validate(u) == ValidateSitemap(u, fetch, parseXml, env.parseUrl);
      } else {
        assert env.validate(u) == ValidateSitemapCorrected(u, fetch, parseXml, env.parseUrl);
      }
    }
  }

  /** The robots stage keeps at most one location per announced URL, tags all
      of them `robots`, finds nothing exactly when no announced URL validates,
      and (for a well-shaped validator) only finds announced URLs. */
  lemma {:induction false} RobotsStageFacts(env: DiscoveryEnv, urls: seq<string>)
    ensures var r := RobotsStage(env, urls);
            && |r| <= |urls|
            && (forall k :: 0 <= k < |r| ==> r[k].source == Robots)
            && (r == [] <==> forall k :: 0 <= k < |urls| ==> env.validate(urls[k]).None?)
            && (ValidatorShape(env) ==> forall k :: 0 <= k < |r| ==> r[k].url in urls)
  {
    if urls != [] {
      RobotsStageFacts(env, urls[1..]);
      assert forall k :: 1 <= k < |urls| ==> urls[1..][k - 1] == urls[k];
      var rest := RobotsStage(env, urls[1..]);
      match env.validate(urls[0])
      case Some(loc) =>
        var r := [loc.(source := Robots)] + rest;
        assert forall k :: 1 <= k < |r| ==> r[k] == rest[k - 1];
      case None =>
    }
  }

  /** The common-path scan tries each path at most once, and every hit but the
      last is an index: it stops right after the first `single` hit. For a
      well-shaped validator its hits are tagged `discovered`. */
  lemma CommonScanFacts(env: DiscoveryEnv, baseDomain: string, paths: seq<string>)
    ensures var r := CommonScan(env, baseDomain, paths);
            && |r| <= |paths|
            && (forall k :: 0 <= k < |r| - 1 ==> r[k].kind == Index)
            && (ValidatorShape(env) ==> forall k :: 0 <= k < |r| ==> r[k].source == Discovered)
            && (r == [] <==> forall k :: 0 <= k < |paths| ==> env.validate(baseDomain + paths[k]).None?)
            && (forall k :: (0 <= k < |paths| && ScanReaches(env, baseDomain, paths, k)
                             && env.validate(baseDomain + paths[k]).Some?) ==>
                  env.validate(baseDomain + paths[k]).value in r)
  {
    CommonScanShape(env, baseDomain, paths);
    CommonScanFinds(env, baseDomain, paths);
  }

  /** The hits are at most one per path, all but the last are indexes, and
      they are tagged `discovered` for a well-shaped validator. */
  lemma {:induction false} CommonScanShape(env: DiscoveryEnv, baseDomain: string, paths: seq<string>)
    ensures var r := CommonScan(env, baseDomain, paths);
            && |r| <= |paths|
            && (forall k :: 0 <= k < |r| - 1 ==> r[k].kind == Index)
            && (ValidatorShape(env) ==> forall k :: 0 <= k < |r| ==> r[k].source == Discovered)
  {
    if paths != [] {
      CommonScanShape(env, baseDomain, paths[1..]);
      var rest := CommonScan(env, baseDomain, paths[1..]);
      match env.validate(baseDomain + paths[0])
      case Some(loc) =>
        if loc.kind != Single {
          var r := [loc] + rest;
          assert forall k :: 1 <= k < |r| ==> r[k] == rest[k - 1];
        }
      case None =>
    }
  }

  /** The scan gets as far as path `k`: every earlier path was a miss or an
      index (an index hit does not stop the scan). */
  predicate ScanReaches(env: DiscoveryEnv, baseDomain: string, paths: seq<string>, k: nat)
    requires k <= |paths|
  {
    forall j :: 0 <= j < k ==>
      env.validate(baseDomain + paths[j]).None? || env.validate(baseDomain + paths[j]).value.kind == Index
  }

  /** The scan finds nothing exactly when no path validates, and it finds
      every path it reaches that validates. */
  lemma {:induction false} CommonScanFinds(env: DiscoveryEnv, baseDomain: string, paths: seq<string>)
    ensures CommonScan(env, baseDomain, paths) == [] <==>
              forall k :: 0 <= k < |paths| ==> env.validate(baseDomain + paths[k]).None?
    ensures forall k :: (0 <= k < |paths| && ScanReaches(env, baseDomain, paths, k)
                         && env.validate(baseDomain + paths[k]).Some?) ==>
              env.validate(baseDomain + paths[k]).value in CommonScan(env, baseDomain, paths)
  {
    if paths != [] {
      var tail := paths[1..];
      CommonScanFinds(env, baseDomain, tail);
      assert forall k :: 1 <= k < |paths| ==> paths[k] == tail[k - 1];
      forall k | 1 <= k < |paths| && ScanReaches(env, baseDomain, paths, k)
        ensures ScanReaches(env, baseDomain, tail, k - 1)
      {
        forall j | 0 <= j < k - 1
          ensures env.validate(baseDomain + tail[j]).None? || env.validate(baseDomain + tail[j]).value.kind == Index
        {
          assert tail[j] == paths[j + 1];
        }
      }
    }
  }

  /** Before expansion, the locations all come from robots.txt (tagged
      `robots`) when it announced a valid one, and otherwise all from the
      common-path scan (tagged `discovered`): the scan never runs after a
      robots.txt hit. */
  lemma FoundBeforeExpansionSources(env: DiscoveryEnv, baseDomain: string)
    requires ValidatorShape(env)
    ensures var robots := RobotsStage(env, CheckRobotsTxt(baseDomain, env.fetch, env.parseUrl));
            var f := FoundBeforeExpansion(env, baseDomain);
            && (robots != [] ==> f == robots && forall k :: 0 <= k < |f| ==> f[k].source == Robots)
            && (robots == [] ==> forall k :: 0 <= k < |f| ==> f[k].source == Discovered)
  {
    RobotsStageFacts(env, CheckRobotsTxt(baseDomain, env.fetch, env.parseUrl));
    CommonScanFacts(env, baseDomain, COMMON_SITEMAP_PATHS);
  }

  /** Expanding one index fails exactly when some child cannot be normalised,
      and then names such a child; on success it keeps at most one location
      per child, tagged `discovered` for a well-shaped validator. */
  lemma {:induction false} ExpandChildrenFacts(env: DiscoveryEnv, children: seq<string>)
    ensures var r := ExpandChildren(env, children);
            && (r.Failure? <==> exists k :: 0 <= k < |children| && NormalizeUrl(children[k], env.parseUrl).None?)
            && (r.Failure? ==> r.error.url in children && NormalizeUrl(r.error.url, env.parseUrl).None?)
            && (r.Success? ==> |r.value| == ValidChildCount(env, children) <= |children|)
            && (r.Success? && ValidatorShape(env) ==> forall k :: 0 <= k < |r.value| ==> r.value[k].source == Discovered)
  {
    if children != [] {
      ExpandChildrenFacts(env, children[1..]);
      assert forall k :: 1 <= k < |children| ==> children[1..][k - 1] == children[k];
      match NormalizeUrl(children[0], env.parseUrl)
      case None =>
      case Some(u) =>
        var rest := ExpandChildren(env, children[1..]);
        if rest.Success? {
          var r := ValidChild(env, u) + rest.value;
          assert forall k :: |ValidChild(env, u)| <= k < |r| ==> r[k] == rest.value[k - |ValidChild(env, u)|];
        }
    }
  }

  /** Expanding a list of indexes fails only on a child URL of one of them
      that cannot be normalised; what it finds is tagged `discovered` for a
      well-shaped validator. */
  lemma ExpandAllFacts(env: DiscoveryEnv, indexes: seq<SitemapLocation>)
    ensures var r := ExpandAll(env, indexes);
            && (r.Failure? ==> NormalizeUrl(r.error.url, env.parseUrl).None?
                               && exists i :: 0 <= i < |indexes| && r.error.url in ChildrenOf(indexes[i]))
            && (r.Success? && ValidatorShape(env) ==> forall k :: 0 <= k < |r.value| ==> r.value[k].source == Discovered)
  {
    ExpandAllFailure(env, indexes);
    if ValidatorShape(env) {
      ExpandAllDiscovered(env, indexes);
    }
  }

  /** A successful expansion yields one location per valid child. */
  lemma {:induction false} ExpandAllLength(env: DiscoveryEnv, indexes: seq<SitemapLocation>)
    ensures ExpandAll(env, indexes).Success? ==> |ExpandAll(env, indexes).value| == ValidChildTotal(env, indexes)
  {
    if indexes != [] {
      ExpandChildrenFacts(env, ChildrenOf(indexes[0]));
      ExpandAllLength(env, indexes[1..]);
    }
  }

  lemma {:induction false} ExpandAllFailure(env: DiscoveryEnv, indexes: seq<SitemapLocation>)
    ensures var r := ExpandAll(env, indexes);
            r.Failure? ==> NormalizeUrl(r.error.url, env.parseUrl).None?
                           && exists i :: 0 <= i < |indexes| && r.error.url in ChildrenOf(indexes[i])
  {
    if indexes != [] {
      ExpandAllFailure(env, indexes[1..]);
      match ExpandChildren(env, ChildrenOf(indexes[0]))
      case Failure(e) =>
        ExpandChildrenFacts(env, ChildrenOf(indexes[0]));
      case Success(found) =>
        var rest := ExpandAll(env, indexes[1..]);
        if rest.Failure? {
          var i :| 0 <= i < |indexes[1..]| && rest.error.url in ChildrenOf(indexes[1..][i]);
          assert indexes[1..][i] == indexes[i + 1];
        }
    }
  }

  lemma {:induction false} ExpandAllDiscovered(env: DiscoveryEnv, indexes: seq<SitemapLocation>)
    requires ValidatorShape(env)
    ensures ExpandAll(env, indexes).Success? ==>
              forall k :: 0 <= k < |ExpandAll(env, indexes).value| ==> ExpandAll(env, indexes).value[k].source == Discovered
  {
    if indexes != [] {
      match ExpandChildren(env, ChildrenOf(indexes[0]))
      case Failure(e) =>
      case Success(found) =>
        ExpandChildrenFacts(env, ChildrenOf(indexes[0]));
        var rest := ExpandAll(env, indexes[1..]);
        ExpandAllDiscovered(env, indexes[1..]);
        if rest.Success? {
          var r := found + rest.value;
          assert ExpandAll(env, indexes) == Success(r);
          forall k | 0 <= k < |r| ensures r[k].source == Discovered {
            if k < |found| {
              assert r[k] == found[k];
            } else {
              assert r[k] == rest.value[k - |found|];
            }
          }
        }
    }
  }

  /** Index expansion keeps the locations found so far as a prefix and only
      appends `discovered` ones, one per valid child of an index; with no index among them it changes nothing;
      a failure names a URL that cannot be normalised. */
  lemma ExpandIndexesFacts(env: DiscoveryEnv, locs: seq<SitemapLocation>)
    ensures var r := ExpandIndexes(env, locs);
            && (r.Success? ==> |r.value| == |locs| + ValidChildTotal(env, IndexesOf(locs)) && r.value[..|locs|] == locs)
            && (r.Success? && ValidatorShape(env) ==>
                  forall k :: |locs| <= k < |r.value| ==> r.value[k].source == Discovered)
            && (r.Failure? ==> NormalizeUrl(r.error.url, env.parseUrl).None?)
            && (IndexesOf(locs) == [] ==> r == Success(locs))
  {
    ExpandAllFacts(env, IndexesOf(locs));
    ExpandAllLength(env, IndexesOf(locs));
    match ExpandAll(env, IndexesOf(locs))
    case Failure(_) =>
    case Success(more) =>
      var r := locs + more;
      assert r[..|locs|] == locs;
      assert forall k :: |locs| <= k < |r| ==> r[k] == more[k - |locs|];
      if IndexesOf(locs) == [] {
        assert more == [];
        assert r == locs;
      }
  }

  /** The only error `discover` raises is "Invalid URL format", for the input
      when it cannot be normalised, and otherwise for a child URL that cannot
      be. */
  lemma DiscoverFailures(env: DiscoveryEnv, input: string)
    ensures NormalizeUrl(input, env.parseUrl).None? ==> DiscoverSpec(env, input) == Failure(InvalidUrlFormat(input))
    ensures DiscoverSpec(env, input).Failure? ==>
              NormalizeUrl(DiscoverSpec(env, input).error.url, env.parseUrl).None?
  {
    match NormalizeUrl(input, env.parseUrl)
    case None =>
    case Some(u) =>
      ExpandIndexesFacts(env, FoundBeforeExpansion(env, env.origin(u)));
  }

  /** How `discover` tags what it returns: a `direct` location comes alone (the
      direct stage returns at once), and `robots` locations all come before
      any other. */
  lemma DiscoverSources(env: DiscoveryEnv, input: string)
    requires ValidatorShape(env)
    ensures var r := DiscoverSpec(env, input);
            r.Success? ==>
              && (forall k :: 0 <= k < |r.value| && r.value[k].source == Direct ==> |r.value| == 1)
              && (forall i, j :: 0 <= i < j < |r.value| && r.value[j].source == Robots ==> r.value[i].source == Robots)
  {
    match NormalizeUrl(input, env.parseUrl)
    case None =>
    case Some(u) =>
      if !(IsDirectCandidate(u) && env.validate(u).Some?) {
        var base := env.origin(u);
        var f := FoundBeforeExpansion(env, base);
        FoundBeforeExpansionSources(env, base);
        ExpandIndexesFacts(env, f);
        var r := DiscoverSpec(env, input);
        if r.Success? {
          assert forall k :: 0 <= k < |f| ==> r.value[k] == f[k];
        }
      }
  }
}
