/** The logic of the analysis-history view
    (src/components/history/HistoryPage.tsx): the domain of a sitemap URL,
    the score trend of a domain, grouping saved analyses by domain, paging
    through one domain's analyses, and the filtered, sorted list of domains.

    URL parsing is the parameter `hostnameOf`: the hostname of a URL, or
    `None` where `new URL` throws. */
module HistoryPage {
  import opened Wrappers
  import opened Text
  import opened AnalysisTypes
  import opened StableSort

  /** A saved analysis: the sitemap it ran on, when it was saved (`created_at`
      as milliseconds since the epoch) and its results. */
  datatype Analysis = Analysis(sitemapUrl: string, createdAt: int, results: AnalysisResult)

  function Score(a: Analysis): real {
    a.results.summary.averageScore
  }

  function CreatedAt(a: Analysis): real {
    a.createdAt as real
  }

  // ---------------------------------------------------------------------
  // The domain of a URL

  const WWW := "www."

  /** `getDomainFromUrl` as written: `replace` with a string pattern removes
      the first "www." wherever it occurs in the hostname. */
  function DomainFromUrlAsWritten(url: string, hostnameOf: string -> Option<string>): string {
    match hostnameOf(url)
    case None => url
    case Some(host) => ReplaceFirst(host, WWW, "")
  }

  /** The hostname without a leading "www.". */
  function StripWww(host: string): (r: string)
    ensures StartsWith(host, WWW) ==> host == WWW + r
    ensures !StartsWith(host, WWW) ==> r == host
  {
    if StartsWith(host, WWW) then host[|WWW|..] else host
  }

  /** `getDomainFromUrl` as evidently intended: the hostname without a
      leading "www.", or the input itself when it does not parse. */
  function DomainFromUrl(url: string, hostnameOf: string -> Option<string>): string {
    match hostnameOf(url)
    case None => url
    case Some(host) => StripWww(host)
  }

  /** Where the hostname starts with "www." or holds no "www." at all, the
      code as written and the intended one agree. */
  lemma DomainAgreesOnOrdinaryHosts(url: string, hostnameOf: string -> Option<string>)
    requires hostnameOf(url).Some? ==>
               StartsWith(hostnameOf(url).value, WWW) || !Contains(hostnameOf(url).value, WWW)
    ensures DomainFromUrlAsWritten(url, hostnameOf) == DomainFromUrl(url, hostnameOf)
  {
    if hostnameOf(url).Some? {
      var host := hostnameOf(url).value;
      if StartsWith(host, WWW) {
        assert OccursAt(host, WWW, 0);
        assert IndexOf(host, WWW) == Some(0);
      }
    }
  }

  /** "awww.com" as written loses the "www." in its middle and lands in the
      group of "acom"; the intended domain is the hostname itself. */
  lemma WwwInsideHostAsWritten()
    ensures DomainFromUrlAsWritten("https://awww.com/", u => Some("awww.com")) == "acom"
    ensures DomainFromUrl("https://awww.com/", u => Some("awww.com")) == "awww.com"
  {
    var host := "awww.com";
    assert !OccursAt(host, WWW, 0) by {
      assert host[0..4][0] == 'a' != WWW[0];
    }
    assert OccursAt(host, WWW, 1);
    assert IndexOf(host, WWW) == Some(1);
    assert ReplaceFirst(host, WWW, "") == host[..1] + host[5..];
  }

  // ---------------------------------------------------------------------
  // The trend of a domain

  datatype Trend = Up | Down | Stable

  /** The score change that counts as a trend. */
  const TREND_THRESHOLD := 5.0

  /** The copy sorted newest first (`sortedAnalyses`, and the copy
      `calculateTrend` sorts). */
  function SortNewestFirst(analyses: seq<Analysis>): (r: seq<Analysis>)
    ensures |r| == |analyses|
  {
    SortDescending(analyses, CreatedAt)
  }

  /** `calculateTrend`. */
  function CalculateTrend(analyses: seq<Analysis>): Trend {
    if |analyses| < 2 then Stable
    else
      var sorted := SortNewestFirst(analyses);
      var latest := Score(sorted[0]);
      var previous := Score(sorted[1]);
      if latest > previous + TREND_THRESHOLD then Up
      else if latest < previous - TREND_THRESHOLD then Down
      else Stable
  }

  /** Fewer than two analyses are stable. Otherwise the trend compares the
      newest analysis with the newest of the others: up when the score rose
      by more than 5, down when it fell by more than 5, stable within 5 either
      way. */
  lemma TrendComparesTwoNewest(analyses: seq<Analysis>)
    ensures |analyses| < 2 ==> CalculateTrend(analyses) == Stable
    ensures |analyses| >= 2 ==>
              var latest := SortNewestFirst(analyses)[0];
              var previous := SortNewestFirst(analyses)[1];
              var change := Score(latest) - Score(previous);
              && multiset{latest, previous} <= multiset(analyses)
              && (forall a :: a in analyses ==> a.createdAt <= latest.createdAt)
              && (forall a :: a in multiset(analyses) - multiset{latest} ==> a.createdAt <= previous.createdAt)
              && (CalculateTrend(analyses) == Up <==> change > 5.0)
              && (CalculateTrend(analyses) == Down <==> change < -5.0)
              && (CalculateTrend(analyses) == Stable <==> -5.0 <= change <= 5.0)
  {
    if |analyses| >= 2 {
      SortedHeadIsLargest(analyses, CreatedAt);
      SortedSecondIsLargestOfRest(analyses, CreatedAt);
      TrendOfChange(analyses);
    }
  }

  lemma TrendOfChange(analyses: seq<Analysis>)
    requires |analyses| >= 2
    ensures var change := Score(SortNewestFirst(analyses)[0]) - Score(SortNewestFirst(analyses)[1]);
            && (CalculateTrend(analyses) == Up <==> change > 5.0)
            && (CalculateTrend(analyses) == Down <==> change < -5.0)
            && (CalculateTrend(analyses) == Stable <==> -5.0 <= change <= 5.0)
  {
  }

  /** The analysis shown in a domain's header (`latestAnalysis`): a newest
      one. */
  function LatestAnalysis(analyses: seq<Analysis>): (r: Analysis)
    requires |analyses| > 0
    ensures r in analyses
    ensures forall a :: a in analyses ==> a.createdAt <= r.createdAt
  {
    SortedHeadIsLargest(analyses, CreatedAt);
    SortNewestFirst(analyses)[0]
  }

  // ---------------------------------------------------------------------
  // Grouping by domain

  /** The key an analysis is grouped under: `getDomainFromUrl` as the code
      has it. */
  function DomainOf(a: Analysis, hostnameOf: string -> Option<string>): string {
    DomainFromUrlAsWritten(a.sitemapUrl, hostnameOf)
  }

  /** The property names a plain object `{}` inherits from `Object.prototype`.
      Looking one of them up on the grouped object finds the inherited member,
      which is truthy and has no `push`. */
  const InheritedKeys: set<string> := {
    "constructor", "__proto__", "hasOwnProperty", "isPrototypeOf",
    "propertyIsEnumerable", "toLocaleString", "toString", "valueOf",
    "__defineGetter__", "__defineSetter__", "__lookupGetter__", "__lookupSetter__"
  }

  predicate IsInheritedKey(key: string) {
    key in InheritedKeys
  }

  /** Some analysis is grouped under an inherited property name. */
  predicate HasInheritedDomain(analyses: seq<Analysis>, hostnameOf: string -> Option<string>) {
    exists k :: 0 <= k < |analyses| && IsInheritedKey(DomainOf(analyses[k], hostnameOf))
  }

  /** One more analysis has an inherited domain exactly when an earlier one
      did or its own domain is one. */
  lemma HasInheritedDomainStep(analyses: seq<Analysis>, i: nat, hostnameOf: string -> Option<string>)
    requires i < |analyses|
    ensures HasInheritedDomain(analyses[..i + 1], hostnameOf) <==>
              HasInheritedDomain(analyses[..i], hostnameOf) || IsInheritedKey(DomainOf(analyses[i], hostnameOf))
  {
    var next := analyses[..i + 1];
    assert next[i] == analyses[i];
    if HasInheritedDomain(next, hostnameOf) {
      var k :| 0 <= k < |next| && IsInheritedKey(DomainOf(next[k], hostnameOf));
      if k < i {
        assert next[k] == analyses[..i][k];
      }
    }
    if HasInheritedDomain(analyses[..i], hostnameOf) {
      var k :| 0 <= k < i && IsInheritedKey(DomainOf(analyses[..i][k], hostnameOf));
      assert next[k] == analyses[..i][k];
    }
  }

  /** The analyses of one domain, in input order. */
  function InDomain(analyses: seq<Analysis>, domain: string, hostnameOf: string -> Option<string>): seq<Analysis> {
    if analyses == [] then []
    else
      var last := analyses[|analyses| - 1];
      InDomain(analyses[..|analyses| - 1], domain, hostnameOf)
        + (if DomainOf(last, hostnameOf) == domain then [last] else [])
  }

  /** The domains in the order their first analysis appears: the key order of
      the grouped object. */
  function DomainOrder(analyses: seq<Analysis>, hostnameOf: string -> Option<string>): seq<string> {
    if analyses == [] then []
    else
      var order := DomainOrder(analyses[..|analyses| - 1], hostnameOf);
      var domain := DomainOf(analyses[|analyses| - 1], hostnameOf);
      if domain in order then order else order + [domain]
  }

  /** `groupAnalysesByDomain`: the grouped object as a map, and its keys in
      insertion order. The reduce throws a `TypeError` (`failed`) at the first
      analysis whose domain is an inherited property name: the lookup finds
      the inherited member, so no group is created and `push` is missing. */
  method GroupAnalysesByDomain(analyses: seq<Analysis>, hostnameOf: string -> Option<string>)
    returns (failed: bool, groups: map<string, seq<Analysis>>, domains: seq<string>)
    ensures failed <==> HasInheritedDomain(analyses, hostnameOf)
    ensures !failed ==> domains == DomainOrder(analyses, hostnameOf)
    ensures !failed ==> forall d :: d in groups <==> d in domains
    ensures !failed ==> forall d :: d in groups ==> groups[d] == InDomain(analyses, d, hostnameOf)
  {
    failed := false;
    groups := map[];
    domains := [];
    for i := 0 to |analyses|
      invariant !HasInheritedDomain(analyses[..i], hostnameOf)
      invariant domains == DomainOrder(analyses[..i], hostnameOf)
      invariant forall d :: d in groups <==> d in domains
      invariant forall d :: d in groups ==> groups[d] == InDomain(analyses[..i], d, hostnameOf)
    {
      var domain := DomainOf(analyses[i], hostnameOf);
      HasInheritedDomainStep(analyses, i, hostnameOf);
      if IsInheritedKey(domain) {
        assert HasInheritedDomain(analyses, hostnameOf) by {
          assert IsInheritedKey(DomainOf(analyses[i], hostnameOf));
        }
        failed := true;
        return;
      }
      assert analyses[..i + 1][..i] == analyses[..i];
      if domain !in groups {
        InDomainListed(analyses[..i], domain, hostnameOf);
        groups := groups[domain := []];
        domains := domains + [domain];
      }
      groups := groups[domain := groups[domain] + [analyses[i]]];
    }
    assert analyses[..|analyses|] == analyses;
  }

  /** A domain has analyses exactly when it is listed. */
  lemma {:induction false} InDomainListed(analyses: seq<Analysis>, domain: string, hostnameOf: string -> Option<string>)
    ensures |InDomain(analyses, domain, hostnameOf)| > 0 <==> domain in DomainOrder(analyses, hostnameOf)
  {
    if analyses != [] {
      InDomainListed(analyses[..|analyses| - 1], domain, hostnameOf);
    }
  }

  /** An analysis is in a domain's group exactly when it is one of the
      analyses and its URL has that domain. */
  lemma {:induction false} InDomainMembers(analyses: seq<Analysis>, domain: string, hostnameOf: string -> Option<string>)
    ensures forall a :: a in InDomain(analyses, domain, hostnameOf) <==>
                        a in analyses && DomainOf(a, hostnameOf) == domain
  {
    if analyses != [] {
      var init := analyses[..|analyses| - 1];
      InDomainMembers(init, domain, hostnameOf);
      assert analyses == init + [analyses[|analyses| - 1]];
    }
  }

  /** Every domain is listed once. */
  lemma {:induction false} DomainOrderDistinct(analyses: seq<Analysis>, hostnameOf: string -> Option<string>)
    ensures forall i, j :: 0 <= i < j < |DomainOrder(analyses, hostnameOf)| ==>
              DomainOrder(analyses, hostnameOf)[i] != DomainOrder(analyses, hostnameOf)[j]
  {
    if analyses != [] {
      var init := analyses[..|analyses| - 1];
      DomainOrderDistinct(init, hostnameOf);
      var order := DomainOrder(init, hostnameOf);
      var domain := DomainOf(analyses[|analyses| - 1], hostnameOf);
      if domain !in order {
        var next := order + [domain];
        assert DomainOrder(analyses, hostnameOf) == next;
        forall i, j | 0 <= i < j < |next| ensures next[i] != next[j] {
          assert next[i] == order[i];
          if j == |order| {
            assert next[j] == domain;
          } else {
            assert next[j] == order[j];
          }
        }
      }
    }
  }

  /** Exactly the domains of the analyses are listed. */
  lemma {:induction false} DomainOrderMembers(analyses: seq<Analysis>, hostnameOf: string -> Option<string>)
    ensures forall d :: d in DomainOrder(analyses, hostnameOf) <==>
                        exists k :: 0 <= k < |analyses| && DomainOf(analyses[k], hostnameOf) == d
  {
    if analyses != [] {
      var init := analyses[..|analyses| - 1];
      DomainOrderMembers(init, hostnameOf);
      forall d ensures d in DomainOrder(analyses, hostnameOf) <==>
                       exists k :: 0 <= k < |analyses| && DomainOf(analyses[k], hostnameOf) == d {
        if exists k :: 0 <= k < |analyses| && DomainOf(analyses[k], hostnameOf) == d {
          var k :| 0 <= k < |analyses| && DomainOf(analyses[k], hostnameOf) == d;
          if k < |init| {
            assert init[k] == analyses[k];
          }
        }
        if exists k :: 0 <= k < |init| && DomainOf(init[k], hostnameOf) == d {
          var k :| 0 <= k < |init| && DomainOf(init[k], hostnameOf) == d;
          assert analyses[k] == init[k];
        }
      }
    }
  }

  /** The number of analyses in the groups of `domains`. */
  function GroupSizes(analyses: seq<Analysis>, domains: seq<string>, hostnameOf: string -> Option<string>): nat {
    if domains == [] then 0
    else |InDomain(analyses, domains[0], hostnameOf)| + GroupSizes(analyses, domains[1..], hostnameOf)
  }

  lemma {:induction false} GroupSizesAppend(analyses: seq<Analysis>, a: seq<string>, b: seq<string>, hostnameOf: string -> Option<string>)
    ensures GroupSizes(analyses, a + b, hostnameOf) == GroupSizes(analyses, a, hostnameOf) + GroupSizes(analyses, b, hostnameOf)
  {
    if a != [] {
      assert (a + b)[0] == a[0] && (a + b)[1..] == a[1..] + b;
      GroupSizesAppend(analyses, a[1..], b, hostnameOf);
    } else {
      assert a + b == b;
    }
  }

  /** One more analysis adds one to the group of its own domain, if that is
      among `domains` (listed once each), and leaves the others alone. */
  lemma {:induction false} GroupSizesStep(analyses: seq<Analysis>, domains: seq<string>, hostnameOf: string -> Option<string>)
    requires |analyses| > 0
    requires forall i, j :: 0 <= i < j < |domains| ==> domains[i] != domains[j]
    ensures var last := DomainOf(analyses[|analyses| - 1], hostnameOf);
            GroupSizes(analyses, domains, hostnameOf)
              == GroupSizes(analyses[..|analyses| - 1], domains, hostnameOf) + (if last in domains then 1 else 0)
  {
    if domains != [] {
      GroupSizesStep(analyses, domains[1..], hostnameOf);
      var last := DomainOf(analyses[|analyses| - 1], hostnameOf);
      if last == domains[0] {
        assert last !in domains[1..];
      }
    }
  }

  /** The groups hold every analysis exactly once: their sizes add up to the
      number of analyses. */
  lemma {:induction false} GroupSizesSum(analyses: seq<Analysis>, hostnameOf: string -> Option<string>)
    ensures GroupSizes(analyses, DomainOrder(analyses, hostnameOf), hostnameOf) == |analyses|
  {
    if analyses != [] {
      var init := analyses[..|analyses| - 1];
      var order := DomainOrder(init, hostnameOf);
      var last := DomainOf(analyses[|analyses| - 1], hostnameOf);
      GroupSizesSum(init, hostnameOf);
      DomainOrderDistinct(init, hostnameOf);
      GroupSizesStep(analyses, order, hostnameOf);
      if last !in order {
        GroupSizesAppend(analyses, order, [last], hostnameOf);
        InDomainListed(init, last, hostnameOf);
        assert GroupSizes(analyses, [last], hostnameOf) == |InDomain(analyses, last, hostnameOf)|;
      }
    }
  }

  // ---------------------------------------------------------------------
  // Paging through a domain's analyses

  const ITEMS_PER_PAGE := 5

  /** A `slice` bound: negative counts from the end, and the result is
      clamped to [0, n]. */
  function SliceIndex(i: int, n: nat): (r: nat)
    ensures r <= n
    ensures 0 <= i <= n ==> r == i
  {
    if i < 0 then (if n + i < 0 then 0 else n + i)
    else if i > n then n
    else i
  }

  /** `Array.prototype.slice(start, end)`. */
  function Slice<T>(xs: seq<T>, start: int, end: int): seq<T> {
    var s := SliceIndex(start, |xs|);
    var e := SliceIndex(end, |xs|);
    if s < e then xs[s..e] else []
  }

  /** `paginatedAnalyses`: the analyses shown on page `page`. */
  function PageOf(sorted: seq<Analysis>, page: int): seq<Analysis> {
    Slice(sorted, (page - 1) * ITEMS_PER_PAGE, page * ITEMS_PER_PAGE)
  }

  /** `totalPages`, `Math.ceil(n / 5)`. */
  function TotalPages(n: nat): nat {
    (n + ITEMS_PER_PAGE - 1) / ITEMS_PER_PAGE
  }

  /** The page count is the least number of pages of 5 that hold n items. */
  lemma TotalPagesIsCeiling(n: nat)
    ensures n <= ITEMS_PER_PAGE * TotalPages(n)
    ensures TotalPages(n) == 0 || ITEMS_PER_PAGE * (TotalPages(n) - 1) < n
  {
  }

  /** A page holds at most 5 analyses; a page between 1 and the page count
      holds the next run of the sorted list and is not empty. */
  lemma PageFacts(sorted: seq<Analysis>, page: int)
    ensures |PageOf(sorted, page)| <= ITEMS_PER_PAGE
    ensures 1 <= page <= TotalPages(|sorted|) ==>
              var start := (page - 1) * ITEMS_PER_PAGE;
              var end := if page * ITEMS_PER_PAGE <= |sorted| then page * ITEMS_PER_PAGE else |sorted|;
              start < end && PageOf(sorted, page) == sorted[start..end]
  {
  }

  /** The pages 1 .. p one after another. */
  function PagesThrough(sorted: seq<Analysis>, p: nat): seq<Analysis> {
    if p == 0 then [] else PagesThrough(sorted, p - 1) + PageOf(sorted, p)
  }

  lemma {:induction false} PagesThroughPrefix(sorted: seq<Analysis>, p: nat)
    ensures PagesThrough(sorted, p) == sorted[..if p * ITEMS_PER_PAGE <= |sorted| then p * ITEMS_PER_PAGE else |sorted|]
  {
    if p > 0 {
      PagesThroughPrefix(sorted, p - 1);
      var a := if (p - 1) * ITEMS_PER_PAGE <= |sorted| then (p - 1) * ITEMS_PER_PAGE else |sorted|;
      var b := if p * ITEMS_PER_PAGE <= |sorted| then p * ITEMS_PER_PAGE else |sorted|;
      assert sorted[..b] == sorted[..a] + sorted[a..b];
    }
  }

  /** Read page by page, the pages show every analysis once, in order. */
  lemma PagesCoverAll(sorted: seq<Analysis>)
    ensures PagesThrough(sorted, TotalPages(|sorted|)) == sorted
  {
    PagesThroughPrefix(sorted, TotalPages(|sorted|));
    TotalPagesIsCeiling(|sorted|);
    assert sorted[..|sorted|] == sorted;
  }

  /** The page state of one domain's card, stepped by Previous and Next. */
  class Pager {
    var page: int
    const totalPages: nat

    ghost predicate Valid()
      reads this
    {
      1 <= page <= totalPages
    }

    /** A card for `n` analyses starts on page 1. */
    constructor(n: nat)
      requires n > 0
      ensures totalPages == TotalPages(n) && page == 1 && Valid()
    {
      totalPages := TotalPages(n);
      page := 1;
    }

    /** Previous: `Math.max(1, p - 1)`. */
    method Previous()
      modifies this
      ensures page == if old(page) - 1 < 1 then 1 else old(page) - 1
      ensures old(Valid()) ==> Valid()
    {
      page := if page - 1 < 1 then 1 else page - 1;
    }

    /** Next: `Math.min(totalPages, p + 1)`. */
    method Next()
      modifies this
      ensures page == if totalPages < old(page) + 1 then totalPages else old(page) + 1
      ensures old(Valid()) ==> Valid()
    {
      page := if totalPages < page + 1 then totalPages else page + 1;
    }
  }

  // ---------------------------------------------------------------------
  // The listed domains

  datatype Tab = All | Improving | NeedsAttention

  /** A domain and its analyses: one entry of `Object.entries`. */
  type Entry = (string, seq<Analysis>)

  /** The entries of the grouped object, in key order. */
  function Entries(groups: map<string, seq<Analysis>>, domains: seq<string>): (r: seq<Entry>)
    requires forall k :: 0 <= k < |domains| ==> domains[k] in groups
    ensures |r| == |domains|
    ensures forall k :: 0 <= k < |domains| ==> r[k] == (domains[k], groups[domains[k]])
  {
    seq(|domains|, k requires 0 <= k < |domains| => (domains[k], groups[domains[k]]))
  }

  /** The search box: the domain contains the query, ignoring case. */
  predicate MatchesQuery(domain: string, query: string) {
    Contains(ToLower(domain), ToLower(query))
  }

  predicate MatchesTab(trend: Trend, tab: Tab) {
    match tab
    case Improving => trend == Up
    case NeedsAttention => trend == Down
    case All => true
  }

  /** The score the list is ordered by: that of the group's first analysis.
      Groups are never empty, so the 0.0 is never used. */
  function EntryScore(e: Entry): real {
    if |e.1| == 0 then 0.0 else Score(e.1[0])
  }

  /** `Array.prototype.filter`: every element that passes the test, as often
      as it occurs, and nothing else. */
  function Filter<T(!new)>(xs: seq<T>, keep: T -> bool): (r: seq<T>)
    ensures forall x :: x in r <==> x in xs && keep(x)
    ensures forall x :: multiset(r)[x] == if keep(x) then multiset(xs)[x] else 0
  {
    if xs == [] then []
    else
      var head := if keep(xs[0]) then [xs[0]] else [];
      var rest := Filter(xs[1..], keep);
      assert multiset(xs) == multiset([xs[0]]) + multiset(xs[1..]) by {
        assert xs == [xs[0]] + xs[1..];
      }
      assert multiset(head + rest) == multiset(head) + multiset(rest);
      head + rest
  }

  /** `domains`: the entries whose domain matches the query, then those whose
      trend matches the tab, sorted by score, highest first. */
  function DomainListing(entries: seq<Entry>, query: string, tab: Tab): seq<Entry> {
    var byQuery := Filter(entries, (e: Entry) => MatchesQuery(e.0, query));
    var byTab := Filter(byQuery, (e: Entry) => MatchesTab(CalculateTrend(e.1), tab));
    SortDescending(byTab, EntryScore)
  }

  /** An entry passes both the search box and the tab. */
  predicate Shown(e: Entry, query: string, tab: Tab) {
    MatchesQuery(e.0, query) && MatchesTab(CalculateTrend(e.1), tab)
  }

  /** The listing holds exactly the entries that match both the query and the
      tab, each as often as in `entries`, highest score first. */
  lemma DomainListingFacts(entries: seq<Entry>, query: string, tab: Tab)
    ensures var r := DomainListing(entries, query, tab);
            && (forall e :: e in r <==> e in entries && Shown(e, query, tab))
            && (forall e :: multiset(r)[e] == if Shown(e, query, tab) then multiset(entries)[e] else 0)
            && Descending(r, EntryScore)
  {
    var keepQuery := (e: Entry) => MatchesQuery(e.0, query);
    var keepTab := (e: Entry) => MatchesTab(CalculateTrend(e.1), tab);
    var byQuery := Filter(entries, keepQuery);
    var byTab := Filter(byQuery, keepTab);
    var r := DomainListing(entries, query, tab);
    assert r == SortDescending(byTab, EntryScore);
    SortDescendingFacts(byTab, EntryScore);
    assert multiset(r) == multiset(byTab);
    forall e ensures multiset(r)[e] == if Shown(e, query, tab) then multiset(entries)[e] else 0 {
      assert multiset(byTab)[e] == if keepTab(e) then multiset(byQuery)[e] else 0;
      assert multiset(byQuery)[e] == if keepQuery(e) then multiset(entries)[e] else 0;
    }
    forall e ensures e in r <==> e in entries && Shown(e, query, tab) {
      assert e in r <==> multiset(r)[e] > 0;
      assert e in entries <==> multiset(entries)[e] > 0;
    }
  }

  /** An entry list with distinct keys holds each entry at most once. */
  lemma {:induction false} DistinctKeysCount(entries: seq<Entry>, e: Entry)
    requires forall i, j :: 0 <= i < j < |entries| ==> entries[i].0 != entries[j].0
    ensures multiset(entries)[e] <= 1
  {
    if entries != [] {
      var init := entries[..|entries| - 1];
      var last := entries[|entries| - 1];
      assert entries == init + [last];
      DistinctKeysCount(init, e);
      if last == e {
        assert e !in init by {
          forall i | 0 <= i < |init| ensures init[i] != e {
            assert init[i] == entries[i];
          }
        }
      }
    }
  }

  /** A listing drawn from an entry list with distinct keys, no entry more
      often than there, has distinct keys too. */
  lemma DistinctKeysKept(listing: seq<Entry>, entries: seq<Entry>)
    requires forall i, j :: 0 <= i < j < |entries| ==> entries[i].0 != entries[j].0
    requires forall e :: multiset(listing)[e] <= multiset(entries)[e]
    ensures forall i, j :: 0 <= i < j < |listing| ==> listing[i].0 != listing[j].0
  {
    forall i, j | 0 <= i < j < |listing| ensures listing[i].0 != listing[j].0 {
      if listing[i].0 == listing[j].0 {
        var a, b := listing[i], listing[j];
        assert a in multiset(entries) && b in multiset(entries);
        var ka :| 0 <= ka < |entries| && entries[ka] == a;
        var kb :| 0 <= kb < |entries| && entries[kb] == b;
        assert ka == kb;
        assert listing == listing[..j] + listing[j..];
        assert a in listing[..j] && a == listing[j..][0];
        assert multiset(listing)[a] == multiset(listing[..j])[a] + multiset(listing[j..])[a];
        DistinctKeysCount(entries, a);
        assert false;
      }
    }
  }

  /** Listing entries with distinct keys shows each key at most once. */
  lemma DomainListingDistinct(entries: seq<Entry>, query: string, tab: Tab)
    requires forall i, j :: 0 <= i < j < |entries| ==> entries[i].0 != entries[j].0
    ensures var r := DomainListing(entries, query, tab);
            forall i, j :: 0 <= i < j < |r| ==> r[i].0 != r[j].0
  {
    var r := DomainListing(entries, query, tab);
    DomainListingFacts(entries, query, tab);
    forall e ensures multiset(r)[e] <= multiset(entries)[e] {
    }
    DistinctKeysKept(r, entries);
  }

  /** The entries of a grouping of `history`: each is a listed domain with its
      group, and no domain comes twice. */
  lemma EntriesOfGroups(history: seq<Analysis>, hostnameOf: string -> Option<string>,
                        groups: map<string, seq<Analysis>>, domains: seq<string>)
    requires domains == DomainOrder(history, hostnameOf)
    requires forall d :: d in groups <==> d in domains
    requires forall d :: d in groups ==> groups[d] == InDomain(history, d, hostnameOf)
    ensures var entries := Entries(groups, domains);
            && (forall e :: e in entries <==>
                  e.0 in DomainOrder(history, hostnameOf) && e.1 == InDomain(history, e.0, hostnameOf))
            && (forall i, j :: 0 <= i < j < |entries| ==> entries[i].0 != entries[j].0)
  {
    var entries := Entries(groups, domains);
    forall e ensures e in entries <==> e.0 in domains && e.1 == InDomain(history, e.0, hostnameOf) {
      if e.0 in domains && e.1 == InDomain(history, e.0, hostnameOf) {
        var k :| 0 <= k < |domains| && domains[k] == e.0;
        assert entries[k] == e;
      }
    }
    DomainOrderDistinct(history, hostnameOf);
    forall i, j | 0 <= i < j < |entries| ensures entries[i].0 != entries[j].0 {
      assert entries[i].0 == domains[i] && entries[j].0 == domains[j];
    }
  }

  /** The listing built from a grouping of `history`. */
  lemma ListingOfGroups(history: seq<Analysis>, hostnameOf: string -> Option<string>,
                        groups: map<string, seq<Analysis>>, domains: seq<string>, query: string, tab: Tab)
    requires domains == DomainOrder(history, hostnameOf)
    requires forall d :: d in groups <==> d in domains
    requires forall d :: d in groups ==> groups[d] == InDomain(history, d, hostnameOf)
    ensures var r := DomainListing(Entries(groups, domains), query, tab);
            && (forall e :: e in r <==>
                  && e.0 in DomainOrder(history, hostnameOf)
                  && e.1 == InDomain(history, e.0, hostnameOf)
                  && MatchesQuery(e.0, query)
                  && MatchesTab(CalculateTrend(e.1), tab))
            && Descending(r, EntryScore)
            && (forall i, j :: 0 <= i < j < |r| ==> r[i].0 != r[j].0)
  {
    var entries := Entries(groups, domains);
    EntriesOfGroups(history, hostnameOf, groups, domains);
    DomainListingFacts(entries, query, tab);
    DomainListingDistinct(entries, query, tab);
  }

  /** The list of domain cards the history view shows for `history`, or
      `None` where grouping throws and the view fails to render. */
  method ListDomains(history: seq<Analysis>, hostnameOf: string -> Option<string>, query: string, tab: Tab)
    returns (listing: Option<seq<Entry>>)
    ensures listing.None? <==> HasInheritedDomain(history, hostnameOf)
    ensures listing.Some? ==>
              forall e :: e in listing.value <==>
                && e.0 in DomainOrder(history, hostnameOf)
                && e.1 == InDomain(history, e.0, hostnameOf)
                && MatchesQuery(e.0, query)
                && MatchesTab(CalculateTrend(e.1), tab)
    ensures listing.Some? ==> Descending(listing.value, EntryScore)
    ensures listing.Some? ==>
              forall i, j :: 0 <= i < j < |listing.value| ==> listing.value[i].0 != listing.value[j].0
  {
    var failed, groups, domains := GroupAnalysesByDomain(history, hostnameOf);
    if failed {
      return None;
    }
    ListingOfGroups(history, hostnameOf, groups, domains, query, tab);
    var shown := DomainListing(Entries(groups, domains), query, tab);
    listing := Some(shown);
  }
}
