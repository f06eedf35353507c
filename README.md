# Sitemap SEO analyser — verified model

This project is a Dafny model of the analysis pipeline of a sitemap SEO analyser: sitemap → pages → SEO score. It also models the pure helpers of its history view. It proves the promises each stage makes.

- **Scoring rules** (`seo_analysis.dfy`). Covers the title check (30..60 characters), the meta-description check (120..155), the load-time check (3000 / 5000 ms) and the aggregate score. The score is 100, less 20 per error and 5 per warning, clamped to [0, 100].
- **Sitemap discovery** (`sitemap_discovery.dfy`). Covers:
  - URL normalisation;
  - `Sitemap:` extraction from robots.txt;
  - the classification inside `validateSitemap`;
  - the staged `discover` run: the direct check, robots.txt, the six common paths, then one level of index expansion.

  Each loop of `discover` is a method proved against a function that states what the stage yields.
- **Page analysis and the batch runner** (`page_analyzer.dfy`). Covers `analyzePage` (result assembly and the failure fallback) and `analyzePages`. The latter runs batches of ten, counts completions, reports progress and pauses between batches.
- **The analysis run of the analyser component** (`sitemap_analyzer.dfy`). A class holds the component's state: `analyzing`, `progress`, `error`, `results`. Its method runs the per-URL loop and then builds the summary.
- **The history view** (`history_page.dfy`, with `stable_sort.dfy`). Covers:
  - the domain of a sitemap URL;
  - the score trend of a domain;
  - grouping saved analyses by domain;
  - paging (5 per page, clamped Previous / Next);
  - the searched, tab-filtered, score-sorted list of domains.
- **Support modules.** `text.dfy` holds the JavaScript string operations the code relies on (`trim`, `toLowerCase`, `split`/`join`, `indexOf`, `includes`, `replace` of the first match, decimal rendering). `analysis_types.dfy` holds the result shapes. `wrappers.dfy` holds `Option`/`Result`.

Library calls are function-valued parameters, so every property holds for every behaviour of them:
- the `URL` constructor (`parseUrl`, `origin`, `hostnameOf`);
- the proxied fetch (`fetch`, and `PageEnv.fetch`, which also carries the measured load time);
- the XML parser (`XmlParseOutcome`);
- the DOM lookups of `<title>` and of the description meta (`titleOf`, `descriptionOf`);
- the sitemap validator used by `discover` (`validate`). `ValidateSitemapShape` ties it to the modelled `ValidateSitemap`, as written or corrected.

Where the repository's design description and the code disagree, the model follows the code:
- `analyzePages` returns results in input order, because `Promise.allSettled` keeps order. The description speaks of completion order.
- The fallback page of a failed analysis has `isOptimal = false` with empty issue lists. This is an exception to the rule that `isOptimal` means "no issues".
- The plain-text sitemap fallback runs only when the XML parse throws, where the description says it also runs when the document has neither shape. This is listed under Findings. `ValidateSitemap` models the code as written; `ValidateSitemapCorrected` is the intended validator.

String lengths are JavaScript's: `Text.Utf16Length` counts UTF-16 code units, two for a character outside the Basic Multilingual Plane. The history view groups analyses by the domain as the code computes it (`DomainFromUrlAsWritten`); the intended domain `DomainFromUrl` is kept beside it for the finding below.

## Model

| member | source | states |
|---|---|---|
| SeoAnalysis.AnalyzeTitleTag | src/utils/seoAnalysis.ts:13-47 | lengths are UTF-16 code units, as `title.length` counts them. Text and length are echoed back. `isOptimal` holds iff there are no issues. An empty title gives exactly the "Missing title tag" error. A non-empty title gives at most one issue and no error: "too short" iff 0 < length < 30, "too long" iff length > 60. So it is optimal iff 30 ≤ length ≤ 60 |
| SeoAnalysis.AnalyzeMetaDescription | src/utils/seoAnalysis.ts:49-83 | the same three-way rule over UTF-16 code units with the thresholds 120 and 155: "Missing meta description" is an error, too short and too long are warnings, and `isOptimal` holds iff there are no issues |
| SeoAnalysis.AstralTitleLength | src/utils/seoAnalysis.ts:25-47 | a title of characters beyond the Basic Multilingual Plane has twice as many code units as characters, so it is optimal from 15 to 30 characters |
| SeoAnalysis.AnalyzeLoadTime | src/utils/seoAnalysis.ts:85-108 | at most one issue. The "Very slow load time" error iff > 5000 ms. The "Slow load time" warning iff 3000 < t ≤ 5000. No issue iff ≤ 3000. The load time is echoed back |
| SeoAnalysis.CalculateSeoScore | src/utils/seoAnalysis.ts:110-124 | the score always lies in [0, 100] |
| SeoAnalysis.ScoreFullIffNoIssues | src/utils/seoAnalysis.ts:110-124 | the score is 100 exactly when no analysis has an issue (every issue is an error or a warning) |
| SeoAnalysis.ScoreOfThree | src/utils/seoAnalysis.ts:110-124 | the score of three issue lists is 100 − 20·errors − 5·warnings of their concatenation, clamped, and is 100 iff the concatenation is empty |
| SeoAnalysis.ScoreOrderIndependent | src/utils/seoAnalysis.ts:110-124 | the score does not depend on the order of the analyses (any permutation gives the same score) |
| SeoAnalysis.CountAcrossPermutation | src/utils/seoAnalysis.ts:112-117 | the error and warning counts are invariant under permutation of the analyses |
| SeoAnalysis.AddingIssueNeverRaisesScore | src/utils/seoAnalysis.ts:119-123 | adding an issue to any analysis never raises the score, and lowers it whenever it was above 0 |
| SeoAnalysis.CountAcrossAddIssue | src/utils/seoAnalysis.ts:112-117 | adding an issue raises exactly the count of its own kind, by one |
| SeoAnalysis.ErrorsPlusWarningsAcross | src/utils/seoAnalysis.ts:111-117 | errors plus warnings equal the total number of issues |
| AnalysisTypes.ErrorsPlusWarnings | src/types/analysis.ts:1 | because an issue is only an error or a warning, the two counts of a list add up to its length |
| AnalysisTypes.CountOfKindZero | src/components/analyzer/SitemapAnalyzer.tsx:75-81 | a list has no issue of a kind, as `filter(i => i.type === …).length` counts them, exactly when none of its issues has that kind |
| AnalysisTypes.CountOfKindAppend | src/utils/seoAnalysis.ts:112-117 | counting issues of a kind distributes over concatenation |
| PageAnalyzer.AnalyzePage | src/services/PageAnalyzerService.ts:6-74 | `analyzePage` never fails. The result carries the URL, has no images and a score in [0, 100]. A failed fetch gives score 0 and the single fallback error |
| PageAnalyzer.AnalyzedPageScore | src/services/PageAnalyzerService.ts:31-53 | on success the issues are the title's, then the description's, then the performance issues, in that order. The score is the clamped 100 − 20·errors − 5·warnings of that list, and is 100 iff the list is empty |
| PageAnalyzer.ScoredPage | src/services/PageAnalyzerService.ts:35-52 | a page scored by `calculateSeoScore` over three lists and listing their issues in order has the score of its own issue list |
| PageAnalyzer.NonHtmlScoresAtMost60 | src/services/PageAnalyzerService.ts:15-39 | a reply without `<!DOCTYPE html>` or `<html` leaves title and description empty. Both are reported missing as errors, so the score is at most 60 |
| PageAnalyzer.FailedPageShape | src/services/PageAnalyzerService.ts:54-72 | a failed fetch gives score 0 and exactly one error "Failed to analyze page". Its details are the thrown message, or "Unknown error" for a non-`Error` throw. Title and description are empty, not optimal and issue-free; performance is zero |
| PageAnalyzer.AnalyzeAll | src/services/PageAnalyzerService.ts:85-92 | one analysis per URL, each that URL's, in input order |
| PageAnalyzer.MapUrls | src/services/PageAnalyzerService.ts:85-87 | the per-URL analysis applied to each URL of a batch, in order |
| PageAnalyzer.AnalyzePages | src/services/PageAnalyzerService.ts:76-104 | returns the analysis of every URL in input order. The progress values reported are k/n·100 for k = 1..n. There are ⌈n/10⌉ − 1 pauses. The batches cover the URLs in order, each holding 1..10 URLs |
| PageAnalyzer.RunInBatches | src/services/PageAnalyzerService.ts:76-104 | the batch loop over any per-URL analysis, with the same guarantees as `AnalyzePages` |
| PageAnalyzer.RunBatch | src/services/PageAnalyzerService.ts:82-95 | one batch: the next min(10, remaining) URLs. Their results extend the pages in order, progress is reported for each, and the batch is recorded |
| PageAnalyzer.ReportBatch | src/services/PageAnalyzerService.ts:89-95 | the `forEach` over settled results: each result is pushed, `completed` advances by the batch size, and one progress value is reported per result |
| PageAnalyzer.MapUrlsAppend | src/services/PageAnalyzerService.ts:85-92 | analysing a concatenation of URL lists is the concatenation of the analyses (order preserved across batches) |
| PageAnalyzer.AnalyzeAllAppend | src/services/PageAnalyzerService.ts:85-92 | the same for `analyzePage` |
| PageAnalyzer.ProgressValuesNext | src/services/PageAnalyzerService.ts:93-94 | one more completion appends (m+1)/n·100 to the progress values |
| PageAnalyzer.BatchCount | src/services/PageAnalyzerService.ts:81-100 | the loop ends at the first multiple of ten at or above n, so it ran ⌈n/10⌉ batches |
| PageAnalyzer.ProgressRisesToHundred | src/services/PageAnalyzerService.ts:93-94 | the reported progress rises strictly with every completed page and the last value is exactly 100 |
| SitemapAnalysis.Summarize | src/components/analyzer/SitemapAnalyzer.tsx:75-94 | `totalPages` is the number of URLs, `criticalIssues` the total of error issues and `warnings` the total of warning issues across the pages, and the average score times the number of analysed pages is the sum of their scores |
| SitemapAnalysis.IssueTotalZero | src/components/analyzer/SitemapAnalyzer.tsx:75-81 | the total of a kind across pages is 0 exactly when no page lists an issue of that kind |
| SitemapAnalysis.SummaryCountsKinds | src/components/analyzer/SitemapAnalyzer.tsx:75-81 | `criticalIssues` is 0 exactly when no page lists an error, and `warnings` is 0 exactly when no page lists a warning |
| SitemapAnalysis.CriticalPlusWarnings | src/components/analyzer/SitemapAnalyzer.tsx:75-81 | `criticalIssues + warnings` equals the number of issues across the pages: every issue is counted once |
| SitemapAnalysis.TotalsAddUp | src/components/analyzer/SitemapAnalyzer.tsx:75-81 | the error and warning totals across pages add up to all issues |
| SitemapAnalysis.AnalyzedPagesReflectIssues | src/components/analyzer/SitemapAnalyzer.tsx:65 | every analysed page has a score in [0, 100] that is 100 exactly when it has no issue |
| SitemapAnalysis.ScoreSumBounds | src/components/analyzer/SitemapAnalyzer.tsx:83 | the score sum lies in [0, 100·n] and is 100·n exactly when there are no issues |
| SitemapAnalysis.AverageOfBoundedSum | src/components/analyzer/SitemapAnalyzer.tsx:83 | an average of a sum in [0, 100·n] over n lies in [0, 100] and is 100 exactly when the sum is 100·n |
| SitemapAnalysis.AverageScoreFacts | src/components/analyzer/SitemapAnalyzer.tsx:83 | the average score lies in [0, 100] and is 100 exactly when there are no critical issues and no warnings |
| SitemapAnalysis.RunSummaryFacts | src/components/analyzer/SitemapAnalyzer.tsx:61-94 | for a non-empty URL list: one page per URL, every issue counted once, and an average score in [0, 100] that is 100 exactly when no page has an issue |
| SitemapAnalysis.ProgressLogNext | src/components/analyzer/SitemapAnalyzer.tsx:67 | one more `setProgress` extends the logged values by (i+1)/n·100 |
| SitemapAnalysis.SitemapAnalyzer.constructor | src/components/analyzer/SitemapAnalyzer.tsx:22-25 | the component starts idle, with progress 0, no error and no results |
| SitemapAnalysis.SitemapAnalyzer.SetProgress | src/components/analyzer/SitemapAnalyzer.tsx:23 | sets `progress`, logs the value and changes nothing else |
| SitemapAnalysis.SitemapAnalyzer.AnalyzeUrls | src/components/analyzer/SitemapAnalyzer.tsx:60-72 | the per-URL loop: the results are each URL's analysis, in order. Progress is reported as (i+1)/n·100 after each and ends at 100. `analyzing`, `error` and `results` are untouched |
| SitemapAnalysis.SitemapAnalyzer.AnalyzeNextUrl | src/components/analyzer/SitemapAnalyzer.tsx:63-67 | one turn: push URL i's analysis and set progress to (i+1)/n·100 |
| SitemapAnalysis.SitemapAnalyzer.AnalyzeSitemap | src/components/analyzer/SitemapAnalyzer.tsx:47-119 | `analyzing` is false at the end in every case. A failed URL fetch sets its message as the error, and an empty list sets "No URLs found in sitemap", in both cases before any page is analysed and with the results unchanged. Otherwise the results are the pages in URL order with their summary (`totalPages` = number of URLs), progress ends at 100, and a failed history save sets its message as the error |
| SitemapDiscovery.NormalizeUrlCases | src/services/SitemapDiscoveryService.ts:38-66 | a trimmed URL with a scheme is parsed as it is. Otherwise `https://` is tried before `http://`. The URL is rejected iff every applicable parse fails |
| SitemapDiscovery.NormalizeAll | src/services/SitemapDiscoveryService.ts:112 | `map(normalizeUrl)` succeeds iff every URL normalises, and then yields each URL's normal form, in order |
| SitemapDiscovery.SitemapLineValueAfterColon | src/services/SitemapDiscoveryService.ts:109-110 | an announcing line always has a colon. Its value is the trimmed text after the first colon, so later colons (as in `https://`) survive |
| SitemapDiscovery.ExtractSitemapValuesMembers | src/services/SitemapDiscoveryService.ts:107-111 | a value is extracted iff it is non-empty and some line, lower-cased and trimmed, starts with `sitemap:` and announces it |
| SitemapDiscovery.ExtractSitemapValuesAppend | src/services/SitemapDiscoveryService.ts:107-111 | extraction works line by line, so values keep robots.txt line order |
| SitemapDiscovery.CheckRobotsTxt | src/services/SitemapDiscoveryService.ts:104-118 | a failed robots.txt fetch, or any announced URL that cannot be normalised, gives `[]`. Otherwise the result is the normalised announced URLs, in robots.txt order |
| SitemapDiscovery.ClassifySitemap | src/services/SitemapDiscoveryService.ts:125-164 | as written: a `sitemapindex` with `sitemap` entries is an index whose children are the normalised string `loc`s. Else a `urlset` is a single. Else nothing. The plain-text test decides only when the inner block throws: when the parse throws, or when a child `loc` of an index cannot be normalised. Every location found is the URL asked about, tagged discovered, with children exactly when it is an index |
| SitemapDiscovery.ClassifySitemapCorrected | src/services/SitemapDiscoveryService.ts:125-164 | agrees with the XML classification whenever it returns a location, and every location is well shaped |
| SitemapDiscovery.TextFallbackCorrected | src/services/SitemapDiscoveryService.ts:148-164 | corrected: a document is recognised iff it has an XML sitemap shape or is a plain-text URL list. The two classifiers differ only on documents that parse but have neither shape, which the code as written rejects |
| SitemapDiscovery.TextSitemapMissedAsWritten | src/services/SitemapDiscoveryService.ts:148-164 | the body "http" parsed as a document with neither shape is rejected as written although it is a text sitemap; the corrected classifier accepts it |
| SitemapDiscovery.HttpLineIsTextSitemap | src/services/SitemapDiscoveryService.ts:157 | a body whose one line starts with `http` passes the plain-text test |
| SitemapDiscovery.ValidateSitemap | src/services/SitemapDiscoveryService.ts:120-169 | as written, built on `ClassifySitemap`: never throws. A failed fetch gives no location, and a found location is well shaped |
| SitemapDiscovery.ValidateSitemapCorrected | src/services/SitemapDiscoveryService.ts:120-169 | the corrected validator: a failed fetch gives no location, a found location is well shaped, and whatever the code as written finds it finds the same way |
| SitemapDiscovery.IndexLocs | src/services/SitemapDiscoveryService.ts:134-136 | keeps at most one `loc` per entry, and only non-empty strings |
| SitemapDiscovery.IndexLocsMembers | src/services/SitemapDiscoveryService.ts:134-136 | a `loc` is kept iff it is a non-empty string of some entry |
| SitemapDiscovery.SingleEntryLikeArray | src/services/SitemapDiscoveryService.ts:130-132 | one `<sitemap>` entry parsed as an object classifies exactly as a one-element array |
| SitemapDiscovery.ValidateSitemapShape | src/services/SitemapDiscoveryService.ts:120-169 | `validateSitemap`, as written or corrected, is a well-shaped validator for `discover` |
| SitemapDiscovery.ValidateRobotsSitemaps | src/services/SitemapDiscoveryService.ts:209-216 | the robots loop keeps each announced URL that validates, in order, tagged `robots` |
| SitemapDiscovery.RobotsStageFacts | src/services/SitemapDiscoveryService.ts:209-216 | at most one location per announced URL, all tagged `robots`. Nothing is found iff no announced URL validates. For a well-shaped validator, only announced URLs are found |
| SitemapDiscovery.ScanPaths | src/services/SitemapDiscoveryService.ts:219-235 | the common-path loop visits the paths in order, keeps every hit and stops right after the first `single` hit |
| SitemapDiscovery.CommonScanFacts | src/services/SitemapDiscoveryService.ts:219-235 | each path is tried at most once. Every hit but the last is an index, and hits are tagged discovered. The scan finds nothing exactly when no path validates. Every validating path the scan reaches (all earlier paths missed or were indexes, since an `index` hit does not stop the scan) is in the result |
| SitemapDiscovery.CommonScanShape | src/services/SitemapDiscoveryService.ts:219-235 | at most one hit per path, every hit but the last an index, all tagged discovered for a well-shaped validator |
| SitemapDiscovery.CommonScanFinds | src/services/SitemapDiscoveryService.ts:219-235 | nothing is found exactly when no path validates, and every reached path that validates is found |
| SitemapDiscovery.FoundBeforeExpansionSources | src/services/SitemapDiscoveryService.ts:209-236 | before expansion the locations are robots.txt's (all tagged `robots`) when it gave any. Otherwise they all come from the common-path scan (tagged discovered), which runs only then |
| SitemapDiscovery.ValidateChildren | src/services/SitemapDiscoveryService.ts:243-256 | the children of one index, each normalised again and validated. Valid ones are kept in child order, and a child that cannot be normalised aborts with its URL |
| SitemapDiscovery.ExpandChildrenFacts | src/services/SitemapDiscoveryService.ts:243-256 | expanding an index fails iff some child cannot be normalised, and then names such a child. On success there is one location per child that normalises and validates (so at most one per child), tagged discovered |
| SitemapDiscovery.ExpandIndexSitemaps | src/services/SitemapDiscoveryService.ts:238-257 | only the indexes present before expansion are expanded (one level deep), and their children's locations are appended in order |
| SitemapDiscovery.ExpandAllFacts | src/services/SitemapDiscoveryService.ts:239-257 | expansion fails only on a child URL of one of the indexes that cannot be normalised. What it finds is tagged discovered |
| SitemapDiscovery.ExpandAllLength | src/services/SitemapDiscoveryService.ts:243-256 | a successful expansion yields one location per valid child of the indexes |
| SitemapDiscovery.ExpandAllFailure | src/services/SitemapDiscoveryService.ts:243-244 | a failed expansion names a child of some index that cannot be normalised |
| SitemapDiscovery.ExpandAllDiscovered | src/services/SitemapDiscoveryService.ts:252-255 | every location expansion adds is tagged discovered |
| SitemapDiscovery.ExpandIndexesFacts | src/services/SitemapDiscoveryService.ts:238-259 | expansion keeps the locations found so far as a prefix and only appends discovered ones. Its length is the pre-expansion count plus the valid children. With no index it changes nothing |
| SitemapDiscovery.Discover | src/services/SitemapDiscoveryService.ts:171-264 | `discover` does the following, stage by stage. An input that cannot be normalised throws. A direct candidate (mentions "sitemap" in any case) that validates is returned alone, tagged `direct`. Otherwise the result is robots.txt's locations, or, if there are none, the common-path scan, followed by one level of index expansion |
| SitemapDiscovery.DiscoverFailures | src/services/SitemapDiscoveryService.ts:171-263 | the only error is "Invalid URL format". It is raised for the input when that cannot be normalised, otherwise for a child URL that cannot be; there is no partial result |
| SitemapDiscovery.DiscoverSources | src/services/SitemapDiscoveryService.ts:180-236 | a `direct` location always comes alone, and `robots` locations come before all others |
| StableSort.Insert | src/components/history/HistoryPage.tsx:37-39 | insertion keeps every element: one longer, the same multiset plus the new element |
| StableSort.SortDescending | src/components/history/HistoryPage.tsx:37-39 | the sorted copy has the input's length and multiset |
| StableSort.InsertDescending | src/components/history/HistoryPage.tsx:37-39 | inserting into a descending list keeps it descending |
| StableSort.SortDescendingFacts | src/components/history/HistoryPage.tsx:307-311 | the sorted copy is a permutation of the input, ordered by descending key |
| StableSort.SortedHeadIsLargest | src/components/history/HistoryPage.tsx:37-41 | the first element of the sorted copy is an input element with the largest key |
| StableSort.SortedSecondIsLargestOfRest | src/components/history/HistoryPage.tsx:37-42 | the first two sorted elements are input elements, and the second has the largest key once the first is removed |
| HistoryPage.StripWww | src/components/history/HistoryPage.tsx:28 | removes "www." exactly when the host starts with it, and leaves other hosts unchanged |
| HistoryPage.DomainAgreesOnOrdinaryHosts | src/components/history/HistoryPage.tsx:25-32 | the code as written and the corrected domain agree on hosts that start with "www." or contain none |
| HistoryPage.WwwInsideHostAsWritten | src/components/history/HistoryPage.tsx:28 | as written, the host "awww.com" becomes "acom"; the corrected domain keeps "awww.com" |
| HistoryPage.SortNewestFirst | src/components/history/HistoryPage.tsx:65-67 | the sorted copy has the input's length (the input is not changed) |
| HistoryPage.TrendComparesTwoNewest | src/components/history/HistoryPage.tsx:34-47 | fewer than two analyses are stable. Otherwise the trend compares the newest analysis with the newest of the rest: up iff the score rose by more than 5, down iff it fell by more than 5, stable iff within ±5, including exactly ±5 |
| HistoryPage.LatestAnalysis | src/components/history/HistoryPage.tsx:65-69 | the header's analysis is one of the domain's analyses, and none is newer |
| HistoryPage.GroupAnalysesByDomain | src/components/history/HistoryPage.tsx:49-58 | keyed by `getDomainFromUrl` as written. The reduce throws exactly when some analysis's domain is a property name a plain object inherits (such as `constructor` or `__proto__`). Otherwise the groups are keyed exactly by the listed domains, in first-appearance order, and each group holds that domain's analyses in input order |
| HistoryPage.InDomainListed | src/components/history/HistoryPage.tsx:52-55 | a domain has a non-empty group iff it is listed |
| HistoryPage.InDomainMembers | src/components/history/HistoryPage.tsx:51-55 | an analysis is in a group iff it is among the analyses and its URL has that domain |
| HistoryPage.DomainOrderDistinct | src/components/history/HistoryPage.tsx:52-54 | every domain is listed once |
| HistoryPage.DomainOrderMembers | src/components/history/HistoryPage.tsx:49-58 | exactly the domains of the analyses are listed |
| HistoryPage.GroupSizesSum | src/components/history/HistoryPage.tsx:49-58 | the group sizes add up to the number of analyses, so every analysis is in exactly one group |
| HistoryPage.GroupSizesStep | src/components/history/HistoryPage.tsx:55 | one more analysis adds one to its own domain's group and leaves the others alone |
| HistoryPage.SliceIndex | src/components/history/HistoryPage.tsx:76-79 | a `slice` bound lies in [0, n] and is the index itself when that is in range |
| HistoryPage.TotalPagesIsCeiling | src/components/history/HistoryPage.tsx:81 | the page count is ⌈n/5⌉: the least number of 5-item pages that hold n items |
| HistoryPage.PageFacts | src/components/history/HistoryPage.tsx:63-79 | a page holds at most 5 analyses. A page between 1 and the page count is non-empty and is the run [(page−1)·5, min(page·5, n)) |
| HistoryPage.PagesThroughPrefix | src/components/history/HistoryPage.tsx:76-79 | pages 1..p together are the first min(5p, n) analyses |
| HistoryPage.PagesCoverAll | src/components/history/HistoryPage.tsx:76-81 | read page by page, the pages show every analysis exactly once, in order |
| HistoryPage.Pager.constructor | src/components/history/HistoryPage.tsx:62-81 | a card starts on page 1 of ⌈n/5⌉ |
| HistoryPage.Pager.Previous | src/components/history/HistoryPage.tsx:167 | Previous moves to max(1, page − 1), which keeps the page in range |
| HistoryPage.Pager.Next | src/components/history/HistoryPage.tsx:178 | Next moves to min(totalPages, page + 1), which keeps the page in range |
| HistoryPage.Entries | src/components/history/HistoryPage.tsx:297 | `Object.entries`: one (domain, analyses) pair per listed domain, in key order |
| HistoryPage.Filter | src/components/history/HistoryPage.tsx:298-306 | keeps exactly the elements that pass the test, each as often as it occurs in the input |
| HistoryPage.DomainListingFacts | src/components/history/HistoryPage.tsx:297-311 | the listing holds exactly the entries whose domain contains the query (ignoring case) and whose trend matches the tab (`improving` → up, `needs-attention` → down, all), each as often as among the entries. They are sorted by the first analysis's average score, highest first |
| HistoryPage.DistinctKeysCount | src/components/history/HistoryPage.tsx:297 | an entry list whose domains are distinct holds each entry at most once |
| HistoryPage.DistinctKeysKept | src/components/history/HistoryPage.tsx:297-311 | a listing that holds no entry more often than an entry list with distinct domains has distinct domains |
| HistoryPage.DomainListingDistinct | src/components/history/HistoryPage.tsx:297-311 | filtering and sorting entries with distinct domains shows each domain at most once |
| HistoryPage.EntriesOfGroups | src/components/history/HistoryPage.tsx:297 | `Object.entries` of the grouping: exactly the listed domains with their groups, no domain twice |
| HistoryPage.ListingOfGroups | src/components/history/HistoryPage.tsx:296-311 | the listing of a grouping: exactly its matching (domain, group) pairs, sorted highest score first, each domain once |
| HistoryPage.ListDomains | src/components/history/HistoryPage.tsx:296-311 | the view fails exactly when grouping throws. Otherwise each domain card is shown at most once, and the cards shown are exactly the (domain, group) pairs of the grouped history that match the query and the tab, sorted by score, highest first |
| Text.TrimInfix | src/services/SitemapDiscoveryService.ts:110 | `trim` returns an infix of the input that neither starts nor ends with whitespace |
| Text.Utf16Length | src/utils/seoAnalysis.ts:25-44 | `length` counts UTF-16 code units: between the number of characters and twice that, and 0 only for the empty string |
| Text.Utf16LengthByPlane | src/utils/seoAnalysis.ts:25-44 | one code unit per character in the Basic Multilingual Plane, two per character beyond it |
| Text.Utf16LengthAppend | src/utils/seoAnalysis.ts:25-44 | the code units of a concatenation are those of its parts |
| Text.ToLower | src/services/SitemapDiscoveryService.ts:109 | lower-casing keeps the length and maps each character (ASCII letters only; see Left out) |
| Text.IndexOf | src/components/history/HistoryPage.tsx:28 | the first occurrence of a pattern, or none exactly when it occurs nowhere |
| Text.ReplaceFirst | src/components/history/HistoryPage.tsx:28 | `replace` with a string pattern removes its first occurrence and changes nothing else |
| Text.Split | src/services/SitemapDiscoveryService.ts:108-110 | `split` gives at least one part, and no part holds the separator |
| Text.JoinSplit | src/services/SitemapDiscoveryService.ts:110 | joining the parts of a split with the same separator gives back the input |
| Text.AfterFirstSeparator | src/services/SitemapDiscoveryService.ts:110 | re-joining all parts but the first gives the text after the first separator, or "" when there is none |
| Text.Decimal | src/utils/seoAnalysis.ts:26-37 | number rendering gives a non-empty string of digits without a leading zero |
| Text.DecimalRoundTrip | src/utils/seoAnalysis.ts:26-37 | reading a rendered number back gives the number |

## Left out

- src/services/ProxyService.ts, server.js, src/services/HistoryService.ts and src/services/SitemapService.ts are not part of this model. The first two are I/O and rate-limiting plumbing. The other two are database and DOM wrappers. The component takes its URL list, or what fetching it threw, as the parameter `urlsOutcome`, and the history save's outcome as `saveOutcome`.
- Rendering, toasts, logging, React Query invalidation, the discovery `onProgress` callbacks and the auth listener are left out; they carry no logic the properties depend on.
- The `URL` constructor, `fast-xml-parser`, `DOMParser`, `fetch` with its proxy URL encoding, and `performance.now` are parameters, so the properties hold for any behaviour of them.
- PageAnalyzer.PageEnv: the load time is a whole number of milliseconds (`int`). The measured floating-point duration and `Math.round` in the details text are not modelled.
- The per-URL `catch` of the analyser component is not modelled, because `analyzePage` never throws: every URL yields a page. For the same reason the average over zero pages (`NaN`) cannot occur after the empty-list check.
- HistoryPage.Analysis: `created_at` is taken as already-parsed milliseconds. Date strings that do not parse (`NaN` in the comparator) are not modelled.
- HistoryPage.Entries: `Object.entries` lists integer-like keys first. The model lists domains in insertion order, which differs only for a domain that is a canonical array index.
- Text.ToLower: maps only the ASCII letters A–Z, while JavaScript's `toLowerCase` applies the full Unicode case mapping (the Kelvin sign U+212A becomes "k"; "İ" becomes two characters). HistoryPage.MatchesQuery, SitemapDiscovery.IsSitemapLine and SitemapDiscovery.IsDirectCandidate inherit this, so they agree with the code only on text whose upper-case letters are ASCII.
- HistoryPage.EntryScore: scores an empty group as 0.0. Groups are never empty (`InDomainListed`), so this value is never used.
- StableSort.SortDescending: the insertion sort keeps ties in input order, as `Array.prototype.sort` does, but stability is not stated as a lemma. Only the permutation and the order are proved.
- PageAnalyzer.RunInBatches is generic over the per-URL analysis. Concurrency inside a batch is not modelled: `allSettled` preserves order and `analyzePage` never rejects, so the sequential model gives the same result.
- The one-second pause between batches is counted, not timed.
- SitemapAnalysis.SitemapAnalyzer.progressLog is a ghost record of the values passed to `setProgress`. React's batched state updates are not modelled.
- The discovery run's `source = 'direct'` and `source = 'robots'` assignments update the validator's object in place; the model returns an updated copy of the location, which is the same value since nothing else holds it.

## Findings

| source | as written | input that shows it | evidently intended | confidence | as-written member | corrected member |
|---|---|---|---|---|---|---|
| src/services/SitemapDiscoveryService.ts:148-164 | the plain-text fallback is tried only when the XML parser throws; a body that parses but has neither `sitemapindex` nor `urlset` is rejected | the body `http` read by the parser as a document with neither element | plain-text URL lists are recognised whenever the document is not an XML sitemap | not executed; depends on the parser returning an empty document for plain text | SitemapDiscovery.TextSitemapMissedAsWritten | SitemapDiscovery.TextFallbackCorrected |
| src/components/history/HistoryPage.tsx:28 | `hostname.replace('www.', '')` removes the first "www." anywhere in the hostname | the hostname `awww.com` becomes `acom` and is grouped under the wrong domain | only a leading "www." is removed | not executed | HistoryPage.WwwInsideHostAsWritten | HistoryPage.DomainAgreesOnOrdinaryHosts |
