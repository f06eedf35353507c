/** Page analysis and the batch runner (src/services/PageAnalyzerService.ts).

    The proxied fetch, together with the two clock readings around it, is the
    parameter `fetch` (its reply body and the elapsed time in whole
    milliseconds, or what it threw); the DOM lookups of the `<title>` text and
    of the description meta's `content` are `titleOf` and `descriptionOf`
    (empty where the element is absent). */
module PageAnalyzer {
  import opened Wrappers
  import opened Text
  import opened AnalysisTypes
  import opened SeoAnalysis

  /** A thrown value: an `Error` carrying its message, or anything else. */
  datatype Thrown = ErrorValue(message: string) | OtherValue

  datatype Response = Response(body: string, loadTime: int)

  datatype PageEnv = PageEnv(
    fetch: string -> Result<Response, Thrown>,
    titleOf: string -> string,
    descriptionOf: string -> string)

  const FAILED_TO_ANALYZE := "Failed to analyze page"
  const UNKNOWN_ERROR := "Unknown error"
  const BATCH_SIZE: nat := 10

  /** Only a body that looks like HTML is handed to the DOM parser. */
  predicate LooksLikeHtml(body: string) {
    Contains(body, "<!DOCTYPE html>") || Contains(body, "<html")
  }

  function PageTitle(env: PageEnv, body: string): string {
    if LooksLikeHtml(body) then env.titleOf(body) else ""
  }

  function PageDescription(env: PageEnv, body: string): string {
    if LooksLikeHtml(body) then env.descriptionOf(body) else ""
  }

  /** The result of the `catch` branch: zeroed sub-analyses, score 0 and a
      single error carrying the thrown message. */
  function FailedPage(url: string, error: Thrown): PageAnalysis {
    var details := match error
      case ErrorValue(m) => m
      case OtherValue => UNKNOWN_ERROR;
    PageAnalysis(
      url,
      TitleAnalysis("", 0, false, []),
      DescriptionAnalysis("", 0, false, []),
      PerformanceAnalysis(0, []),
      [],
      0,
      [SeoIssue(Error, FAILED_TO_ANALYZE, Some(details))])
  }

  /** The result of the `try` branch, from the extracted title and description
      and the measured load time. */
  function AssemblePage(url: string, title: string, description: string, loadTime: int): PageAnalysis {
    var titleAnalysis := AnalyzeTitleTag(title);
    var descriptionAnalysis := AnalyzeMetaDescription(description);
    var performanceAnalysis := AnalyzeLoadTime(loadTime);
    PageAnalysis(
      url,
      titleAnalysis,
      descriptionAnalysis,
      performanceAnalysis,
      [],
      CalculateSeoScore([titleAnalysis.issues, descriptionAnalysis.issues, performanceAnalysis.issues]),
      titleAnalysis.issues + descriptionAnalysis.issues + performanceAnalysis.issues)
  }

  /** `analyzePage`: it never throws; a failed fetch becomes the degraded
      result. */
  function AnalyzePage(env: PageEnv, url: string): (r: PageAnalysis)
    ensures r.url == url && r.images == []
    ensures 0 <= r.score <= 100
    ensures env.fetch(url).Failure? ==> r.score == 0 && r.issues == [FailedPage(url, env.fetch(url).error).issues[0]]
  {
    match env.fetch(url)
    case Failure(e) => FailedPage(url, e)
    case Success(response) =>
      AssemblePage(url, PageTitle(env, response.body), PageDescription(env, response.body), response.loadTime)
  }

  /** The page's score is exactly the score of its issue list: 100 less 20 per
      error and 5 per warning, clamped to [0, 100]; so it is 100 exactly when
      the list is empty. */
  predicate ScoredByIssues(r: PageAnalysis) {
    && r.score == Clamp(0, 100, 100 - 20 * CountOfKind(r.issues, Error) - 5 * CountOfKind(r.issues, Warning))
    && (r.score == 100 <==> r.issues == [])
  }

  /** On success the page's issues are the title's, then the description's,
      then the performance issues, and its score is the score of that list. */
  lemma AnalyzedPageScore(env: PageEnv, url: string)
    requires env.fetch(url).Success?
    ensures var r := AnalyzePage(env, url);
            r.issues == r.title.issues + r.description.issues + r.performance.issues
    ensures ScoredByIssues(AnalyzePage(env, url))
  {
    var r := AnalyzePage(env, url);
    ScoredPage(r, r.title.issues, r.description.issues, r.performance.issues);
  }

  /** A page scored from three issue lists and listing them in order. */
  lemma ScoredPage(r: PageAnalysis, t: seq<SeoIssue>, d: seq<SeoIssue>, p: seq<SeoIssue>)
    requires r.issues == t + d + p && r.score == CalculateSeoScore([t, d, p])
    ensures ScoredByIssues(r)
  {
    ScoreOfThree(t, d, p);
  }

  /** A reply that does not look like HTML leaves title and description empty,
      so both are reported missing and the score is at most 60. */
  lemma NonHtmlScoresAtMost60(env: PageEnv, url: string)
    requires env.fetch(url).Success? && !LooksLikeHtml(env.fetch(url).value.body)
    ensures var r := AnalyzePage(env, url);
            && r.title.text == "" && r.description.text == ""
            && HasIssue(r.issues, Error, MISSING_TITLE)
            && HasIssue(r.issues, Error, MISSING_DESCRIPTION)
            && r.score <= 60
  {
    AnalyzedPageScore(env, url);
    var r := AnalyzePage(env, url);
    var t, d, p := r.title.issues, r.description.issues, r.performance.issues;
    CountOfKindAppend(t, d, Error);
    CountOfKindAppend(t + d, p, Error);
    assert r.issues[0] == t[0];
    assert r.issues[|t|] == d[0];
  }

  /** A failed fetch yields score 0 and one error "Failed to analyze page"
      with the thrown message, or "Unknown error" for a non-`Error` throw; the
      sub-analyses are empty and not optimal. */
  lemma FailedPageShape(env: PageEnv, url: string)
    requires env.fetch(url).Failure?
    ensures var r := AnalyzePage(env, url);
            var e := env.fetch(url).error;
            && r.score == 0
            && |r.issues| == 1 && r.issues[0].kind == Error && r.issues[0].message == FAILED_TO_ANALYZE
            && r.issues[0].details == Some(if e.ErrorValue? then e.message else UNKNOWN_ERROR)
            && r.title.text == "" && !r.title.isOptimal && r.title.issues == []
            && r.description.text == "" && !r.description.isOptimal && r.description.issues == []
            && r.performance == PerformanceAnalysis(0, [])
  {
  }

  // ---------------------------------------------------------------------------
  // analyzePages

  function Min(a: int, b: int): int {
    if a <= b then a else b
  }

  /** The values passed to `onProgress` after the first `m` of `n` pages. */
  function ProgressValues(m: nat, n: nat): (r: seq<real>)
    requires m <= n
    ensures |r| == m
  {
    seq(m, k requires 0 <= k < m => ((k + 1) as real / n as real) * 100.0)
  }

  /** `analyze` applied to each URL, in URL order. */
  function MapUrls<T>(analyze: string -> T, urls: seq<string>): (r: seq<T>)
    ensures |r| == |urls|
    ensures forall k :: 0 <= k < |urls| ==> r[k] == analyze(urls[k])
  {
    seq(|urls|, k requires 0 <= k < |urls| => analyze(urls[k]))
  }

  /** `analyzePage` as a function value. */
  function PageAnalyzerOf(env: PageEnv): string -> PageAnalysis {
    url => AnalyzePage(env, url)
  }

  /** One analysis per URL, in URL order. */
  function AnalyzeAll(env: PageEnv, urls: seq<string>): (r: seq<PageAnalysis>)
    ensures |r| == |urls|
    ensures forall k :: 0 <= k < |urls| ==> r[k] == AnalyzePage(env, urls[k])
  {
    MapUrls(PageAnalyzerOf(env), urls)
  }

  function Flatten<T>(parts: seq<seq<T>>): seq<T> {
    if parts == [] then [] else parts[0] + Flatten(parts[1..])
  }

  lemma {:induction false} FlattenAppend<T>(a: seq<seq<T>>, b: seq<seq<T>>)
    ensures Flatten(a + b) == Flatten(a) + Flatten(b)
  {
    if a == [] {
      assert a + b == b;
    } else {
      assert (a + b)[1..] == a[1..] + b;
      FlattenAppend(a[1..], b);
    }
  }

  /** `analyzePages`: batches of at most ten URLs; every result is pushed (the
      analyses never reject) and each completion reports progress; a pause
      separates consecutive batches. Returns the pages, the values passed to
      `onProgress`, the number of pauses and (ghost) the batches. */
  method AnalyzePages(env: PageEnv, urls: seq<string>)
    returns (pages: seq<PageAnalysis>, progress: seq<real>, pauses: nat, ghost batches: seq<seq<string>>)
    ensures pages == AnalyzeAll(env, urls)
    ensures progress == ProgressValues(|urls|, |urls|)
    ensures pauses == if |urls| == 0 then 0 else (|urls| - 1) / BATCH_SIZE
    ensures Flatten(batches) == urls
    ensures forall b :: 0 <= b < |batches| ==> 1 <= |batches[b]| <= BATCH_SIZE
    ensures |urls| > 0 ==> |batches| == pauses + 1
  {
    pages, progress, pauses, batches := RunInBatches(PageAnalyzerOf(env), urls);
  }

  /** The batch loop of `analyzePages`, for any per-URL analysis. */
  method RunInBatches<T>(analyze: string -> T, urls: seq<string>)
    returns (pages: seq<T>, progress: seq<real>, pauses: nat, ghost batches: seq<seq<string>>)
    ensures pages == MapUrls(analyze, urls)
    ensures progress == ProgressValues(|urls|, |urls|)
    ensures pauses == if |urls| == 0 then 0 else (|urls| - 1) / BATCH_SIZE
    ensures Flatten(batches) == urls
    ensures forall b :: 0 <= b < |batches| ==> 1 <= |batches[b]| <= BATCH_SIZE
    ensures |urls| > 0 ==> |batches| == pauses + 1
  {
    pages := [];
    progress := [];
    pauses := 0;
    batches := [];
    var completed := 0;
    var i := 0;
    while i < |urls|
      invariant i % BATCH_SIZE == 0 && i < |urls| + BATCH_SIZE
      invariant completed == Min(i, |urls|)
      invariant pages == MapUrls(analyze, urls[..completed])
      invariant progress == ProgressValues(completed, |urls|)
      invariant pauses == if i == 0 then 0 else if i < |urls| then i / BATCH_SIZE else i / BATCH_SIZE - 1
      invariant Flatten(batches) == urls[..completed]
      invariant forall b :: 0 <= b < |batches| ==> 1 <= |batches[b]| <= BATCH_SIZE
      invariant |batches| == i / BATCH_SIZE
    {
      pages, progress, completed, batches := RunBatch(analyze, urls, i, pages, progress, batches);
      if i + BATCH_SIZE < |urls| {
        pauses := pauses + 1;
      }
      i := i + BATCH_SIZE;
    }
    assert urls[..completed] == urls;
    if |urls| > 0 {
      BatchCount(i, |urls|);
    }
  }

  /** One batch, the URLs from `i` on (at most ten): analysed together, then
      their results reported in order. */
  method RunBatch<T>(analyze: string -> T, urls: seq<string>, i: nat,
                     pages0: seq<T>, progress0: seq<real>, ghost batches0: seq<seq<string>>)
    returns (pages: seq<T>, progress: seq<real>, completed: nat, ghost batches: seq<seq<string>>)
    requires i < |urls|
    requires pages0 == MapUrls(analyze, urls[..i]) && progress0 == ProgressValues(i, |urls|)
    requires Flatten(batches0) == urls[..i]
    ensures completed == Min(i + BATCH_SIZE, |urls|)
    ensures pages == MapUrls(analyze, urls[..completed])
    ensures progress == ProgressValues(completed, |urls|)
    ensures batches == batches0 + [urls[i..completed]]
    ensures Flatten(batches) == urls[..completed]
  {
    var end := Min(i + BATCH_SIZE, |urls|);
    var batch := urls[i..end];
    var batchResults := MapUrls(analyze, batch);
    pages, progress, completed := ReportBatch(|urls|, batchResults, pages0, progress0, i);
    MapUrlsAppend(analyze, urls[..i], batch);
    FlattenAppend(batches0, [batch]);
    SplitPrefix(urls, i, end);
    batches := batches0 + [batch];
  }

  /** The `forEach` over one batch's settled results: each is pushed, the
      counter advances and progress is reported. */
  method ReportBatch<T>(n: nat, batchResults: seq<T>, pages0: seq<T>, progress0: seq<real>, completed0: nat)
    returns (pages: seq<T>, progress: seq<real>, completed: nat)
    requires completed0 + |batchResults| <= n && progress0 == ProgressValues(completed0, n)
    ensures pages == pages0 + batchResults
    ensures completed == completed0 + |batchResults|
    ensures progress == ProgressValues(completed, n)
  {
    pages, progress, completed := pages0, progress0, completed0;
    for b := 0 to |batchResults|
      invariant completed == completed0 + b
      invariant pages == pages0 + batchResults[..b]
      invariant progress == ProgressValues(completed, n)
    {
      assert batchResults[..b + 1] == batchResults[..b] + [batchResults[b]];
      ProgressValuesNext(completed, n);
      pages := pages + [batchResults[b]];
      completed := completed + 1;
      progress := progress + [(completed as real / n as real) * 100.0];
    }
    assert batchResults[..|batchResults|] == batchResults;
  }

  lemma MapUrlsAppend<T>(analyze: string -> T, a: seq<string>, b: seq<string>)
    ensures MapUrls(analyze, a + b) == MapUrls(analyze, a) + MapUrls(analyze, b)
  {
    var l, r := MapUrls(analyze, a + b), MapUrls(analyze, a) + MapUrls(analyze, b);
    forall k | 0 <= k < |l| ensures l[k] == r[k] {
      if k < |a| {
        assert (a + b)[k] == a[k];
      } else {
        assert (a + b)[k] == b[k - |a|];
      }
    }
  }

  lemma AnalyzeAllAppend(env: PageEnv, a: seq<string>, b: seq<string>)
    ensures AnalyzeAll(env, a + b) == AnalyzeAll(env, a) + AnalyzeAll(env, b)
  {
    MapUrlsAppend(PageAnalyzerOf(env), a, b);
  }

  lemma SplitPrefix<T>(s: seq<T>, i: nat, j: nat)
    requires i <= j <= |s|
    ensures s[..j] == s[..i] + s[i..j]
  {
  }

  lemma ProgressValuesNext(m: nat, n: nat)
    requires m < n
    ensures ProgressValues(m + 1, n) == ProgressValues(m, n) + [((m + 1) as real / n as real) * 100.0]
  {
  }

  /** With batches starting at every multiple of ten below `n`, the loop ends
      at the first multiple of ten at or above `n`. */
  lemma BatchCount(i: nat, n: nat)
    requires 0 < n <= i < n + BATCH_SIZE && i % BATCH_SIZE == 0
    ensures i / BATCH_SIZE - 1 == (n - 1) / BATCH_SIZE
  {
  }

  lemma DivideMonotone(a: real, b: real, d: real)
    requires a < b && d > 0.0
    ensures a / d < b / d
  {
    assert b / d - a / d == (b - a) / d;
  }

  /** The progress reported after page k + 1 of n, and its bounds. */
  lemma ProgressAt(k: nat, n: nat)
    requires k < n
    ensures ProgressValues(n, n)[k] == ((k + 1) as real / n as real) * 100.0
    ensures 0.0 < (k + 1) as real / n as real <= 1.0
  {
    var d := n as real;
    DivideMonotone(0.0, (k + 1) as real, d);
    assert 0.0 / d == 0.0;
    assert d / d == 1.0;
    if k + 1 < n {
      DivideMonotone((k + 1) as real, d, d);
    }
  }

  lemma ProgressIncreasing(n: nat)
    ensures forall j, k :: 0 <= j < k < n ==> ProgressValues(n, n)[j] < ProgressValues(n, n)[k]
  {
    forall j, k | 0 <= j < k < n ensures ProgressValues(n, n)[j] < ProgressValues(n, n)[k] {
      ProgressAt(j, n);
      ProgressAt(k, n);
      DivideMonotone((j + 1) as real, (k + 1) as real, n as real);
    }
  }

  lemma ProgressInRange(n: nat)
    ensures forall k :: 0 <= k < n ==> 0.0 < ProgressValues(n, n)[k] <= 100.0
  {
    forall k | 0 <= k < n ensures 0.0 < ProgressValues(n, n)[k] <= 100.0 {
      ProgressAt(k, n);
    }
  }

  /** The reported progress rises strictly with every completed page and ends
      at exactly 100. */
  lemma ProgressRisesToHundred(n: nat)
    requires n > 0
    ensures var p := ProgressValues(n, n);
            && (forall j, k :: 0 <= j < k < n ==> p[j] < p[k])
            && p[n - 1] == 100.0
            && (forall k :: 0 <= k < n ==> 0.0 < p[k] <= 100.0)
  {
    ProgressIncreasing(n);
    ProgressInRange(n);
    ProgressAt(n - 1, n);
  }
}
