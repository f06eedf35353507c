/** The analysis run of the sitemap analyzer component
    (src/components/analyzer/SitemapAnalyzer.tsx, `analyzeSitemap`): analyse
    every URL of a sitemap in order, report progress, and summarise.

    The URL list (or what fetching it threw) and the outcome of saving to the
    history are parameters; the component's state is the class below. */
module SitemapAnalysis {
  import opened Wrappers
  import opened AnalysisTypes
  import opened PageAnalyzer

  const NO_URLS := "No URLs found in sitemap"
  const UNKNOWN_FAILURE := "An unknown error occurred"

  /** The message shown for a thrown value. */
  function ErrorMessage(e: Thrown): string {
    match e
    case ErrorValue(m) => m
    case OtherValue => UNKNOWN_FAILURE
  }

  /** The number of issues of one kind across pages (the `criticalIssues` and
      `warnings` reductions). */
  function IssueTotal(pages: seq<PageAnalysis>, kind: IssueType): nat {
    if pages == [] then 0 else CountOfKind(pages[0].issues, kind) + IssueTotal(pages[1..], kind)
  }

  /** The number of issues across pages. */
  function AllIssues(pages: seq<PageAnalysis>): nat {
    if pages == [] then 0 else |pages[0].issues| + AllIssues(pages[1..])
  }

  function ScoreSum(pages: seq<PageAnalysis>): int {
    if pages == [] then 0 else pages[0].score + ScoreSum(pages[1..])
  }

  /** The summary of a run over `totalPages` URLs that produced `pages`. */
  function Summarize(totalPages: nat, pages: seq<PageAnalysis>): (s: AnalysisSummary)
    requires |pages| > 0
    ensures s.totalPages == totalPages
    ensures s.criticalIssues == IssueTotal(pages, Error) && s.warnings == IssueTotal(pages, Warning)
    ensures s.averageScore * |pages| as real == ScoreSum(pages) as real
  {
    AnalysisSummary(totalPages, IssueTotal(pages, Error), IssueTotal(pages, Warning),
                    ScoreSum(pages) as real / |pages| as real)
  }

  /** Some page lists an issue of this kind. */
  predicate SomePageHas(pages: seq<PageAnalysis>, kind: IssueType) {
    exists k, i :: 0 <= k < |pages| && 0 <= i < |pages[k].issues| && pages[k].issues[i].kind == kind
  }

  /** The total of a kind is zero exactly when no page lists such an issue. */
  lemma {:induction false} IssueTotalZero(pages: seq<PageAnalysis>, kind: IssueType)
    ensures IssueTotal(pages, kind) == 0 <==> !SomePageHas(pages, kind)
  {
    if pages != [] {
      IssueTotalZero(pages[1..], kind);
      CountOfKindZero(pages[0].issues, kind);
      if SomePageHas(pages, kind) {
        var k, i :| 0 <= k < |pages| && 0 <= i < |pages[k].issues| && pages[k].issues[i].kind == kind;
        if k > 0 {
          assert pages[1..][k - 1] == pages[k];
        }
      }
      if SomePageHas(pages[1..], kind) {
        var k, i :| 0 <= k < |pages[1..]| && 0 <= i < |pages[1..][k].issues| && pages[1..][k].issues[i].kind == kind;
        assert pages[1..][k] == pages[k + 1];
      }
    }
  }

  /** `criticalIssues` is zero exactly when no page lists an error, and
      `warnings` exactly when no page lists a warning. */
  lemma SummaryCountsKinds(totalPages: nat, pages: seq<PageAnalysis>)
    requires |pages| > 0
    ensures Summarize(totalPages, pages).criticalIssues == 0 <==> !SomePageHas(pages, Error)
    ensures Summarize(totalPages, pages).warnings == 0 <==> !SomePageHas(pages, Warning)
  {
    IssueTotalZero(pages, Error);
    IssueTotalZero(pages, Warning);
  }

  /** Every issue is counted once: as critical or as a warning. */
  lemma {:induction false} CriticalPlusWarnings(totalPages: nat, pages: seq<PageAnalysis>)
    requires |pages| > 0
    ensures Summarize(totalPages, pages).criticalIssues + Summarize(totalPages, pages).warnings == AllIssues(pages)
  {
    TotalsAddUp(pages);
  }

  lemma {:induction false} TotalsAddUp(pages: seq<PageAnalysis>)
    ensures IssueTotal(pages, Error) + IssueTotal(pages, Warning) == AllIssues(pages)
  {
    if pages != [] {
      ErrorsPlusWarnings(pages[0].issues);
      TotalsAddUp(pages[1..]);
    }
  }

  /** A page whose score is in [0, 100] and is 100 exactly when it has no
      issue. */
  predicate ScoreReflectsIssues(p: PageAnalysis) {
    0 <= p.score <= 100 && (p.score == 100 <==> p.issues == [])
  }

  /** Every analysed page's score reflects its issues: a fetched page by the
      scoring rule, a failed one with score 0 and one error. */
  lemma AnalyzedPagesReflectIssues(env: PageEnv, urls: seq<string>)
    ensures forall k :: 0 <= k < |urls| ==> ScoreReflectsIssues(AnalyzeAll(env, urls)[k])
  {
    forall k | 0 <= k < |urls| ensures ScoreReflectsIssues(AnalyzeAll(env, urls)[k]) {
      if env.fetch(urls[k]).Success? {
        AnalyzedPageScore(env, urls[k]);
      } else {
        FailedPageShape(env, urls[k]);
      }
    }
  }

  lemma {:induction false} ScoreSumBounds(pages: seq<PageAnalysis>)
    requires forall k :: 0 <= k < |pages| ==> ScoreReflectsIssues(pages[k])
    ensures 0 <= ScoreSum(pages) <= 100 * |pages|
    ensures ScoreSum(pages) == 100 * |pages| <==> AllIssues(pages) == 0
  {
    if pages != [] {
      assert forall k :: 0 <= k < |pages[1..]| ==> pages[1..][k] == pages[k + 1];
      ScoreSumBounds(pages[1..]);
      assert ScoreReflectsIssues(pages[0]);
    }
  }

  /** When every page's score reflects its issues, the average score lies in
      [0, 100] and is 100 exactly when no page has an issue. */
  lemma AverageScoreFacts(totalPages: nat, pages: seq<PageAnalysis>)
    requires |pages| > 0
    requires forall k :: 0 <= k < |pages| ==> ScoreReflectsIssues(pages[k])
    ensures var s := Summarize(totalPages, pages);
            && 0.0 <= s.averageScore <= 100.0
            && (s.averageScore == 100.0 <==> s.criticalIssues + s.warnings == 0)
  {
    ScoreSumBounds(pages);
    TotalsAddUp(pages);
    var s := Summarize(totalPages, pages);
    AverageOfBoundedSum(s.averageScore, ScoreSum(pages), |pages|);
  }

  /** An average of scores in [0, 100] lies in [0, 100], and is 100 exactly
      when the sum is the largest possible. */
  lemma AverageOfBoundedSum(average: real, sum: int, n: nat)
    requires n > 0 && 0 <= sum <= 100 * n
    requires average * n as real == sum as real
    ensures 0.0 <= average <= 100.0
    ensures average == 100.0 <==> sum == 100 * n
  {
    if average == 100.0 {
      assert sum as real == 100.0 * n as real;
    }
  }

  /** The summary of a run over a non-empty URL list: one page per URL, every
      issue counted once as critical or warning, and an average score in
      [0, 100] that is 100 exactly when no page has an issue. */
  lemma RunSummaryFacts(env: PageEnv, urls: seq<string>)
    requires |urls| > 0
    ensures var pages := AnalyzeAll(env, urls);
            var s := Summarize(|urls|, pages);
            && |pages| == s.totalPages
            && s.criticalIssues + s.warnings == AllIssues(pages)
            && 0.0 <= s.averageScore <= 100.0
            && (s.averageScore == 100.0 <==> AllIssues(pages) == 0)
  {
    var pages := AnalyzeAll(env, urls);
    AnalyzedPagesReflectIssues(env, urls);
    AverageScoreFacts(|urls|, pages);
    TotalsAddUp(pages);
  }

  /** Reporting the progress of one more page extends the log by its value. */
  lemma ProgressLogNext(log: seq<real>, m: nat, n: nat)
    requires m < n
    ensures log + ProgressValues(m + 1, n) == (log + ProgressValues(m, n)) + [((m + 1) as real / n as real) * 100.0]
  {
    ProgressValuesNext(m, n);
    var v := ((m + 1) as real / n as real) * 100.0;
    assert log + (ProgressValues(m, n) + [v]) == (log + ProgressValues(m, n)) + [v];
  }

  /** The state the component keeps for one analysis run. `progressLog` is the
      sequence of values passed to `setProgress`. */
  class SitemapAnalyzer {
    var analyzing: bool
    var progress: real
    var error: Option<string>
    var results: Option<AnalysisResult>
    ghost var progressLog: seq<real>

    constructor()
      ensures !analyzing && progress == 0.0 && error.None? && results.None? && progressLog == []
    {
      analyzing := false;
      progress := 0.0;
      error := None;
      results := None;
      progressLog := [];
    }

    method SetProgress(value: real)
      modifies this
      ensures progress == value && progressLog == old(progressLog) + [value]
      ensures analyzing == old(analyzing) && error == old(error) && results == old(results)
    {
      progress := value;
      progressLog := progressLog + [value];
    }

    /** Step 2 of `analyzeSitemap`: analyse each URL in order, pushing the
        analysis and reporting progress after each one. */
    method AnalyzeUrls(env: PageEnv, urls: seq<string>) returns (analysisResults: seq<PageAnalysis>)
      requires |urls| > 0
      modifies this
      ensures analysisResults == AnalyzeAll(env, urls)
      ensures progressLog == old(progressLog) + ProgressValues(|urls|, |urls|)
      ensures progress == 100.0
      ensures analyzing == old(analyzing) && error == old(error) && results == old(results)
    {
      analysisResults := [];
      ghost var log0 := progressLog;
      assert log0 + ProgressValues(0, |urls|) == log0;
      for i := 0 to |urls|
        invariant analysisResults == AnalyzeAll(env, urls[..i])
        invariant progressLog == log0 + ProgressValues(i, |urls|)
        invariant i > 0 ==> progress == (i as real / |urls| as real) * 100.0
        invariant analyzing == old(analyzing) && error == old(error) && results == old(results)
      {
        analysisResults := AnalyzeNextUrl(env, urls, i, analysisResults, log0);
      }
      assert urls[..|urls|] == urls;
      assert (|urls| as real / |urls| as real) == 1.0;
    }

    /** One turn of that loop: analyse URL `i`, push its analysis and report
        the progress so far. */
    method AnalyzeNextUrl(env: PageEnv, urls: seq<string>, i: nat, analysisResults0: seq<PageAnalysis>, ghost log0: seq<real>)
      returns (analysisResults: seq<PageAnalysis>)
      requires i < |urls|
      requires analysisResults0 == AnalyzeAll(env, urls[..i])
      requires progressLog == log0 + ProgressValues(i, |urls|)
      modifies this
      ensures analysisResults == AnalyzeAll(env, urls[..i + 1])
      ensures progressLog == log0 + ProgressValues(i + 1, |urls|)
      ensures progress == ((i + 1) as real / |urls| as real) * 100.0
      ensures analyzing == old(analyzing) && error == old(error) && results == old(results)
    {
      // The analysis of URL i, as a one-element list.
      var analysis := AnalyzeAll(env, urls[i..i + 1]);
      AnalyzeAllAppend(env, urls[..i], urls[i..i + 1]);
      SplitPrefix(urls, i, i + 1);
      analysisResults := analysisResults0 + analysis;
      var value := ((i + 1) as real / |urls| as real) * 100.0;
      ProgressLogNext(log0, i, |urls|);
      SetProgress(value);
    }

    /** `analyzeSitemap`. `urlsOutcome` is the sitemap's URL list or what
        fetching it threw; `saveOutcome` is what saving to the history threw,
        if it did (`None` when it succeeded or nobody is signed in). */
    method AnalyzeSitemap(env: PageEnv, urlsOutcome: Result<seq<string>, Thrown>, saveOutcome: Option<Thrown>)
      modifies this
      ensures !analyzing
      ensures urlsOutcome.Failure? ==>
                error == Some(ErrorMessage(urlsOutcome.error)) && results == old(results)
                && progress == 0.0 && progressLog == old(progressLog) + [0.0]
      ensures urlsOutcome.Success? && urlsOutcome.value == [] ==>
                error == Some(NO_URLS) && results == old(results)
                && progress == 0.0 && progressLog == old(progressLog) + [0.0]
      ensures urlsOutcome.Success? && urlsOutcome.value != [] ==>
                var urls := urlsOutcome.value;
                var pages := AnalyzeAll(env, urls);
                && results == Some(AnalysisResult(pages, Summarize(|urls|, pages)))
                && error == (if saveOutcome.Some? then Some(ErrorMessage(saveOutcome.value)) else None)
                && progress == 100.0
                && progressLog == old(progressLog) + [0.0] + ProgressValues(|urls|, |urls|)
    {
      analyzing := true;
      error := None;
      SetProgress(0.0);
      ghost var log0 := progressLog;

      if urlsOutcome.Failure? {
        error := Some(ErrorMessage(urlsOutcome.error));
        analyzing := false;
        return;
      }
      var urls := urlsOutcome.value;
      if |urls| == 0 {
        error := Some(NO_URLS);
        analyzing := false;
        return;
      }

      var analysisResults := AnalyzeUrls(env, urls);

      results := Some(AnalysisResult(analysisResults, Summarize(|urls|, analysisResults)));
      if saveOutcome.Some? {
        error := Some(ErrorMessage(saveOutcome.value));
      }
      analyzing := false;
    }
  }
}
