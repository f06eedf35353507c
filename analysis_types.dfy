/** The shapes of the analysis results (src/types/analysis.ts). */
module AnalysisTypes {
  import opened Wrappers

  /** An issue is only ever an error or a warning. */
  datatype IssueType = Error | Warning

  datatype SeoIssue = SeoIssue(kind: IssueType, message: string, details: Option<string>)

  datatype TitleAnalysis = TitleAnalysis(text: string, length: nat, isOptimal: bool, issues: seq<SeoIssue>)

  datatype DescriptionAnalysis = DescriptionAnalysis(text: string, length: nat, isOptimal: bool, issues: seq<SeoIssue>)

  /** `loadTime` is in whole milliseconds. */
  datatype PerformanceAnalysis = PerformanceAnalysis(loadTime: int, issues: seq<SeoIssue>)

  datatype PageAnalysis = PageAnalysis(
    url: string,
    title: TitleAnalysis,
    description: DescriptionAnalysis,
    performance: PerformanceAnalysis,
    images: seq<string>,
    score: int,
    issues: seq<SeoIssue>)

  datatype AnalysisSummary = AnalysisSummary(totalPages: nat, criticalIssues: nat, warnings: nat, averageScore: real)

  datatype AnalysisResult = AnalysisResult(pages: seq<PageAnalysis>, summary: AnalysisSummary)

  /** The number of issues of one kind in a list. */
  function CountOfKind(issues: seq<SeoIssue>, kind: IssueType): (n: nat)
    ensures n <= |issues|
  {
    if issues == [] then 0
    else (if issues[0].kind == kind then 1 else 0) + CountOfKind(issues[1..], kind)
  }

  /** Counting distributes over concatenation. */
  lemma {:induction false} CountOfKindAppend(a: seq<SeoIssue>, b: seq<SeoIssue>, kind: IssueType)
    ensures CountOfKind(a + b, kind) == CountOfKind(a, kind) + CountOfKind(b, kind)
  {
    if a == [] {
      assert a + b == b;
    } else {
      assert (a + b)[1..] == a[1..] + b;
      CountOfKindAppend(a[1..], b, kind);
    }
  }

  /** A list has no issue of a kind exactly when none of its issues is of
      that kind. */
  lemma {:induction false} CountOfKindZero(issues: seq<SeoIssue>, kind: IssueType)
    ensures CountOfKind(issues, kind) == 0 <==> forall i :: 0 <= i < |issues| ==> issues[i].kind != kind
  {
    if issues != [] {
      CountOfKindZero(issues[1..], kind);
      assert forall i :: 1 <= i < |issues| ==> issues[i] == issues[1..][i - 1];
    }
  }

  /** Because every issue is an error or a warning, the two counts add up to
      the length of the list. */
  lemma {:induction false} ErrorsPlusWarnings(issues: seq<SeoIssue>)
    ensures CountOfKind(issues, Error) + CountOfKind(issues, Warning) == |issues|
  {
    if issues != [] {
      ErrorsPlusWarnings(issues[1..]);
    }
  }
}
